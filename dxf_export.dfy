/**
  The DXF drawing of the truss (src/lib/dxfExporter.ts): the R12 (AC1009)
  section skeleton, one LINE entity per member on layer MEMBERS, a horizontal
  and a vertical DIMENSION on layer DIMENSIONS, and the end of file. The text
  is a sequence of lines alternating group codes and values; each template
  literal of the exporter starts and ends with a line feed, so it is an empty
  line followed by its lines.
*/
module DxfExport {
  import opened JsRuntime
  import opened Types

  /** Offset of the dimension lines from the truss, in drawing units. */
  const DimOffset: int := -500

  /** HEADER (with $ACADVER = AC1009), empty TABLES and BLOCKS, and the opening of ENTITIES. */
  const HeaderBlock: seq<string> := [
    "",
    "0", "SECTION", "2", "HEADER", "9", "$ACADVER", "1", "AC1009", "0", "ENDSEC",
    "0", "SECTION", "2", "TABLES", "0", "ENDSEC",
    "0", "SECTION", "2", "BLOCKS", "0", "ENDSEC",
    "0", "SECTION", "2", "ENTITIES"]

  /** The opening of a LINE entity on layer MEMBERS. */
  const LineHead: seq<string> := ["", "0", "LINE", "8", "MEMBERS"]

  /** A point as two group-code/value pairs, coordinates to two decimals. */
  function PointLines(xCode: string, yCode: string, js: JsMath, p: Node): seq<string>
  {
    [xCode, ToFixed(js, p.x, 2), yCode, ToFixed(js, p.y, 2)]
  }

  /** A LINE entity from a (codes 10, 20) to b (codes 11, 21). */
  function LineBlock(js: JsMath, a: Node, b: Node): seq<string>
  {
    LineHead + PointLines("10", "20", js, a) + PointLines("11", "21", js, b)
  }

  /**
    A DIMENSION entity on layer DIMENSIONS: definition point (10, 20), text
    midpoint (11, 21), the two extension line origins (13, 23) and (14, 24),
    and the dimension type (70).
  */
  function DimensionLines(x10: string, y20: string, x11: string, y21: string,
                          x13: string, x14: string, y24: string, kind: string): seq<string>
  {
    ["", "0", "DIMENSION", "8", "DIMENSIONS",
     "10", x10, "20", y20, "11", x11, "21", y21,
     "13", x13, "23", "0", "14", x14, "24", y24, "70", kind]
  }

  /** The span dimension, drawn DimOffset below the supports. */
  function HorizontalDimension(js: JsMath, width: real): seq<string>
  {
    var w := js.numberToString(width);
    DimensionLines("0", IntToString(DimOffset), w, IntToString(DimOffset), "0", w, "0", "33")
  }

  /** The rise dimension, drawn -DimOffset to the right of the origin, measured at mid-span. */
  function VerticalDimension(js: JsMath, width: real, height: real): seq<string>
  {
    var h := js.numberToString(height);
    var half := js.numberToString(width / 2.0);
    DimensionLines(IntToString(-DimOffset), "0", IntToString(-DimOffset), h, half, half, h, "34")
  }

  const EndBlock: seq<string> := ["", "0", "ENDSEC", "0", "EOF"]

  /** A string that ends in a character trim keeps. */
  predicate EndsVisible(s: string)
  {
    s != [] && !IsJsWhitespace(s[|s| - 1])
  }

  /** Every member names two existing nodes; otherwise the exporter reads a property of undefined and throws. */
  predicate Drawable(truss: CalculatedTruss)
  {
    forall k :: 0 <= k < |truss.members| ==>
      truss.members[k].member.startNode < |truss.nodes| && truss.members[k].member.endNode < |truss.nodes|
  }

  function MemberBlock(js: JsMath, nodes: seq<Node>, m: SizedMember): seq<string>
    requires m.member.startNode < |nodes| && m.member.endNode < |nodes|
  {
    LineBlock(js, nodes[m.member.startNode], nodes[m.member.endNode])
  }

  /** The LINE entities of the members, in member order, thirteen lines each. */
  function EntityLines(js: JsMath, nodes: seq<Node>, members: seq<SizedMember>): (ls: seq<string>)
    requires Drawable(CalculatedTruss(nodes, members))
    ensures |ls| == 13 * |members|
  {
    if members == [] then []
    else
      var n := |members| - 1;
      assert Drawable(CalculatedTruss(nodes, members[..n]));
      EntityLines(js, nodes, members[..n]) + MemberBlock(js, nodes, members[n])
  }

  /** Every line written before the final trim. */
  function DxfLines(js: JsMath, result: CalculationResult): seq<string>
    requires Drawable(result.truss)
  {
    HeaderBlock
    + EntityLines(js, result.truss.nodes, result.truss.members)
    + HorizontalDimension(js, result.config.width)
    + VerticalDimension(js, result.config.width, result.config.height)
    + EndBlock
  }

  /** The exported text: the lines with their line feeds, trimmed. */
  function DxfDocument(js: JsMath, result: CalculationResult): string
    requires Drawable(result.truss)
  {
    Trim(Lines(DxfLines(js, result)))
  }

  /**
    Appends the header, one LINE per member, the two dimensions and the end of
    file, then trims. A member naming a missing node makes the exporter throw,
    modelled as None.
  */
  method ExportToDxf(js: JsMath, result: CalculationResult) returns (r: Option<string>)
    ensures Drawable(result.truss) ==> r == Some(DxfDocument(js, result))
    ensures !Drawable(result.truss) ==> r == None
  {
    var nodes, members := result.truss.nodes, result.truss.members;
    assert result.truss == CalculatedTruss(nodes, members);
    var dxfContent := Lines(HeaderBlock);
    var drawn := AppendMembers(js, nodes, members, dxfContent);
    if drawn == None {
      return None;
    }
    dxfContent := drawn.value;

    var width := result.config.width;
    var height := result.config.height;
    ClosingBlocks(js, result, dxfContent);
    dxfContent := dxfContent + Lines(HorizontalDimension(js, width));
    dxfContent := dxfContent + Lines(VerticalDimension(js, width, height));
    dxfContent := dxfContent + Lines(EndBlock);
    return Some(Trim(dxfContent));
  }

  /** members.forEach: appends the LINE entity of each member, or throws (None) at the first missing node. */
  method AppendMembers(js: JsMath, nodes: seq<Node>, members: seq<SizedMember>, content: string)
    returns (r: Option<string>)
    ensures Drawable(CalculatedTruss(nodes, members)) ==> r == Some(content + Lines(EntityLines(js, nodes, members)))
    ensures !Drawable(CalculatedTruss(nodes, members)) ==> r == None
  {
    var dxfContent := content;
    assert EntityLines(js, nodes, members[..0]) == [];
    for i := 0 to |members|
      invariant Drawable(CalculatedTruss(nodes, members[..i]))
      invariant dxfContent == content + Lines(EntityLines(js, nodes, members[..i]))
    {
      var member := members[i].member;
      if member.startNode >= |nodes| || member.endNode >= |nodes| {
        return None;
      }
      var start := nodes[member.startNode];
      var end := nodes[member.endNode];
      EntityAppended(js, nodes, members, i);
      AppendAssociative(content, Lines(EntityLines(js, nodes, members[..i])), Lines(LineBlock(js, start, end)));
      dxfContent := dxfContent + Lines(LineBlock(js, start, end));
    }
    assert members[..|members|] == members;
    return Some(dxfContent);
  }

  /** After the entities come the two dimensions and the end of file. */
  lemma ClosingBlocks(js: JsMath, result: CalculationResult, entities: string)
    requires Drawable(result.truss)
    requires entities == Lines(HeaderBlock) + Lines(EntityLines(js, result.truss.nodes, result.truss.members))
    ensures entities + Lines(HorizontalDimension(js, result.config.width))
              + Lines(VerticalDimension(js, result.config.width, result.config.height))
              + Lines(EndBlock)
         == Lines(DxfLines(js, result))
  {
    var a := HeaderBlock + EntityLines(js, result.truss.nodes, result.truss.members);
    LinesAppend(HeaderBlock, EntityLines(js, result.truss.nodes, result.truss.members));
    var h := HorizontalDimension(js, result.config.width);
    var v := VerticalDimension(js, result.config.width, result.config.height);
    LinesAppend(a, h);
    LinesAppend(a + h, v);
    LinesAppend(a + h + v, EndBlock);
  }

  lemma AppendAssociative(a: string, b: string, c: string)
    ensures (a + b) + c == a + (b + c)
  {
  }

  /** One loop step: the member's LINE block extends the written lines. */
  lemma EntityAppended(js: JsMath, nodes: seq<Node>, members: seq<SizedMember>, i: nat)
    requires i < |members| && Drawable(CalculatedTruss(nodes, members[..i]))
    requires members[i].member.startNode < |nodes| && members[i].member.endNode < |nodes|
    ensures Drawable(CalculatedTruss(nodes, members[..i + 1]))
    ensures Lines(EntityLines(js, nodes, members[..i + 1]))
         == Lines(EntityLines(js, nodes, members[..i])) + Lines(MemberBlock(js, nodes, members[i]))
  {
    DrawableExtends(nodes, members, i);
    assert members[..i + 1][..i] == members[..i];
    LinesAppend(EntityLines(js, nodes, members[..i]), MemberBlock(js, nodes, members[i]));
  }

  /** A drawable prefix stays drawable when the next member names existing nodes. */
  lemma DrawableExtends(nodes: seq<Node>, members: seq<SizedMember>, i: nat)
    requires i < |members| && Drawable(CalculatedTruss(nodes, members[..i]))
    requires members[i].member.startNode < |nodes| && members[i].member.endNode < |nodes|
    ensures Drawable(CalculatedTruss(nodes, members[..i + 1]))
  {
    var upto := members[..i + 1];
    forall k | 0 <= k < i + 1
      ensures upto[k].member.startNode < |nodes| && upto[k].member.endNode < |nodes|
    {
      if k < i {
        assert members[..i][k] == members[k];
      }
    }
  }

  // ---------------------------------------------------------------------------
  // Reading the drawing back

  /** The entities of the first m members are the first 13m entity lines. */
  lemma {:induction false} EntityLinesPrefix(js: JsMath, nodes: seq<Node>, members: seq<SizedMember>, m: nat)
    requires Drawable(CalculatedTruss(nodes, members)) && m <= |members|
    ensures Drawable(CalculatedTruss(nodes, members[..m]))
    ensures EntityLines(js, nodes, members[..m]) == EntityLines(js, nodes, members)[..13 * m]
  {
    if m < |members| {
      var n := |members| - 1;
      var prefix := members[..n];
      assert Drawable(CalculatedTruss(nodes, prefix));
      var before := EntityLines(js, nodes, prefix);
      var block := MemberBlock(js, nodes, members[n]);
      assert EntityLines(js, nodes, members) == before + block;
      EntityLinesPrefix(js, nodes, prefix, m);
      assert prefix[..m] == members[..m];
      SliceOfLeft(before, block, 0, 13 * m);
    } else {
      assert members[..m] == members;
    }
  }

  lemma SliceOfLeft<T>(a: seq<T>, b: seq<T>, i: nat, j: nat)
    requires i <= j <= |a|
    ensures (a + b)[i..j] == a[i..j]
  {
  }

  lemma BlockAt<T>(xs: seq<T>, before: seq<T>, block: seq<T>)
    requires |before| + |block| <= |xs| && xs[..|before| + |block|] == before + block
    ensures xs[|before|..|before| + |block|] == block
  {
    assert xs[|before|..|before| + |block|] == xs[..|before| + |block|][|before|..];
  }

  /** The LINE block of member k is lines 13k to 13k + 12 of the entities. */
  lemma EntityLinesAt(js: JsMath, nodes: seq<Node>, members: seq<SizedMember>, k: nat)
    requires Drawable(CalculatedTruss(nodes, members)) && k < |members|
    ensures EntityLines(js, nodes, members)[13 * k..13 * k + 13] == MemberBlock(js, nodes, members[k])
  {
    var all := EntityLines(js, nodes, members);
    EntityLinesPrefix(js, nodes, members, k);
    var before := EntityLines(js, nodes, members[..k]);
    var block := MemberBlock(js, nodes, members[k]);
    EntityLinesThrough(js, nodes, members, k);
    BlockAt(all, before, block);
  }

  /** The first 13(k + 1) entity lines are those of the first k members followed by member k's block. */
  lemma EntityLinesThrough(js: JsMath, nodes: seq<Node>, members: seq<SizedMember>, k: nat)
    requires Drawable(CalculatedTruss(nodes, members)) && k < |members|
    ensures Drawable(CalculatedTruss(nodes, members[..k]))
    ensures EntityLines(js, nodes, members)[..13 * k + 13]
         == EntityLines(js, nodes, members[..k]) + MemberBlock(js, nodes, members[k])
  {
    EntityLinesPrefix(js, nodes, members, k + 1);
    var upto := members[..k + 1];
    assert upto[..k] == members[..k] && upto[k] == members[k];
    DrawablePrefix(nodes, upto, k);
    assert EntityLines(js, nodes, upto) == EntityLines(js, nodes, upto[..k]) + MemberBlock(js, nodes, upto[k]);
  }

  /** Every prefix of a drawable member list is drawable. */
  lemma DrawablePrefix(nodes: seq<Node>, members: seq<SizedMember>, m: nat)
    requires Drawable(CalculatedTruss(nodes, members)) && m <= |members|
    ensures Drawable(CalculatedTruss(nodes, members[..m]))
  {
    var prefix := members[..m];
    forall k | 0 <= k < m
      ensures prefix[k].member.startNode < |nodes| && prefix[k].member.endNode < |nodes|
    {
      assert prefix[k] == members[k];
    }
  }

  /** The lines before trimming: an empty first line, "0" after it, "EOF" last. */
  lemma DxfLinesEnds(js: JsMath, result: CalculationResult)
    requires Drawable(result.truss)
    ensures var ls := DxfLines(js, result);
            |ls| == 78 + 13 * |result.truss.members| && ls[0] == "" && ls[1] == "0" && ls[|ls| - 1] == "EOF"
  {
    var e := EntityLines(js, result.truss.nodes, result.truss.members);
    var h := HorizontalDimension(js, result.config.width);
    var v := VerticalDimension(js, result.config.width, result.config.height);
    assert |HeaderBlock| == 27 && |h| == 23 && |v| == 23 && |EndBlock| == 5;
    assert HeaderBlock[0] == "" && HeaderBlock[1] == "0" && EndBlock[4] == "EOF";
    EndsOfFive(HeaderBlock, e, h, v, EndBlock);
  }

  /** Length, first two and last element of five concatenated parts. */
  lemma EndsOfFive<T>(a: seq<T>, b: seq<T>, c: seq<T>, d: seq<T>, e: seq<T>)
    requires |a| >= 2 && e != []
    ensures var all := a + b + c + d + e;
            |all| == |a| + |b| + |c| + |d| + |e|
            && all[0] == a[0] && all[1] == a[1] && all[|all| - 1] == e[|e| - 1]
  {
  }

  /** Trimming text that opens with an empty line removes exactly that line feed and the last one. */
  lemma TrimLines(ls: seq<string>)
    requires |ls| >= 3 && ls[0] == ""
    requires ls[1] != [] && !IsJsWhitespace(ls[1][0])
    requires EndsVisible(ls[|ls| - 1])
    ensures Trim(Lines(ls)) == Join(ls[1..])
  {
    var rest := ls[1..];
    var j := Join(rest);
    assert |j| >= 2 && !IsJsWhitespace(j[0]) && !IsJsWhitespace(j[|j| - 1]) by {
      assert j == rest[0] + "\n" + Join(rest[1..]);
      JoinEnds(rest);
    }
    assert Lines(ls) == "\n" + j + "\n" by {
      LinesJoin(rest);
      assert Lines(ls) == "\n" + Lines(rest);
      AppendAssociative("\n", j, "\n");
    }
    TrimFramed(j);
  }

  /** A text with visible ends, framed by two line feeds, trims back to itself. */
  lemma TrimFramed(j: string)
    requires |j| >= 2 && !IsJsWhitespace(j[0]) && !IsJsWhitespace(j[|j| - 1])
    ensures Trim("\n" + j + "\n") == j
  {
    var raw := "\n" + j + "\n";
    assert raw[1] == j[0];
    assert raw[|raw| - 2] == j[|j| - 1];
    TrimOneEach(raw);
    assert raw[1..|raw| - 1] == j;
  }

  /** Trimming removes exactly the line feed before the first line and the one after the last. */
  lemma DxfTrimmed(js: JsMath, result: CalculationResult)
    requires Drawable(result.truss)
    ensures var ls := DxfLines(js, result);
            |ls| == 78 + 13 * |result.truss.members| && DxfDocument(js, result) == Join(ls[1..])
  {
    DxfLinesEnds(js, result);
    TrimLines(DxfLines(js, result));
  }

  /** No line holds a line feed. */
  predicate NoBreaks(ls: seq<string>)
  {
    forall k :: 0 <= k < |ls| ==> '\n' !in ls[k]
  }

  lemma NoBreaksAppend(a: seq<string>, b: seq<string>)
    requires NoBreaks(a) && NoBreaks(b)
    ensures NoBreaks(a + b)
  {
  }

  /** Every printed number is a single line and every node is in toFixed's fixed-notation range. */
  predicate DxfPrintable(js: JsMath, result: CalculationResult)
  {
    && Drawable(result.truss)
    && '\n' !in js.numberToString(result.config.width)
    && '\n' !in js.numberToString(result.config.height)
    && '\n' !in js.numberToString(result.config.width / 2.0)
    && forall k :: 0 <= k < |result.truss.nodes| ==> InFixedRange(result.truss.nodes[k])
  }

  predicate InFixedRange(p: Node)
  {
    Abs(p.x) < FixedLimit as real && Abs(p.y) < FixedLimit as real
  }

  lemma FixedBlocksNoBreaks()
    ensures NoBreaks(HeaderBlock) && NoBreaks(EndBlock)
  {
  }

  lemma PointNoBreaks(xCode: string, yCode: string, js: JsMath, p: Node)
    requires '\n' !in xCode && '\n' !in yCode && InFixedRange(p)
    ensures NoBreaks(PointLines(xCode, yCode, js, p))
  {
    ToFixedNoBreak(js, p.x, 2);
    ToFixedNoBreak(js, p.y, 2);
  }

  lemma LineBlockNoBreaks(js: JsMath, a: Node, b: Node)
    requires InFixedRange(a) && InFixedRange(b)
    ensures NoBreaks(LineBlock(js, a, b))
  {
    assert NoBreaks(LineHead);
    PointNoBreaks("10", "20", js, a);
    PointNoBreaks("11", "21", js, b);
    NoBreaksAppend(LineHead, PointLines("10", "20", js, a));
    NoBreaksAppend(LineHead + PointLines("10", "20", js, a), PointLines("11", "21", js, b));
  }

  lemma {:induction false} EntityLinesNoBreaks(js: JsMath, nodes: seq<Node>, members: seq<SizedMember>)
    requires Drawable(CalculatedTruss(nodes, members))
    requires forall k :: 0 <= k < |nodes| ==> InFixedRange(nodes[k])
    ensures NoBreaks(EntityLines(js, nodes, members))
  {
    if members != [] {
      var n := |members| - 1;
      assert Drawable(CalculatedTruss(nodes, members[..n]));
      EntityLinesNoBreaks(js, nodes, members[..n]);
      var m := members[n].member;
      LineBlockNoBreaks(js, nodes[m.startNode], nodes[m.endNode]);
      NoBreaksAppend(EntityLines(js, nodes, members[..n]), MemberBlock(js, nodes, members[n]));
    }
  }

  lemma OffsetsNoBreak()
    ensures '\n' !in IntToString(DimOffset) && '\n' !in IntToString(-DimOffset)
  {
    assert IntToString(DimOffset) == "-" + NatToString(500);
    assert IntToString(-DimOffset) == NatToString(500);
  }

  /** A DIMENSION entity whose values hold no line feed holds none at all. */
  lemma DimensionNoBreaks(x10: string, y20: string, x11: string, y21: string,
                          x13: string, x14: string, y24: string, kind: string)
    requires '\n' !in x10 && '\n' !in y20 && '\n' !in x11 && '\n' !in y21
    requires '\n' !in x13 && '\n' !in x14 && '\n' !in y24 && '\n' !in kind
    ensures NoBreaks(DimensionLines(x10, y20, x11, y21, x13, x14, y24, kind))
  {
  }

  lemma HorizontalNoBreaks(js: JsMath, width: real)
    requires '\n' !in js.numberToString(width)
    ensures NoBreaks(HorizontalDimension(js, width))
  {
    OffsetsNoBreak();
    var w := js.numberToString(width);
    DimensionNoBreaks("0", IntToString(DimOffset), w, IntToString(DimOffset), "0", w, "0", "33");
  }

  lemma VerticalNoBreaks(js: JsMath, width: real, height: real)
    requires '\n' !in js.numberToString(height) && '\n' !in js.numberToString(width / 2.0)
    ensures NoBreaks(VerticalDimension(js, width, height))
  {
    OffsetsNoBreak();
    var h, half := js.numberToString(height), js.numberToString(width / 2.0);
    DimensionNoBreaks(IntToString(-DimOffset), "0", IntToString(-DimOffset), h, half, half, h, "34");
  }

  lemma DxfLinesNoBreaks(js: JsMath, result: CalculationResult)
    requires DxfPrintable(js, result)
    ensures NoBreaks(DxfLines(js, result))
  {
    PartsNoBreaks(js, result.truss.nodes, result.truss.members, result.config.width, result.config.height);
  }

  /** The entities and both dimensions hold no line feed when no node is too large and no printed size has one. */
  lemma PartsNoBreaks(js: JsMath, nodes: seq<Node>, members: seq<SizedMember>, width: real, height: real)
    requires Drawable(CalculatedTruss(nodes, members))
    requires forall k :: 0 <= k < |nodes| ==> InFixedRange(nodes[k])
    requires '\n' !in js.numberToString(width) && '\n' !in js.numberToString(height)
    requires '\n' !in js.numberToString(width / 2.0)
    ensures NoBreaks(HeaderBlock + EntityLines(js, nodes, members) + HorizontalDimension(js, width)
                     + VerticalDimension(js, width, height) + EndBlock)
  {
    var e := EntityLines(js, nodes, members);
    var h := HorizontalDimension(js, width);
    var v := VerticalDimension(js, width, height);
    assert NoBreaks(e) by { EntityLinesNoBreaks(js, nodes, members); }
    assert NoBreaks(h) by { HorizontalNoBreaks(js, width); }
    assert NoBreaks(v) by { VerticalNoBreaks(js, width, height); }
    FramedNoBreaks(e, h, v);
  }

  /** Between the fixed header and end, entity and dimension lines without line feeds keep the whole free of them. */
  lemma FramedNoBreaks(e: seq<string>, h: seq<string>, v: seq<string>)
    requires NoBreaks(e) && NoBreaks(h) && NoBreaks(v)
    ensures NoBreaks(HeaderBlock + e + h + v + EndBlock)
  {
    FixedBlocksNoBreaks();
    NoBreaksOfFive(HeaderBlock, e, h, v, EndBlock);
  }

  lemma NoBreaksOfFive(a: seq<string>, b: seq<string>, c: seq<string>, d: seq<string>, e: seq<string>)
    requires NoBreaks(a) && NoBreaks(b) && NoBreaks(c) && NoBreaks(d) && NoBreaks(e)
    ensures NoBreaks(a + b + c + d + e)
  {
    NoBreaksAppend(a, b);
    NoBreaksAppend(a + b, c);
    NoBreaksAppend(a + b + c, d);
    NoBreaksAppend(a + b + c + d, e);
  }

  /**
    Splitting the drawing at line feeds gives back every line written after the
    opening empty one: 77 fixed lines and 13 per member.
  */
  lemma DxfSplitsIntoLines(js: JsMath, result: CalculationResult)
    requires DxfPrintable(js, result)
    ensures |Split(DxfDocument(js, result))| == 77 + 13 * |result.truss.members|
    ensures Split(DxfDocument(js, result)) == DxfLines(js, result)[1..]
  {
    var ls := DxfLines(js, result);
    DxfTrimmed(js, result);
    DxfLinesNoBreaks(js, result);
    SplitJoin(ls[1..]);
  }

  /** A slice that lies inside the second of five concatenated parts. */
  lemma SliceOfSecond<T>(a: seq<T>, b: seq<T>, c: seq<T>, d: seq<T>, e: seq<T>, i: nat, j: nat)
    requires |a| <= i <= j <= |a| + |b|
    ensures |a + b + c + d + e| >= j && (a + b + c + d + e)[i..j] == b[i - |a|..j - |a|]
  {
    var all := a + b + c + d + e;
    assert all == a + (b + (c + d + e));
    assert forall t :: i <= t < j ==> all[t] == b[t - |a|];
  }

  /** Member k's LINE block is lines 27 + 13k to 39 + 13k of the untrimmed text. */
  lemma MemberLinesAt(js: JsMath, result: CalculationResult, k: nat)
    requires Drawable(result.truss) && k < |result.truss.members|
    ensures var ls := DxfLines(js, result);
            |ls| >= 40 + 13 * k
            && ls[27 + 13 * k..40 + 13 * k] == MemberBlock(js, result.truss.nodes, result.truss.members[k])
  {
    var e := EntityLines(js, result.truss.nodes, result.truss.members);
    var h := HorizontalDimension(js, result.config.width);
    var v := VerticalDimension(js, result.config.width, result.config.height);
    assert |HeaderBlock| == 27;
    SliceOfSecond(HeaderBlock, e, h, v, EndBlock, 27 + 13 * k, 40 + 13 * k);
    EntityLinesAt(js, result.truss.nodes, result.truss.members, k);
  }

  /** Dropping the first element shifts every slice by one. */
  lemma SliceOfTail<T>(xs: seq<T>, i: nat, j: nat)
    requires i <= j < |xs|
    ensures xs[1..][i..j] == xs[i + 1..j + 1]
  {
  }

  /** In the split drawing, member k's LINE block is lines 26 + 13k to 38 + 13k. */
  lemma MemberLinesInDocument(js: JsMath, result: CalculationResult, k: nat)
    requires DxfPrintable(js, result) && k < |result.truss.members|
    ensures var lines := Split(DxfDocument(js, result));
            |lines| >= 39 + 13 * k
            && lines[26 + 13 * k..39 + 13 * k] == MemberBlock(js, result.truss.nodes, result.truss.members[k])
  {
    var ls := DxfLines(js, result);
    DxfSplitsIntoLines(js, result);
    MemberLinesAt(js, result, k);
    SliceOfTail(ls, 26 + 13 * k, 39 + 13 * k);
  }

  lemma LineBlockFields(js: JsMath, a: Node, b: Node)
    ensures var l := LineBlock(js, a, b);
            && |l| == 13 && l[1] == "0" && l[2] == "LINE" && l[3] == "8" && l[4] == "MEMBERS"
            && l[5] == "10" && l[6] == ToFixed(js, a.x, 2) && l[7] == "20" && l[8] == ToFixed(js, a.y, 2)
            && l[9] == "11" && l[10] == ToFixed(js, b.x, 2) && l[11] == "21" && l[12] == ToFixed(js, b.y, 2)
  {
  }

  /** The value line at offset j of a LINE block found at offset i of the lines. */
  lemma BlockValue(lines: seq<string>, i: nat, js: JsMath, a: Node, b: Node, j: nat)
    requires i + 13 <= |lines| && lines[i..i + 13] == LineBlock(js, a, b) && j < 13
    ensures lines[i + j] == LineBlock(js, a, b)[j]
  {
    assert lines[i + j] == lines[i..i + 13][j];
  }

  /** The four coordinate values of a LINE block parse back as the rounded coordinates. */
  lemma BlockReadsBack(lines: seq<string>, i: nat, js: JsMath, a: Node, b: Node)
    requires i + 13 <= |lines| && lines[i..i + 13] == LineBlock(js, a, b)
    requires InFixedRange(a) && InFixedRange(b)
    ensures ParseFixed(lines[i + 6], 2) == Some(RoundFixed(a.x, 2))
    ensures ParseFixed(lines[i + 8], 2) == Some(RoundFixed(a.y, 2))
    ensures ParseFixed(lines[i + 10], 2) == Some(RoundFixed(b.x, 2))
    ensures ParseFixed(lines[i + 12], 2) == Some(RoundFixed(b.y, 2))
  {
    LineBlockFields(js, a, b);
    assert ParseFixed(lines[i + 6], 2) == Some(RoundFixed(a.x, 2)) by {
      BlockValue(lines, i, js, a, b, 6);
      ToFixedParses(js, a.x, 2);
    }
    assert ParseFixed(lines[i + 8], 2) == Some(RoundFixed(a.y, 2)) by {
      BlockValue(lines, i, js, a, b, 8);
      ToFixedParses(js, a.y, 2);
    }
    assert ParseFixed(lines[i + 10], 2) == Some(RoundFixed(b.x, 2)) by {
      BlockValue(lines, i, js, a, b, 10);
      ToFixedParses(js, b.x, 2);
    }
    assert ParseFixed(lines[i + 12], 2) == Some(RoundFixed(b.y, 2)) by {
      BlockValue(lines, i, js, a, b, 12);
      ToFixedParses(js, b.y, 2);
    }
  }

  /**
    A reader that splits the drawing into lines finds member k's LINE block
    thirteen lines per member after the header, and its values for group codes
    10/20 and 11/21 parse as the start and end node coordinates rounded to hundredths.
  */
  lemma MemberReadsBack(js: JsMath, result: CalculationResult, k: nat)
    requires DxfPrintable(js, result) && k < |result.truss.members|
    ensures var lines := Split(DxfDocument(js, result));
            var m := result.truss.members[k].member;
            var a, b := result.truss.nodes[m.startNode], result.truss.nodes[m.endNode];
            var i := 26 + 13 * k;
            && |lines| >= i + 13
            && lines[i..i + 13] == LineBlock(js, a, b)
            && ParseFixed(lines[i + 6], 2) == Some(RoundFixed(a.x, 2))
            && ParseFixed(lines[i + 8], 2) == Some(RoundFixed(a.y, 2))
            && ParseFixed(lines[i + 10], 2) == Some(RoundFixed(b.x, 2))
            && ParseFixed(lines[i + 12], 2) == Some(RoundFixed(b.y, 2))
  {
    var lines := Split(DxfDocument(js, result));
    var m := result.truss.members[k].member;
    MemberLinesInDocument(js, result, k);
    BlockReadsBack(lines, 26 + 13 * k, js, result.truss.nodes[m.startNode], result.truss.nodes[m.endNode]);
  }
}
