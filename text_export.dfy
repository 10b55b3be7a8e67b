/**
  The plain-text bill of materials (lib/textExporter.ts): a title block, a
  table head, one fixed-width row per specification item and a closing rule,
  every line ended by a line feed.
*/
module TextExport {
  import opened JsRuntime
  import opened Types

  const Title: string := "СПЕЦИФИКАЦИЯ МЕТАЛЛА"

  /** Widths the table pads its first five cells to. */
  const PosWidth: nat := 4
  const NameWidth: nat := 14
  const ProfileWidth: nat := 12
  const LengthWidth: nat := 9
  const CountWidth: nat := 6

  /** c repeated n times. */
  function Repeat(c: char, n: nat): (s: string)
    ensures |s| == n && forall k :: 0 <= k < n ==> s[k] == c
  {
    if n == 0 then "" else Repeat(c, n - 1) + [c]
  }

  /** The rules above and below the report (40 '=') and under the table head (70 '-'). */
  const DoubleRule: string := Repeat('=', 40)
  const SingleRule: string := Repeat('-', 70)

  /** A table line: five cells padded to their widths and a last one, separated by " | ". */
  function TableLine(pos: string, name: string, profile: string, length: string, count: string, total: string): string
  {
    PadEnd(pos, PosWidth) + " | "
    + PadEnd(name, NameWidth) + " | "
    + PadEnd(profile, ProfileWidth) + " | "
    + PadEnd(length, LengthWidth) + " | "
    + PadEnd(count, CountWidth) + " | "
    + total
  }

  /** The table head: the column titles laid out like the rows. */
  const ColumnHeader: string := TableLine("Поз.", "Наименование", "Профиль", "Длина, мм", "Кол-во", "Общая L, м")

  /** The canopy line: span and rise as JavaScript prints them, and the region. */
  function CanopyLine(js: JsMath, result: CalculationResult): string
  {
    "Навес " + js.numberToString(result.config.width) + "x" + js.numberToString(result.config.height)
    + " мм, Регион: " + RegionName(result.config.region)
  }

  function SnowLine(js: JsMath, result: CalculationResult): string
  {
    "Снеговая нагрузка: " + js.numberToString(result.loads.snowLoad) + " кг/м²"
  }

  /** The seven lines above the table body; the fifth is empty. */
  function HeadLines(js: JsMath, result: CalculationResult): seq<string>
  {
    [Title, DoubleRule, CanopyLine(js, result), SnowLine(js, result), "", ColumnHeader, SingleRule]
  }

  /** The table row of the item at 0-based position index. */
  function Row(js: JsMath, index: nat, item: SpecificationItem): string
  {
    TableLine(NatToString(index + 1), item.name, item.profileName,
              ToFixed(js, item.length, 0), NatToString(item.count), ToFixed(js, item.totalLength, 2))
  }

  function RowLines(js: JsMath, items: seq<SpecificationItem>): seq<string>
  {
    seq(|items|, i requires 0 <= i < |items| => Row(js, i, items[i]))
  }

  /** Every line of the report, in order. */
  function ReportLines(js: JsMath, result: CalculationResult): seq<string>
  {
    HeadLines(js, result) + RowLines(js, result.specification) + [DoubleRule]
  }

  /** The report text: each line followed by a line feed. */
  function Report(js: JsMath, result: CalculationResult): string
  {
    Lines(ReportLines(js, result))
  }

  /** Builds the report by appending to a string, line by line as the exporter does. */
  method ExportToTxt(js: JsMath, result: CalculationResult) returns (txt: string)
    ensures txt == Report(js, result)
  {
    var head := HeadLines(js, result);
    txt := "";
    txt := AddLine(txt, head, 0, Title);
    txt := AddLine(txt, head, 1, DoubleRule);
    var canopy := "Навес " + js.numberToString(result.config.width) + "x" + js.numberToString(result.config.height)
      + " мм, Регион: " + RegionName(result.config.region);
    txt := AddLine(txt, head, 2, canopy);
    var snow := "Снеговая нагрузка: " + js.numberToString(result.loads.snowLoad) + " кг/м²";
    txt := AddLine(txt, head, 3, snow);
    txt := AddLine(txt, head, 4, "");
    txt := AddLine(txt, head, 5, ColumnHeader);
    txt := AddLine(txt, head, 6, SingleRule);
    assert head[..7] == head + RowLines(js, result.specification[..0]);

    var items := result.specification;
    for index := 0 to |items|
      invariant txt == Lines(head + RowLines(js, items[..index]))
    {
      var item := items[index];
      var pos := PadEnd(NatToString(index + 1), PosWidth);
      var name := PadEnd(item.name, NameWidth);
      var profile := PadEnd(item.profileName, ProfileWidth);
      var length := PadEnd(ToFixed(js, item.length, 0), LengthWidth);
      var count := PadEnd(NatToString(item.count), CountWidth);
      var totalL := ToFixed(js, item.totalLength, 2);
      var row := pos + " | " + name + " | " + profile + " | " + length + " | " + count + " | " + totalL;
      RowAppended(head, js, items, index);
      txt := txt + row + "\n";
    }
    assert items[..|items|] == items;
    LinesSnoc(head + RowLines(js, items), DoubleRule);
    txt := txt + DoubleRule + "\n";
  }

  /** txt += line + "\n" for the next line of a fixed list. */
  method AddLine(txt: string, lines: seq<string>, k: nat, line: string) returns (next: string)
    requires k < |lines| && line == lines[k] && txt == Lines(lines[..k])
    ensures next == Lines(lines[..k + 1])
  {
    assert lines[..k + 1] == lines[..k] + [lines[k]];
    LinesSnoc(lines[..k], lines[k]);
    next := txt + line + "\n";
  }

  /** One loop step: appending row index and a line feed extends the lines by that row. */
  lemma RowAppended(head: seq<string>, js: JsMath, items: seq<SpecificationItem>, index: nat)
    requires index < |items|
    ensures Lines(head + RowLines(js, items[..index + 1]))
         == Lines(head + RowLines(js, items[..index])) + Row(js, index, items[index]) + "\n"
  {
    var row := Row(js, index, items[index]);
    assert RowLines(js, items[..index + 1]) == RowLines(js, items[..index]) + [row];
    assert head + RowLines(js, items[..index + 1]) == head + RowLines(js, items[..index]) + [row];
    LinesSnoc(head + RowLines(js, items[..index]), row);
  }

  // ---------------------------------------------------------------------------
  // Reading the report back

  /** No printed value holds a line feed, and every length is in toFixed's fixed-notation range. */
  predicate Printable(js: JsMath, result: CalculationResult)
  {
    && '\n' !in js.numberToString(result.config.width)
    && '\n' !in js.numberToString(result.config.height)
    && '\n' !in js.numberToString(result.loads.snowLoad)
    && forall i :: 0 <= i < |result.specification| ==> ItemPrintable(result.specification[i])
  }

  predicate ItemPrintable(item: SpecificationItem)
  {
    && '\n' !in item.name && '\n' !in item.profileName
    && Abs(item.length) < FixedLimit as real && Abs(item.totalLength) < FixedLimit as real
  }

  lemma PadEndNoBreak(s: string, w: nat)
    requires '\n' !in s
    ensures '\n' !in PadEnd(s, w)
  {
    var r := PadEnd(s, w);
    forall k | 0 <= k < |r|
      ensures r[k] != '\n'
    {
      if k < |s| {
        assert r[k] == r[..|s|][k];
      }
    }
  }

  lemma DigitsNoBreak(s: string)
    requires AllDigits(s) || FixedShape(s)
    ensures '\n' !in s
  {
  }

  lemma TableLineNoBreak(pos: string, name: string, profile: string, length: string, count: string, total: string)
    requires '\n' !in pos && '\n' !in name && '\n' !in profile && '\n' !in length && '\n' !in count && '\n' !in total
    ensures '\n' !in TableLine(pos, name, profile, length, count, total)
  {
    PadEndNoBreak(pos, PosWidth);
    PadEndNoBreak(name, NameWidth);
    PadEndNoBreak(profile, ProfileWidth);
    PadEndNoBreak(length, LengthWidth);
    PadEndNoBreak(count, CountWidth);
  }

  /** A row of a printable item is a single line. */
  lemma RowNoBreak(js: JsMath, index: nat, item: SpecificationItem)
    requires ItemPrintable(item)
    ensures '\n' !in Row(js, index, item)
  {
    ToFixedParses(js, item.length, 0);
    ToFixedParses(js, item.totalLength, 2);
    DigitsNoBreak(NatToString(index + 1));
    DigitsNoBreak(NatToString(item.count));
    DigitsNoBreak(ToFixed(js, item.length, 0));
    DigitsNoBreak(ToFixed(js, item.totalLength, 2));
    TableLineNoBreak(NatToString(index + 1), item.name, item.profileName,
                     ToFixed(js, item.length, 0), NatToString(item.count), ToFixed(js, item.totalLength, 2));
  }

  /**
    Splitting the report at line feeds gives the seven head lines, one row per
    item in order, the closing rule, and the empty string after the last line feed.
  */
  lemma ReportSplitsIntoLines(js: JsMath, result: CalculationResult)
    requires Printable(js, result)
    ensures var lines := Split(Report(js, result));
            var n := |result.specification|;
            && |lines| == n + 9
            && lines[..7] == HeadLines(js, result)
            && (forall i :: 0 <= i < n ==> lines[7 + i] == Row(js, i, result.specification[i]))
            && lines[7 + n] == DoubleRule && lines[8 + n] == ""
  {
    ReportLinesNoBreak(js, result);
    SplitLines(ReportLines(js, result));
  }

  lemma HeadNoBreak(js: JsMath, result: CalculationResult)
    requires Printable(js, result)
    ensures forall k :: 0 <= k < 7 ==> '\n' !in HeadLines(js, result)[k]
  {
    var head := HeadLines(js, result);
    FixedLinesNoBreak();
    CanopyNoBreak(js, result);
    SnowNoBreak(js, result);
    assert head[1] == DoubleRule && head[6] == SingleRule;
  }

  lemma FixedLinesNoBreak()
    ensures '\n' !in Title && '\n' !in ColumnHeader
  {
    TableLineNoBreak("Поз.", "Наименование", "Профиль", "Длина, мм", "Кол-во", "Общая L, м");
  }

  lemma CanopyNoBreak(js: JsMath, result: CalculationResult)
    requires Printable(js, result)
    ensures '\n' !in CanopyLine(js, result)
  {
    assert '\n' !in RegionName(result.config.region);
  }

  lemma SnowNoBreak(js: JsMath, result: CalculationResult)
    requires Printable(js, result)
    ensures '\n' !in SnowLine(js, result)
  {
  }

  lemma ReportLinesNoBreak(js: JsMath, result: CalculationResult)
    requires Printable(js, result)
    ensures forall k :: 0 <= k < |ReportLines(js, result)| ==> '\n' !in ReportLines(js, result)[k]
  {
    var items := result.specification;
    var all := ReportLines(js, result);
    HeadNoBreak(js, result);
    forall k | 0 <= k < |all|
      ensures '\n' !in all[k]
    {
      if k < 7 {
        assert all[k] == HeadLines(js, result)[k];
      } else if k < 7 + |items| {
        assert all[k] == Row(js, k - 7, items[k - 7]);
        RowNoBreak(js, k - 7, items[k - 7]);
      }
    }
  }

  /** The cells of a table line fit their widths. */
  predicate Fits(pos: string, name: string, profile: string, length: string, count: string)
  {
    |pos| <= PosWidth && |name| <= NameWidth && |profile| <= ProfileWidth
    && |length| <= LengthWidth && |count| <= CountWidth
  }

  lemma Halves(x: string, y: string)
    ensures (x + y)[..|x|] == x && (x + y)[|x|..] == y
  {
  }

  /**
    When the cells fit, every table line has its separators at the same
    offsets and each cell, padded, at a fixed slice: the rows line up with the head.
  */
  lemma TableLineColumns(pos: string, name: string, profile: string, length: string, count: string, total: string)
    requires Fits(pos, name, profile, length, count)
    ensures var t := TableLine(pos, name, profile, length, count, total);
            && |t| == 60 + |total|
            && t[..4] == PadEnd(pos, PosWidth) && t[4..7] == " | "
            && t[7..21] == PadEnd(name, NameWidth) && t[21..24] == " | "
            && t[24..36] == PadEnd(profile, ProfileWidth) && t[36..39] == " | "
            && t[39..48] == PadEnd(length, LengthWidth) && t[48..51] == " | "
            && t[51..57] == PadEnd(count, CountWidth) && t[57..60] == " | "
            && t[60..] == total
  {
    var p1 := PadEnd(pos, PosWidth) + " | ";
    var p2 := p1 + PadEnd(name, NameWidth) + " | ";
    var p3 := p2 + PadEnd(profile, ProfileWidth) + " | ";
    var p4 := p3 + PadEnd(length, LengthWidth) + " | ";
    var p5 := p4 + PadEnd(count, CountWidth) + " | ";
    var t := p5 + total;
    assert t == TableLine(pos, name, profile, length, count, total);
    Halves(p5, total);
    assert t[..60] == p5;
    Halves(p4, PadEnd(count, CountWidth) + " | ");
    assert t[..51] == p4;
    Halves(p3, PadEnd(length, LengthWidth) + " | ");
    assert t[..39] == p3;
    Halves(p2, PadEnd(profile, ProfileWidth) + " | ");
    assert t[..24] == p2;
    Halves(p1, PadEnd(name, NameWidth) + " | ");
    assert t[..7] == p1;
  }

  /** The head's titles fit their columns. */
  lemma HeadColumns()
    ensures var h := ColumnHeader;
            |h| == 70 && h[4..7] == h[21..24] == h[36..39] == h[48..51] == h[57..60] == " | "
  {
    assert |"Общая L, м"| == 10;
    TableLineColumns("Поз.", "Наименование", "Профиль", "Длина, мм", "Кол-во", "Общая L, м");
  }

  /** A row whose cells fit has its separators exactly under the head's. */
  lemma RowAlignsWithHead(js: JsMath, index: nat, item: SpecificationItem)
    requires Fits(NatToString(index + 1), item.name, item.profileName, ToFixed(js, item.length, 0), NatToString(item.count))
    ensures var r := Row(js, index, item);
            var h := ColumnHeader;
            && |r| >= 60
            && r[4..7] == h[4..7] && r[21..24] == h[21..24] && r[36..39] == h[36..39]
            && r[48..51] == h[48..51] && r[57..60] == h[57..60]
  {
    HeadColumns();
    TableLineColumns(NatToString(index + 1), item.name, item.profileName,
                     ToFixed(js, item.length, 0), NatToString(item.count), ToFixed(js, item.totalLength, 2));
  }

  /** A string that ends in a character trim keeps. */
  predicate EndsVisible(s: string)
  {
    s != [] && !IsJsWhitespace(s[|s| - 1])
  }

  /** In a row whose cells fit, the position and count cells read back as the 1-based index and the count. */
  lemma RowNumbersReadBack(js: JsMath, index: nat, item: SpecificationItem)
    requires Fits(NatToString(index + 1), item.name, item.profileName, ToFixed(js, item.length, 0), NatToString(item.count))
    ensures var r := Row(js, index, item);
            && |r| >= 60
            && AllDigits(TrimEnd(r[..4])) && DigitsValue(TrimEnd(r[..4])) == index + 1
            && AllDigits(TrimEnd(r[51..57])) && DigitsValue(TrimEnd(r[51..57])) == item.count
  {
    var pos, count := NatToString(index + 1), NatToString(item.count);
    TableLineColumns(pos, item.name, item.profileName, ToFixed(js, item.length, 0), count, ToFixed(js, item.totalLength, 2));
    var r := Row(js, index, item);
    PaddedNumberReadsBack(index + 1, PosWidth, r[..4]);
    PaddedNumberReadsBack(item.count, CountWidth, r[51..57]);
  }

  /** A padded decimal trims back to digits that read as the number. */
  lemma PaddedNumberReadsBack(n: nat, w: nat, cell: string)
    requires cell == PadEnd(NatToString(n), w)
    ensures AllDigits(TrimEnd(cell)) && DigitsValue(TrimEnd(cell)) == n
  {
    TrimEndPadEnd(NatToString(n), w);
    NatToStringRoundTrip(n);
  }

  /** In a row whose cells fit, the name and profile cells trim back to the item's name and profile. */
  lemma RowNamesReadBack(js: JsMath, index: nat, item: SpecificationItem)
    requires Fits(NatToString(index + 1), item.name, item.profileName, ToFixed(js, item.length, 0), NatToString(item.count))
    requires EndsVisible(item.name) && EndsVisible(item.profileName)
    ensures var r := Row(js, index, item);
            && |r| >= 60
            && TrimEnd(r[7..21]) == item.name
            && TrimEnd(r[24..36]) == item.profileName
  {
    TableLineColumns(NatToString(index + 1), item.name, item.profileName,
                     ToFixed(js, item.length, 0), NatToString(item.count), ToFixed(js, item.totalLength, 2));
    TrimEndPadEnd(item.name, NameWidth);
    TrimEndPadEnd(item.profileName, ProfileWidth);
  }

  /**
    In a row whose cells fit, the length cell parses as the length rounded to
    whole millimetres and the last cell as the total length rounded to hundredths.
  */
  lemma RowLengthsReadBack(js: JsMath, index: nat, item: SpecificationItem)
    requires Fits(NatToString(index + 1), item.name, item.profileName, ToFixed(js, item.length, 0), NatToString(item.count))
    requires Abs(item.length) < FixedLimit as real && Abs(item.totalLength) < FixedLimit as real
    ensures var r := Row(js, index, item);
            && |r| >= 60
            && ParseFixed(TrimEnd(r[39..48]), 0) == Some(RoundFixed(item.length, 0))
            && ParseFixed(r[60..], 2) == Some(RoundFixed(item.totalLength, 2))
  {
    var length := ToFixed(js, item.length, 0);
    TableLineColumns(NatToString(index + 1), item.name, item.profileName,
                     length, NatToString(item.count), ToFixed(js, item.totalLength, 2));
    ToFixedParses(js, item.length, 0);
    ToFixedParses(js, item.totalLength, 2);
    TrimEndPadEnd(length, LengthWidth);
  }
}
