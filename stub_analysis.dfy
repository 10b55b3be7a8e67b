/**
  The stand-in analysis the calculator calls (engineering/trussAnalysis.ts).
  It does not solve the truss: every member gets an approximate force from
  its label alone. A top chord is compressed by the base force
  2 * load * span, a bottom chord is stretched by 0.9 of it, and a web
  member carries a third of it divided by the sine of its slope, as
  compression when the member rises in the direction of increasing x.
*/
module StubAnalysis {
  import opened JsRuntime
  import opened Types

  /** What the label of a member says it is. */
  datatype Role = TopChord | BottomChord | Web | Unclassified

  /** The keyword tests in the order the source applies them. */
  function RoleOf(id: string): Role
  {
    var isTopChord := Includes(id, "Верхний");
    var isBottomChord := Includes(id, "Нижний");
    var isWeb := Includes(id, "Раскос") || Includes(id, "Стойка");
    if isTopChord then TopChord
    else if isBottomChord then BottomChord
    else if isWeb then Web
    else Unclassified
  }

  /** Math.max over the x coordinates. */
  function MaxX(nodes: seq<Node>): (r: real)
    requires nodes != []
    ensures forall k :: 0 <= k < |nodes| ==> nodes[k].x <= r
    ensures exists k :: 0 <= k < |nodes| && nodes[k].x == r
  {
    if |nodes| == 1 then nodes[0].x
    else
      var m := MaxX(nodes[..|nodes| - 1]);
      var last := nodes[|nodes| - 1].x;
      if m >= last then m else last
  }

  /** The span in metres, taken as the largest x coordinate in millimetres. */
  function WidthMeters(nodes: seq<Node>): real
    requires nodes != []
  {
    MaxX(nodes) / 1000.0
  }

  function BaseForce(totalLoad: real, widthMeters: real): real
  {
    totalLoad * widthMeters * 2.0
  }

  /** The slope angle of a member, from 0 to pi/2: atan2 of the absolute rise and run. */
  function SlopeAngle(js: JsMath, s: Node, e: Node): real
  {
    js.atan2(Abs(e.y - s.y), Abs(e.x - s.x))
  }

  /** Positive when the member rises with increasing x, whichever end comes first. */
  function Direction(s: Node, e: Node): real
  {
    (e.x - s.x) * (e.y - s.y)
  }

  /** Only a web member looks up its two joints; a chord or an unlabelled member never reads them. */
  predicate JointsFound(nodes: seq<Node>, m: Member)
  {
    RoleOf(m.id) == Web ==> m.startNode < |nodes| && m.endNode < |nodes|
  }

  /** Every joint the analysis reads exists. */
  predicate WebJointsExist(nodes: seq<Node>, members: seq<Member>)
  {
    forall k :: 0 <= k < |members| ==> JointsFound(nodes, members[k])
  }

  /** A geometry whose members all name existing joints meets the analysis's needs. */
  lemma ValidIndicesFindJoints(nodes: seq<Node>, members: seq<Member>)
    requires ValidIndices(nodes, members)
    ensures WebJointsExist(nodes, members)
  {
  }

  /**
    The force the stand-in gives one member. The slope enters only for a web
    member; the other roles ignore the sine and direction they are given.
  */
  function MemberForce(js: JsMath, nodes: seq<Node>, m: Member, baseForce: real): real
    requires JointsFound(nodes, m)
  {
    var role := RoleOf(m.id);
    if role == Web then
      var s, e := nodes[m.startNode], nodes[m.endNode];
      RoleForce(Web, js.sin(SlopeAngle(js, s, e)), Direction(s, e), baseForce)
    else
      RoleForce(role, 0.0, 0.0, baseForce)
  }

  /**
    The force for a role: -base for a top chord, 0.9 base for a bottom chord,
    (base / 3) / sine for a web member, negated when it rises with x, and 0
    otherwise.
  */
  function RoleForce(role: Role, sine: real, direction: real, baseForce: real): real
  {
    match role
    case TopChord => -baseForce
    case BottomChord => baseForce * 0.9
    case Unclassified => 0.0
    case Web =>
      var force := if sine == 0.0 then 0.0 else (baseForce / 3.0) / sine;
      if direction > 0.0 then -force else force
  }

  /** The stand-in analysis: every member, in order, with its estimated force. */
  function AnalyzeTruss(js: JsMath, truss: TrussGeometry, totalLoad: real): (r: seq<LoadedMember>)
    requires truss.nodes != [] && WebJointsExist(truss.nodes, truss.members)
    ensures |r| == |truss.members|
    ensures forall k :: 0 <= k < |r| ==> r[k].member == truss.members[k]
    ensures forall k :: 0 <= k < |r| ==>
              r[k].force == MemberForce(js, truss.nodes, truss.members[k], BaseForce(totalLoad, WidthMeters(truss.nodes)))
  {
    var baseForce := BaseForce(totalLoad, WidthMeters(truss.nodes));
    seq(|truss.members|, k requires 0 <= k < |truss.members| =>
      LoadedMember(truss.members[k], MemberForce(js, truss.nodes, truss.members[k], baseForce)))
  }

  // ---------------------------------------------------------------------------
  // Properties

  /**
    With a non-negative base force every top chord is compressed, every
    bottom chord stretched, and a bottom chord carries 0.9 of a top chord's
    magnitude.
  */
  lemma ChordForces(js: JsMath, nodes: seq<Node>, top: Member, bottom: Member, baseForce: real)
    requires RoleOf(top.id) == TopChord && RoleOf(bottom.id) == BottomChord
    ensures MemberForce(js, nodes, bottom, baseForce) == -0.9 * MemberForce(js, nodes, top, baseForce)
    ensures baseForce >= 0.0 ==> MemberForce(js, nodes, top, baseForce) <= 0.0 <= MemberForce(js, nodes, bottom, baseForce)
  {
  }

  /**
    A web member's force times the sine of its slope gives back a third of
    the base force, negated when the member rises with x.
  */
  lemma WebForceRecoversBase(js: JsMath, nodes: seq<Node>, m: Member, baseForce: real)
    requires m.startNode < |nodes| && m.endNode < |nodes| && RoleOf(m.id) == Web
    requires js.sin(SlopeAngle(js, nodes[m.startNode], nodes[m.endNode])) != 0.0
    ensures var s, e := nodes[m.startNode], nodes[m.endNode];
            MemberForce(js, nodes, m, baseForce) * js.sin(SlopeAngle(js, s, e))
            == if Direction(s, e) > 0.0 then -(baseForce / 3.0) else baseForce / 3.0
  {
    var s, e := nodes[m.startNode], nodes[m.endNode];
    var sine := js.sin(SlopeAngle(js, s, e));
    assert (baseForce / 3.0) / sine * sine == baseForce / 3.0;
  }

  /** With a positive base force and sine, a web member is compressed exactly when it rises with x. */
  lemma WebForceSign(js: JsMath, nodes: seq<Node>, m: Member, baseForce: real)
    requires m.startNode < |nodes| && m.endNode < |nodes| && RoleOf(m.id) == Web
    requires baseForce > 0.0 && js.sin(SlopeAngle(js, nodes[m.startNode], nodes[m.endNode])) > 0.0
    ensures MemberForce(js, nodes, m, baseForce) < 0.0 <==> Direction(nodes[m.startNode], nodes[m.endNode]) > 0.0
  {
    var sine := js.sin(SlopeAngle(js, nodes[m.startNode], nodes[m.endNode]));
    PositiveQuotient(baseForce / 3.0, sine);
  }

  lemma PositiveQuotient(a: real, b: real)
    requires a > 0.0 && b > 0.0
    ensures a / b > 0.0
  {
  }

  /** Every estimated force is proportional to the load: scaling the load scales the force of member k. */
  lemma ForcesProportionalToLoad(js: JsMath, truss: TrussGeometry, totalLoad: real, c: real, k: nat)
    requires truss.nodes != [] && WebJointsExist(truss.nodes, truss.members) && k < |truss.members|
    ensures AnalyzeTruss(js, truss, c * totalLoad)[k].force == c * AnalyzeTruss(js, truss, totalLoad)[k].force
  {
    MemberForceScales(js, truss.nodes, truss.members[k], totalLoad, WidthMeters(truss.nodes), c);
  }

  lemma BaseForceScales(totalLoad: real, w: real, c: real)
    ensures BaseForce(c * totalLoad, w) == c * BaseForce(totalLoad, w)
  {
  }

  lemma MemberForceScales(js: JsMath, nodes: seq<Node>, m: Member, totalLoad: real, w: real, c: real)
    requires JointsFound(nodes, m)
    ensures MemberForce(js, nodes, m, BaseForce(c * totalLoad, w)) == c * MemberForce(js, nodes, m, BaseForce(totalLoad, w))
  {
    var role := RoleOf(m.id);
    BaseForceScales(totalLoad, w, c);
    if role == Web {
      var s, e := nodes[m.startNode], nodes[m.endNode];
      RoleForceScales(Web, js.sin(SlopeAngle(js, s, e)), Direction(s, e), BaseForce(totalLoad, w), BaseForce(c * totalLoad, w), c);
    } else {
      RoleForceScales(role, 0.0, 0.0, BaseForce(totalLoad, w), BaseForce(c * totalLoad, w), c);
    }
  }

  lemma RoleForceScales(role: Role, sine: real, direction: real, base: real, scaled: real, c: real)
    requires scaled == c * base
    ensures RoleForce(role, sine, direction, scaled) == c * RoleForce(role, sine, direction, base)
  {
    if role == Web && sine != 0.0 {
      assert scaled / 3.0 == c * (base / 3.0);
      ScaleQuotient(base / 3.0, sine, c);
    }
  }

  lemma ScaleQuotient(a: real, s: real, c: real)
    requires s != 0.0
    ensures (c * a) / s == c * (a / s)
  {
  }

  /** A label that starts with "Верхний" (upper) names a top chord. */
  lemma TopLabel(rest: string)
    ensures RoleOf("Верхний" + rest) == TopChord
  {
    assert OccursAt("Верхний" + rest, "Верхний", 0);
  }

  /** A label that starts with "Нижний" (lower) and has no capital В names a bottom chord. */
  lemma BottomLabel(rest: string)
    requires 'В' !in rest
    ensures RoleOf("Нижний" + rest) == BottomChord
  {
    IncludesNeedsHead("Нижний" + rest, "Верхний");
    assert OccursAt("Нижний" + rest, "Нижний", 0);
  }

  /** A label that starts with "Раскос" (diagonal) or "Стойка" (post) and has neither capital В nor Н names a web member. */
  lemma WebLabel(word: string, rest: string)
    requires word == "Раскос" || word == "Стойка"
    requires 'В' !in rest && 'Н' !in rest
    ensures RoleOf(word + rest) == Web
  {
    IncludesNeedsHead(word + rest, "Верхний");
    IncludesNeedsHead(word + rest, "Нижний");
    assert OccursAt(word + rest, word, 0);
  }
}
