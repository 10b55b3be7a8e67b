/**
  Static analysis of a plane truss by the method of joints
  (src/engineering/trussAnalysis.ts). Every member force starts unknown (the
  source fills the array with NaN). Passes over the joints repeat: a joint
  that is not yet processed and has exactly two members of unknown force
  gets the two equilibrium equations of its forces, and when the 2x2 system
  is regular both forces become known. The passes stop once every force is
  known or a pass changes nothing. Each support joint carries half of the
  total load as an upward reaction.

  Arithmetic is exact over the reals; Math.atan2, Math.cos and Math.sin come
  from the JsMath parameter.
*/
module JointSolver {
  import opened JsRuntime
  import opened Types

  /** A member force: NaN in the source until a joint determines it. */
  datatype Force = Unknown | Known(value: real)

  /** The analysis input: the host math library, the geometry, the joint loads and the span. */
  datatype Problem = Problem(js: JsMath, nodes: seq<Node>, members: seq<Member>, loads: seq<real>, span: real)
  {
    predicate Valid()
    {
      ValidIndices(nodes, members)
    }
  }

  /** Axis of a projection: the x equation and the y equation of a joint. */
  datatype Axis = X | Y

  // ---------------------------------------------------------------------------
  // The 2x2 linear solver

  /** Determinants smaller than this in magnitude count as singular. */
  const DetTolerance: real := 0.000000001

  function Det(a1: real, b1: real, a2: real, b2: real): real
  {
    a1 * b2 - a2 * b1
  }

  /**
    Cramer's rule for a1*x + b1*y = c1, a2*x + b2*y = c2: no answer when the
    determinant is below the tolerance, otherwise the pair solving both equations.
  */
  function Solve2x2(a1: real, b1: real, c1: real, a2: real, b2: real, c2: real): (r: Option<(real, real)>)
    ensures r.None? <==> Abs(Det(a1, b1, a2, b2)) < DetTolerance
    ensures r.Some? ==> a1 * r.value.0 + b1 * r.value.1 == c1 && a2 * r.value.0 + b2 * r.value.1 == c2
  {
    var det := Det(a1, b1, a2, b2);
    if Abs(det) < DetTolerance then None
    else
      var x := (c1 * b2 - c2 * b1) / det;
      var y := (a1 * c2 - a2 * c1) / det;
      assert a1 * (c1 * b2 - c2 * b1) + b1 * (a1 * c2 - a2 * c1) == c1 * det;
      assert a2 * (c1 * b2 - c2 * b1) + b2 * (a1 * c2 - a2 * c1) == c2 * det;
      CramerRow(a1, b1, c1, c1 * b2 - c2 * b1, a1 * c2 - a2 * c1, det);
      CramerRow(a2, b2, c2, c1 * b2 - c2 * b1, a1 * c2 - a2 * c1, det);
      Some((x, y))
  }

  lemma CramerRow(a: real, b: real, c: real, numX: real, numY: real, det: real)
    requires det != 0.0
    requires a * numX + b * numY == c * det
    ensures a * (numX / det) + b * (numY / det) == c
  {
    assert a * (numX / det) + b * (numY / det) == (a * numX + b * numY) / det;
  }

  /** A regular system has no other solution than the one returned. */
  lemma Solve2x2Unique(a1: real, b1: real, c1: real, a2: real, b2: real, c2: real, u: real, v: real)
    requires Solve2x2(a1, b1, c1, a2, b2, c2).Some?
    requires a1 * u + b1 * v == c1 && a2 * u + b2 * v == c2
    ensures Solve2x2(a1, b1, c1, a2, b2, c2).value == (u, v)
  {
    var (x, y) := Solve2x2(a1, b1, c1, a2, b2, c2).value;
    var det := Det(a1, b1, a2, b2);
    var du, dv := u - x, v - y;
    assert a1 * du + b1 * dv == 0.0;
    assert a2 * du + b2 * dv == 0.0;
    assert det * du == b2 * (a1 * du + b1 * dv) - b1 * (a2 * du + b2 * dv);
    assert det * dv == a1 * (a2 * du + b2 * dv) - a2 * (a1 * du + b1 * dv);
    ZeroFactor(det, du);
    ZeroFactor(det, dv);
  }

  lemma ZeroFactor(a: real, b: real)
    requires a != 0.0 && a * b == 0.0
    ensures b == 0.0
  {
  }

  // ---------------------------------------------------------------------------
  // Loads and supports

  /** loads[i] || 0: a joint without an entry carries no load. */
  function LoadAt(loads: seq<real>, n: nat): (w: real)
    ensures n < |loads| ==> w == loads[n]
    ensures n >= |loads| ==> w == 0.0
  {
    if n < |loads| then loads[n] else 0.0
  }

  /** Each of the two supports takes half of the total load. */
  function SupportReaction(loads: seq<real>): (r: real)
    ensures r + r == Sum(loads)
  {
    Sum(loads) / 2.0
  }

  predicate AtRightSupport(node: Node, span: real)
  {
    node.x == span && node.y == 0.0
  }

  /** nodes.findIndex(n => n.x === span && n.y === 0): the first such joint, -1 when there is none. */
  function FindRightSupport(nodes: seq<Node>, span: real): (k: int)
    ensures -1 <= k < |nodes|
    ensures k >= 0 ==> AtRightSupport(nodes[k], span)
    ensures forall j :: 0 <= j < |nodes| && (k < 0 || j < k) ==> !AtRightSupport(nodes[j], span)
  {
    if nodes == [] then -1
    else
      var k := FindRightSupport(nodes[..|nodes| - 1], span);
      if k >= 0 then k
      else if AtRightSupport(nodes[|nodes| - 1], span) then |nodes| - 1
      else -1
  }

  /** Joint 0 and the right support joint receive the reaction. */
  predicate IsSupport(p: Problem, n: nat)
  {
    n == 0 || n == FindRightSupport(p.nodes, p.span)
  }

  /** The external vertical force at a joint: its load plus, at a support, the reaction. */
  function ExternalY(p: Problem, n: nat): real
  {
    LoadAt(p.loads, n) + (if IsSupport(p, n) then SupportReaction(p.loads) else 0.0)
  }

  // ---------------------------------------------------------------------------
  // The members meeting at a joint

  /**
    nodeMap[n] after the first k members were registered: each member index
    is appended at its start joint, then at its end joint.
  */
  function Incident(members: seq<Member>, n: nat, k: nat): (r: seq<nat>)
    requires k <= |members|
    ensures forall j :: 0 <= j < |r| ==> r[j] < k
  {
    if k == 0 then []
    else
      var m := members[k - 1];
      Incident(members, n, k - 1)
        + (if m.startNode == n then [k - 1] else [])
        + (if m.endNode == n then [k - 1] else [])
  }

  /** The list of a joint holds exactly the members that start or end there (a member with both ends there twice). */
  lemma {:induction false} IncidentMembers(members: seq<Member>, n: nat, k: nat)
    requires k <= |members|
    ensures forall m: nat :: m in Incident(members, n, k) <==> m < k && (members[m].startNode == n || members[m].endNode == n)
    ensures |Incident(members, n, k)| == Touches(members[..k], n)
  {
    if k > 0 {
      IncidentMembers(members, n, k - 1);
      assert members[..k][..k - 1] == members[..k - 1];
    }
  }

  /** How many member ends lie at joint n. */
  function Touches(members: seq<Member>, n: nat): nat
  {
    if members == [] then 0
    else
      var m := members[|members| - 1];
      Touches(members[..|members| - 1], n) + (if m.startNode == n then 1 else 0) + (if m.endNode == n then 1 else 0)
  }

  /** The joint at the far end of a member, seen from joint n. */
  function OtherEnd(m: Member, n: nat): nat
  {
    if m.startNode == n then m.endNode else m.startNode
  }

  /** Math.atan2 of the vector from joint n to the far end of member m. */
  function Direction(p: Problem, m: nat, n: nat): real
    requires p.Valid() && m < |p.members| && n < |p.nodes|
  {
    var other := p.nodes[OtherEnd(p.members[m], n)];
    p.js.atan2(other.y - p.nodes[n].y, other.x - p.nodes[n].x)
  }

  /** The cosine (x) or sine (y) of a member's direction at a joint. */
  function Component(p: Problem, m: nat, n: nat, axis: Axis): real
    requires p.Valid() && m < |p.members| && n < |p.nodes|
  {
    if axis == X then p.js.cos(Direction(p, m, n)) else p.js.sin(Direction(p, m, n))
  }

  predicate Indexes(p: Problem, f: seq<Force>, idxs: seq<nat>)
  {
    |f| == |p.members| && forall j :: 0 <= j < |idxs| ==> idxs[j] < |f|
  }

  /** The isNaN filter: the listed members whose force is still unknown, in order. */
  function UnknownOf(idxs: seq<nat>, f: seq<Force>): (r: seq<nat>)
    requires forall j :: 0 <= j < |idxs| ==> idxs[j] < |f|
    ensures |r| <= |idxs|
    ensures forall j :: 0 <= j < |r| ==> r[j] < |f|
  {
    if idxs == [] then []
    else
      var m := idxs[|idxs| - 1];
      UnknownOf(idxs[..|idxs| - 1], f) + (if f[m].Unknown? then [m] else [])
  }

  /** The filter keeps exactly the listed members whose force is unknown. */
  lemma {:induction false} UnknownOfMembers(idxs: seq<nat>, f: seq<Force>)
    requires forall j :: 0 <= j < |idxs| ==> idxs[j] < |f|
    ensures forall m :: m in UnknownOf(idxs, f) <==> m in idxs && f[m].Unknown?
  {
    if idxs != [] {
      UnknownOfMembers(idxs[..|idxs| - 1], f);
      assert idxs == idxs[..|idxs| - 1] + [idxs[|idxs| - 1]];
    }
  }

  /** The projection of member m's force at joint n, zero while the force is unknown. */
  function Term(p: Problem, f: seq<Force>, n: nat, m: nat, axis: Axis): real
    requires p.Valid() && n < |p.nodes| && |f| == |p.members| && m < |f|
  {
    if f[m].Known? then f[m].value * Component(p, m, n, axis) else 0.0
  }

  /**
    The projections on one axis of the known forces among the listed members
    at joint n, summed in list order.
  */
  function Projection(p: Problem, f: seq<Force>, n: nat, idxs: seq<nat>, axis: Axis): real
    requires p.Valid() && n < |p.nodes| && Indexes(p, f, idxs)
  {
    if idxs == [] then 0.0
    else Projection(p, f, n, idxs[..|idxs| - 1], axis) + Term(p, f, n, idxs[|idxs| - 1], axis)
  }

  predicate AllKnown(idxs: seq<nat>, f: seq<Force>)
    requires forall j :: 0 <= j < |idxs| ==> idxs[j] < |f|
  {
    forall j :: 0 <= j < |idxs| ==> f[idxs[j]].Known?
  }

  /**
    Joint n is in equilibrium: all its member forces are known, they balance
    horizontally, and together with the load and reaction they balance vertically.
  */
  ghost predicate Equilibrium(p: Problem, f: seq<Force>, n: nat)
    requires p.Valid() && n < |p.nodes| && |f| == |p.members|
  {
    var idxs := Incident(p.members, n, |p.members|);
    && AllKnown(idxs, f)
    && Projection(p, f, n, idxs, X) == 0.0
    && ExternalY(p, n) + Projection(p, f, n, idxs, Y) == 0.0
  }

  // ---------------------------------------------------------------------------
  // One joint step

  /**
    What the source computes at an unprocessed joint: when exactly two of its
    members are unknown, the 2x2 system "their projections cancel the known
    ones and the external force" on both axes.
  */
  function JointSolution(p: Problem, f: seq<Force>, n: nat): Option<(real, real)>
    requires p.Valid() && n < |p.nodes| && |f| == |p.members|
  {
    var idxs := Incident(p.members, n, |p.members|);
    var unknown := UnknownOf(idxs, f);
    if |unknown| != 2 then None
    else
      Solve2x2(Component(p, unknown[0], n, X), Component(p, unknown[1], n, X), -Projection(p, f, n, idxs, X),
               Component(p, unknown[0], n, Y), Component(p, unknown[1], n, Y), -(ExternalY(p, n) + Projection(p, f, n, idxs, Y)))
  }

  /** The forces after the step at joint n: on success the two unknowns get the solution. */
  function Step(p: Problem, f: seq<Force>, n: nat): (g: seq<Force>)
    requires p.Valid() && n < |p.nodes| && |f| == |p.members|
    ensures |g| == |f|
  {
    match JointSolution(p, f, n)
    case None => f
    case Some((x, y)) =>
      var unknown := UnknownOf(Incident(p.members, n, |p.members|), f);
      f[unknown[0] := Known(x)][unknown[1] := Known(y)]
  }

  /** g keeps every force f knows. */
  predicate Extends(f: seq<Force>, g: seq<Force>)
  {
    |f| == |g| && forall k :: 0 <= k < |f| && f[k].Known? ==> g[k] == f[k]
  }

  function CountKnown(f: seq<Force>): (c: nat)
    ensures c <= |f|
  {
    if f == [] then 0 else CountKnown(f[..|f| - 1]) + (if f[|f| - 1].Known? then 1 else 0)
  }

  function CountTrue(b: seq<bool>): (c: nat)
    ensures c <= |b|
  {
    if b == [] then 0 else CountTrue(b[..|b| - 1]) + (if b[|b| - 1] then 1 else 0)
  }

  /**
    The state the joint loop keeps: the counter equals the number of known
    forces, two per processed joint, and every processed joint is in equilibrium.
  */
  ghost predicate Consistent(p: Problem, f: seq<Force>, processed: seq<bool>, count: nat)
  {
    && p.Valid() && |f| == |p.members| && |processed| == |p.nodes|
    && count == CountKnown(f) == 2 * CountTrue(processed)
    && forall n :: 0 <= n < |p.nodes| && processed[n] ==> Equilibrium(p, f, n)
  }

  /** No unprocessed joint can be solved any more. */
  ghost predicate Stuck(p: Problem, f: seq<Force>, processed: seq<bool>)
    requires p.Valid() && |f| == |p.members| && |processed| == |p.nodes|
  {
    forall n :: 0 <= n < |p.nodes| && !processed[n] ==> JointSolution(p, f, n).None?
  }

  // ---------------------------------------------------------------------------
  // Lemmas about one step

  /** Both unknowns at a solved joint are distinct: the same member twice gives a zero determinant. */
  lemma SolvedUnknownsDistinct(p: Problem, f: seq<Force>, n: nat)
    requires p.Valid() && n < |p.nodes| && |f| == |p.members|
    requires JointSolution(p, f, n).Some?
    ensures var unknown := UnknownOf(Incident(p.members, n, |p.members|), f);
            |unknown| == 2 && unknown[0] != unknown[1]
  {
  }

  /** The projections over a list split into those known in f and those f leaves unknown. */
  lemma {:induction false} ProjectionSplit(p: Problem, f: seq<Force>, g: seq<Force>, n: nat, idxs: seq<nat>, axis: Axis)
    requires p.Valid() && n < |p.nodes| && Indexes(p, f, idxs) && Extends(f, g)
    ensures Projection(p, g, n, idxs, axis)
            == Projection(p, f, n, idxs, axis) + Projection(p, g, n, UnknownOf(idxs, f), axis)
  {
    if idxs != [] {
      var front, m := idxs[..|idxs| - 1], idxs[|idxs| - 1];
      ProjectionSplit(p, f, g, n, front, axis);
      var u := UnknownOf(front, f);
      if f[m].Unknown? {
        assert UnknownOf(idxs, f) == u + [m];
        assert Term(p, f, n, m, axis) == 0.0;
        ProjectionSnoc(p, g, n, u, m, axis);
      } else {
        assert UnknownOf(idxs, f) == u;
        TermKept(p, f, g, n, m, axis);
      }
    }
  }

  lemma TermKept(p: Problem, f: seq<Force>, g: seq<Force>, n: nat, m: nat, axis: Axis)
    requires p.Valid() && n < |p.nodes| && |f| == |p.members| && m < |f| && Extends(f, g) && f[m].Known?
    ensures Term(p, g, n, m, axis) == Term(p, f, n, m, axis)
  {
  }

  lemma ProjectionSnoc(p: Problem, g: seq<Force>, n: nat, u: seq<nat>, m: nat, axis: Axis)
    requires p.Valid() && n < |p.nodes| && Indexes(p, g, u) && m < |g|
    ensures Projection(p, g, n, u + [m], axis) == Projection(p, g, n, u, axis) + Term(p, g, n, m, axis)
  {
    assert (u + [m])[..|u|] == u;
  }

  /** Forces that f already knows keep their projections in any extension. */
  lemma ProjectionKept(p: Problem, f: seq<Force>, g: seq<Force>, n: nat, idxs: seq<nat>, axis: Axis)
    requires p.Valid() && n < |p.nodes| && Indexes(p, f, idxs) && Extends(f, g) && AllKnown(idxs, f)
    ensures Projection(p, g, n, idxs, axis) == Projection(p, f, n, idxs, axis)
  {
    ProjectionSplit(p, f, g, n, idxs, axis);
    UnknownOfMembers(idxs, f);
  }

  /** The projections of two known members. */
  lemma ProjectionPair(p: Problem, g: seq<Force>, n: nat, u: seq<nat>, x: real, y: real, axis: Axis, qu: real)
    requires p.Valid() && n < |p.nodes| && |g| == |p.members| && |u| == 2 && u[0] < |g| && u[1] < |g|
    requires g[u[0]] == Known(x) && g[u[1]] == Known(y)
    requires qu == Projection(p, g, n, u, axis)
    ensures qu == Component(p, u[0], n, axis) * x + Component(p, u[1], n, axis) * y
  {
    var a, b := u[0], u[1];
    assert u == [a, b];
    assert [a, b][..1] == [a];
    assert [a][..0] == [];
    assert Projection(p, g, n, [a], axis) == Term(p, g, n, a, axis);
    assert Projection(p, g, n, [a, b], axis) == Term(p, g, n, a, axis) + Term(p, g, n, b, axis);
  }

  lemma StepExtends(p: Problem, f: seq<Force>, n: nat)
    requires p.Valid() && n < |p.nodes| && |f| == |p.members|
    ensures Extends(f, Step(p, f, n))
  {
    if JointSolution(p, f, n).Some? {
      var unknown := UnknownOf(Incident(p.members, n, |p.members|), f);
      UnknownOfMembers(Incident(p.members, n, |p.members|), f);
      assert unknown[0] in unknown && unknown[1] in unknown;
    }
  }

  /** After a successful step every member at the joint has a known force. */
  lemma StepKnowsJoint(p: Problem, f: seq<Force>, n: nat)
    requires p.Valid() && n < |p.nodes| && |f| == |p.members|
    requires JointSolution(p, f, n).Some?
    ensures AllKnown(Incident(p.members, n, |p.members|), Step(p, f, n))
  {
    var idxs := Incident(p.members, n, |p.members|);
    var unknown := UnknownOf(idxs, f);
    var g := Step(p, f, n);
    SolvedUnknownsDistinct(p, f, n);
    UnknownOfMembers(idxs, f);
    forall j | 0 <= j < |idxs|
      ensures g[idxs[j]].Known?
    {
      if f[idxs[j]].Unknown? {
        assert idxs[j] in unknown;
      }
    }
  }

  /**
    Giving the two unknown members at a joint the forces x and y adds their
    projections to the joint's projection qf, which becomes qg, and changes
    nothing else in it.
  */
  lemma SolvedProjection(p: Problem, f: seq<Force>, n: nat, idxs: seq<nat>, u: seq<nat>, x: real, y: real,
                         g: seq<Force>, axis: Axis, qf: real, qg: real)
    requires p.Valid() && n < |p.nodes| && Indexes(p, f, idxs)
    requires u == UnknownOf(idxs, f) && |u| == 2 && u[0] != u[1]
    requires g == f[u[0] := Known(x)][u[1] := Known(y)]
    requires qf == Projection(p, f, n, idxs, axis)
    requires qg == Projection(p, g, n, idxs, axis)
    ensures qg == qf + (Component(p, u[0], n, axis) * x + Component(p, u[1], n, axis) * y)
  {
    UnknownOfMembers(idxs, f);
    assert u[0] in u && u[1] in u;
    assert Extends(f, g);
    assert g[u[0]] == Known(x) && g[u[1]] == Known(y);
    var qu := Projection(p, g, n, u, axis);
    SplitAtUnknowns(p, f, g, n, idxs, u, axis, qf, qg, qu);
    ProjectionPair(p, g, n, u, x, y, axis, qu);
  }

  /** The projection qg after the step is the known part qf plus the part qu of the former unknowns. */
  lemma SplitAtUnknowns(p: Problem, f: seq<Force>, g: seq<Force>, n: nat, idxs: seq<nat>, u: seq<nat>, axis: Axis,
                        qf: real, qg: real, qu: real)
    requires p.Valid() && n < |p.nodes| && Indexes(p, f, idxs) && Extends(f, g)
    requires u == UnknownOf(idxs, f)
    requires qf == Projection(p, f, n, idxs, axis) && qg == Projection(p, g, n, idxs, axis)
    requires qu == Projection(p, g, n, u, axis)
    ensures qg == qf + qu
  {
    ProjectionSplit(p, f, g, n, idxs, axis);
  }

  /** A successful step leaves its joint in equilibrium. */
  lemma StepBalancesJoint(p: Problem, f: seq<Force>, n: nat)
    requires p.Valid() && n < |p.nodes| && |f| == |p.members|
    requires JointSolution(p, f, n).Some?
    ensures Equilibrium(p, Step(p, f, n), n)
  {
    var idxs := Incident(p.members, n, |p.members|);
    var u := UnknownOf(idxs, f);
    var x, y := JointSolution(p, f, n).value.0, JointSolution(p, f, n).value.1;
    SolvedUnknownsDistinct(p, f, n);
    var g := Step(p, f, n);
    assert g == f[u[0] := Known(x)][u[1] := Known(y)];
    StepKnowsJoint(p, f, n);
    var e := ExternalY(p, n);
    var qfx, qgx := Projection(p, f, n, idxs, X), Projection(p, g, n, idxs, X);
    var qfy, qgy := Projection(p, f, n, idxs, Y), Projection(p, g, n, idxs, Y);
    var a1, b1 := Component(p, u[0], n, X), Component(p, u[1], n, X);
    var a2, b2 := Component(p, u[0], n, Y), Component(p, u[1], n, Y);
    SolutionEquations(p, f, n, idxs, u, x, y, qfx, qfy, e, a1, b1, a2, b2);
    SolvedProjection(p, f, n, idxs, u, x, y, g, X, qfx, qgx);
    SolvedProjection(p, f, n, idxs, u, x, y, g, Y, qfy, qgy);
  }

  /**
    The solution (x, y) at a joint solves both equilibrium equations for its
    two unknowns u, where qx and qy are the projections of the known forces
    and e is the external vertical force.
  */
  lemma SolutionEquations(p: Problem, f: seq<Force>, n: nat, idxs: seq<nat>, u: seq<nat>, x: real, y: real,
                          qx: real, qy: real, e: real, a1: real, b1: real, a2: real, b2: real)
    requires p.Valid() && n < |p.nodes| && |f| == |p.members|
    requires idxs == Incident(p.members, n, |p.members|) && u == UnknownOf(idxs, f) && |u| == 2
    requires JointSolution(p, f, n) == Some((x, y))
    requires qx == Projection(p, f, n, idxs, X) && qy == Projection(p, f, n, idxs, Y) && e == ExternalY(p, n)
    requires a1 == Component(p, u[0], n, X) && b1 == Component(p, u[1], n, X)
    requires a2 == Component(p, u[0], n, Y) && b2 == Component(p, u[1], n, Y)
    ensures a1 * x + b1 * y == -qx
    ensures a2 * x + b2 * y == -(e + qy)
  {
    assert Solve2x2(a1, b1, -qx, a2, b2, -(e + qy)) == Some((x, y));
    SolvedSystem(a1, b1, -qx, a2, b2, -(e + qy), x, y);
  }

  /** The pair Solve2x2 returns satisfies both equations. */
  lemma SolvedSystem(a1: real, b1: real, c1: real, a2: real, b2: real, c2: real, x: real, y: real)
    requires Solve2x2(a1, b1, c1, a2, b2, c2) == Some((x, y))
    ensures a1 * x + b1 * y == c1 && a2 * x + b2 * y == c2
  {
  }

  /** Equilibrium of a joint survives any extension of the forces. */
  lemma EquilibriumKept(p: Problem, f: seq<Force>, g: seq<Force>, n: nat)
    requires p.Valid() && n < |p.nodes| && |f| == |p.members| && Extends(f, g)
    requires Equilibrium(p, f, n)
    ensures Equilibrium(p, g, n)
  {
    var idxs := Incident(p.members, n, |p.members|);
    ProjectionKept(p, f, g, n, idxs, X);
    ProjectionKept(p, f, g, n, idxs, Y);
  }

  lemma {:induction false} CountKnownSet(f: seq<Force>, k: nat, v: real)
    requires k < |f| && f[k].Unknown?
    ensures CountKnown(f[k := Known(v)]) == CountKnown(f) + 1
  {
    var g := f[k := Known(v)];
    if k < |f| - 1 {
      assert g[..|g| - 1] == f[..|f| - 1][k := Known(v)];
      CountKnownSet(f[..|f| - 1], k, v);
    } else {
      assert g[..|g| - 1] == f[..|f| - 1];
    }
  }

  lemma {:induction false} CountTrueSet(b: seq<bool>, k: nat)
    requires k < |b| && !b[k]
    ensures CountTrue(b[k := true]) == CountTrue(b) + 1
  {
    var c := b[k := true];
    if k < |b| - 1 {
      assert c[..|c| - 1] == b[..|b| - 1][k := true];
      CountTrueSet(b[..|b| - 1], k);
    } else {
      assert c[..|c| - 1] == b[..|b| - 1];
    }
  }

  /** A successful step determines exactly two more forces. */
  lemma StepCounts(p: Problem, f: seq<Force>, n: nat)
    requires p.Valid() && n < |p.nodes| && |f| == |p.members|
    requires JointSolution(p, f, n).Some?
    ensures CountKnown(Step(p, f, n)) == CountKnown(f) + 2
  {
    var unknown := UnknownOf(Incident(p.members, n, |p.members|), f);
    var (x, y) := JointSolution(p, f, n).value;
    SolvedUnknownsDistinct(p, f, n);
    UnknownOfMembers(Incident(p.members, n, |p.members|), f);
    assert unknown[0] in unknown && unknown[1] in unknown;
    CountKnownSet(f, unknown[0], x);
    CountKnownSet(f[unknown[0] := Known(x)], unknown[1], y);
  }

  /** Solving a further joint keeps the loop state consistent, with the counter up by two. */
  lemma StepKeepsConsistent(p: Problem, f: seq<Force>, processed: seq<bool>, count: nat, i: nat)
    requires Consistent(p, f, processed, count) && i < |p.nodes| && !processed[i]
    requires JointSolution(p, f, i).Some?
    ensures Consistent(p, Step(p, f, i), processed[i := true], count + 2)
  {
    var g := Step(p, f, i);
    StepCounts(p, f, i);
    StepBalancesJoint(p, f, i);
    StepExtends(p, f, i);
    CountTrueSet(processed, i);
    forall n | 0 <= n < |p.nodes| && processed[i := true][n]
      ensures Equilibrium(p, g, n)
    {
      if n != i {
        EquilibriumKept(p, f, g, n);
      }
    }
  }

  lemma {:induction false} NoneKnown(f: seq<Force>)
    requires forall k :: 0 <= k < |f| ==> f[k].Unknown?
    ensures CountKnown(f) == 0
  {
    if f != [] {
      NoneKnown(f[..|f| - 1]);
    }
  }

  lemma {:induction false} NoneTrue(b: seq<bool>)
    requires forall k :: 0 <= k < |b| ==> !b[k]
    ensures CountTrue(b) == 0
  {
    if b != [] {
      NoneTrue(b[..|b| - 1]);
    }
  }

  /** When the count reaches the number of members every force is known. */
  lemma {:induction false} AllForcesKnown(f: seq<Force>)
    requires CountKnown(f) == |f|
    ensures forall k :: 0 <= k < |f| ==> f[k].Known?
  {
    if f != [] {
      AllForcesKnown(f[..|f| - 1]);
      forall k | 0 <= k < |f|
        ensures f[k].Known?
      {
        if k < |f| - 1 {
          assert f[k] == f[..|f| - 1][k];
        }
      }
    }
  }

  // ---------------------------------------------------------------------------
  // The result

  /** forces[i] || 0: a force no joint determined is reported as zero. */
  function Report(members: seq<Member>, f: seq<Force>): (r: seq<LoadedMember>)
    requires |f| == |members|
    ensures |r| == |members|
    ensures forall k :: 0 <= k < |r| ==> r[k].member == members[k]
    ensures forall k :: 0 <= k < |r| ==> r[k].force == (if f[k].Known? then f[k].value else 0.0)
  {
    seq(|members|, k requires 0 <= k < |members| => LoadedMember(members[k], if f[k].Known? then f[k].value else 0.0))
  }

  // ---------------------------------------------------------------------------
  // The procedure

  /** nodeMap: for every joint, the indices of the members meeting there. */
  method BuildNodeMap(p: Problem) returns (nodeMap: array<seq<nat>>)
    requires p.Valid()
    ensures fresh(nodeMap) && nodeMap.Length == |p.nodes|
    ensures forall n :: 0 <= n < |p.nodes| ==> nodeMap[n] == Incident(p.members, n, |p.members|)
  {
    nodeMap := new seq<nat>[|p.nodes|](_ => []);
    for k := 0 to |p.members|
      invariant forall n :: 0 <= n < nodeMap.Length ==> nodeMap[n] == Incident(p.members, n, k)
    {
      var member := p.members[k];
      nodeMap[member.startNode] := nodeMap[member.startNode] + [k];
      nodeMap[member.endNode] := nodeMap[member.endNode] + [k];
    }
  }

  /**
    The sums at joint i before solving: sumFy starts from the load, plus the
    reaction at a support, and both sums collect the projections of the known forces.
  */
  method SumKnownForces(p: Problem, forces: array<Force>, i: nat, incident: seq<nat>, reactionY: real)
    returns (sumFx: real, sumFy: real)
    requires p.Valid() && i < |p.nodes| && forces.Length == |p.members|
    requires incident == Incident(p.members, i, |p.members|)
    requires reactionY == SupportReaction(p.loads)
    ensures sumFx == Projection(p, forces[..], i, incident, X)
    ensures sumFy == ExternalY(p, i) + Projection(p, forces[..], i, incident, Y)
  {
    sumFx := 0.0;
    sumFy := LoadAt(p.loads, i);
    if i == 0 || i == FindRightSupport(p.nodes, p.span) {
      sumFy := sumFy + reactionY;
    }
    assert sumFy == ExternalY(p, i);
    ghost var f := forces[..];
    var j := 0;
    while j < |incident|
      invariant 0 <= j <= |incident|
      invariant sumFx == Projection(p, f, i, incident[..j], X)
      invariant sumFy == ExternalY(p, i) + Projection(p, f, i, incident[..j], Y)
    {
      var m := incident[j];
      assert incident[..j + 1] == incident[..j] + [m];
      ProjectionSnoc(p, f, i, incident[..j], m, X);
      ProjectionSnoc(p, f, i, incident[..j], m, Y);
      sumFx, sumFy := AddKnownForce(p, forces, i, m, sumFx, sumFy);
      j := j + 1;
    }
    assert incident[..j] == incident;
  }

  /** One step of the forEach over a joint's members: add a known force's projections to the sums. */
  method AddKnownForce(p: Problem, forces: array<Force>, i: nat, m: nat, sumFx: real, sumFy: real)
    returns (fx: real, fy: real)
    requires p.Valid() && i < |p.nodes| && forces.Length == |p.members| && m < forces.Length
    ensures fx == sumFx + Term(p, forces[..], i, m, X)
    ensures fy == sumFy + Term(p, forces[..], i, m, Y)
  {
    fx, fy := sumFx, sumFy;
    if forces[m].Known? {
      var angle := Direction(p, m, i);
      fx := fx + forces[m].value * p.js.cos(angle);
      fy := fy + forces[m].value * p.js.sin(angle);
    }
  }

  /** The body of the joint loop for one unprocessed joint i; true when it determined two forces. */
  method SolveJoint(p: Problem, forces: array<Force>, i: nat, incident: seq<nat>, reactionY: real) returns (solved: bool)
    requires p.Valid() && i < |p.nodes| && forces.Length == |p.members|
    requires incident == Incident(p.members, i, |p.members|)
    requires reactionY == SupportReaction(p.loads)
    modifies forces
    ensures solved <==> JointSolution(p, old(forces[..]), i).Some?
    ensures forces[..] == Step(p, old(forces[..]), i)
  {
    var unknown := UnknownOf(incident, forces[..]);
    solved := false;
    if |unknown| == 2 {
      var sumFx, sumFy := SumKnownForces(p, forces, i, incident, reactionY);
      var m1, m2 := unknown[0], unknown[1];
      var angle1, angle2 := Direction(p, m1, i), Direction(p, m2, i);
      var a1, b1, c1 := p.js.cos(angle1), p.js.cos(angle2), -sumFx;
      var a2, b2, c2 := p.js.sin(angle1), p.js.sin(angle2), -sumFy;
      var solution := Solve2x2(a1, b1, c1, a2, b2, c2);
      if solution.Some? {
        forces[m1] := Known(solution.value.0);
        forces[m2] := Known(solution.value.1);
        solved := true;
      }
    }
  }

  /**
    One pass of the for loop over the joints. Without progress nothing
    changed and no unprocessed joint is solvable.
  */
  /**
    Where a sweep stands before joint i: the joint-loop invariant holds;
    without progress nothing has changed since the start of the sweep and
    none of the joints passed was solvable; with progress the count grew.
    Every force known and every flag set at the start is still there.
  */
  ghost predicate Sweep(p: Problem, start: seq<Force>, flags: seq<bool>, count: nat,
                        f: seq<Force>, processed: seq<bool>, progress: bool, known: nat, i: nat)
  {
    && Consistent(p, f, processed, known)
    && i <= |p.nodes| && |flags| == |processed|
    && (progress ==> known > count)
    && (!progress ==> known == count && f == start && processed == flags
                      && forall n :: 0 <= n < i && !flags[n] ==> JointSolution(p, start, n).None?)
    && Extends(start, f)
    && forall n :: 0 <= n < |flags| && flags[n] ==> processed[n]
  }

  /** One iteration of the joint loop: skip a processed joint, otherwise try to solve it. */
  method SweepJoint(p: Problem, forces: array<Force>, processedNodes: array<bool>, nodeMap: array<seq<nat>>,
                    reactionY: real, i: nat, ghost start: seq<Force>, ghost flags: seq<bool>, count: nat,
                    progressBefore: bool, knownBefore: nat)
    returns (progressMade: bool, newCount: nat)
    requires forces.Length == |p.members| && processedNodes.Length == |p.nodes| && nodeMap.Length == |p.nodes|
    requires i < |p.nodes|
    requires forall n :: 0 <= n < |p.nodes| ==> nodeMap[n] == Incident(p.members, n, |p.members|)
    requires reactionY == SupportReaction(p.loads)
    requires Sweep(p, start, flags, count, forces[..], processedNodes[..], progressBefore, knownBefore, i)
    modifies forces, processedNodes
    ensures Sweep(p, start, flags, count, forces[..], processedNodes[..], progressMade, newCount, i + 1)
  {
    progressMade, newCount := progressBefore, knownBefore;
    ghost var f, processed := forces[..], processedNodes[..];
    if processedNodes[i] {
      SweepPasses(p, start, flags, count, f, processed, progressMade, newCount, i);
      return;
    }
    var solved := SolveJoint(p, forces, i, nodeMap[i], reactionY);
    if solved {
      processedNodes[i] := true;
      progressMade := true;
      newCount := newCount + 2;
      SweepSolves(p, start, flags, count, f, processed, progressBefore, knownBefore, i);
      assert processedNodes[..] == processed[i := true];
    } else {
      assert forces[..] == f;
      SweepPasses(p, start, flags, count, f, processed, progressMade, newCount, i);
    }
  }

  /** A joint that is already processed, or cannot be solved, leaves the sweep as it was. */
  lemma SweepPasses(p: Problem, start: seq<Force>, flags: seq<bool>, count: nat,
                    f: seq<Force>, processed: seq<bool>, progress: bool, known: nat, i: nat)
    requires Sweep(p, start, flags, count, f, processed, progress, known, i) && i < |p.nodes|
    requires processed[i] || JointSolution(p, f, i).None?
    ensures Sweep(p, start, flags, count, f, processed, progress, known, i + 1)
  {
  }

  /** Solving joint i records progress, two more known forces and the joint as processed. */
  lemma SweepSolves(p: Problem, start: seq<Force>, flags: seq<bool>, count: nat,
                    f: seq<Force>, processed: seq<bool>, progress: bool, known: nat, i: nat)
    requires Sweep(p, start, flags, count, f, processed, progress, known, i) && i < |p.nodes|
    requires !processed[i] && JointSolution(p, f, i).Some?
    ensures Sweep(p, start, flags, count, Step(p, f, i), processed[i := true], true, known + 2, i + 1)
  {
    StepKeepsConsistent(p, f, processed, known, i);
    StepExtends(p, f, i);
  }

  method SolvePass(p: Problem, forces: array<Force>, processedNodes: array<bool>, nodeMap: array<seq<nat>>,
                   reactionY: real, count: nat)
    returns (progressMade: bool, newCount: nat)
    requires forces.Length == |p.members| && processedNodes.Length == |p.nodes| && nodeMap.Length == |p.nodes|
    requires Consistent(p, forces[..], processedNodes[..], count)
    requires forall n :: 0 <= n < |p.nodes| ==> nodeMap[n] == Incident(p.members, n, |p.members|)
    requires reactionY == SupportReaction(p.loads)
    modifies forces, processedNodes
    ensures Consistent(p, forces[..], processedNodes[..], newCount)
    ensures progressMade ==> newCount > count
    ensures !progressMade ==> newCount == count && Stuck(p, forces[..], processedNodes[..])
    ensures Extends(old(forces[..]), forces[..])
    ensures forall n :: 0 <= n < |p.nodes| && old(processedNodes[n]) ==> processedNodes[n]
  {
    progressMade := false;
    newCount := count;
    ghost var start, flags := forces[..], processedNodes[..];
    for i := 0 to |p.nodes|
      invariant Sweep(p, start, flags, count, forces[..], processedNodes[..], progressMade, newCount, i)
    {
      progressMade, newCount := SweepJoint(p, forces, processedNodes, nodeMap, reactionY, i, start, flags, count,
                                           progressMade, newCount);
    }
  }

  /**
    The analysis. The ghost results expose the final force array and the
    processed flags: every processed joint is in equilibrium, two forces are
    known per processed joint, and unless every force is known no remaining
    joint can be solved.
  */
  method AnalyzeTruss(p: Problem) returns (result: seq<LoadedMember>, ghost f: seq<Force>, ghost processed: seq<bool>)
    requires p.Valid()
    ensures |f| == |p.members| && |processed| == |p.nodes|
    ensures result == Report(p.members, f)
    ensures forall n :: 0 <= n < |p.nodes| && processed[n] ==> Equilibrium(p, f, n)
    ensures CountKnown(f) == 2 * CountTrue(processed)
    ensures CountKnown(f) == |p.members| || Stuck(p, f, processed)
  {
    var forces := new Force[|p.members|](_ => Unknown);
    var totalLoad := Sum(p.loads);
    var reactionY := totalLoad / 2.0;
    var nodeMap := BuildNodeMap(p);
    var knownForcesCount := 0;
    var processedNodes := new bool[|p.nodes|](_ => false);
    NoneKnown(forces[..]);
    NoneTrue(processedNodes[..]);

    while knownForcesCount < |p.members|
      invariant Consistent(p, forces[..], processedNodes[..], knownForcesCount)
      invariant forall n :: 0 <= n < |p.nodes| ==> nodeMap[n] == Incident(p.members, n, |p.members|)
      decreases |p.members| - knownForcesCount
    {
      var progressMade;
      progressMade, knownForcesCount := SolvePass(p, forces, processedNodes, nodeMap, reactionY, knownForcesCount);
      if !progressMade {
        break;
      }
    }
    f := forces[..];
    processed := processedNodes[..];
    result := Report(p.members, forces[..]);
  }
}
