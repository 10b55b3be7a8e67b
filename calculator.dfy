/**
  The calculation pipeline (engineering/calculator.ts): design loads, the
  W-truss geometry, the stand-in force estimate, a profile for every member,
  and the bill of materials grouped by member kind and profile.
*/
module Calculator {
  import opened JsRuntime
  import opened Types
  import Loads
  import Materials
  import StubAnalysis
  import JointSolver

  // ---------------------------------------------------------------------------
  // Load on one truss

  /** Gravitational acceleration, m/s², turning kgf into newtons. */
  const Gravity: real := 9.81

  /** The surface load on the strip one truss carries, kg/m: (snow + wind) times the spacing in metres. */
  function LineLoad(snowLoad: real, windLoad: real, spacing: real): real
  {
    (snowLoad + windLoad) * (spacing / 1000.0)
  }

  /** The same line load in kN/m. */
  function LineLoadKN(snowLoad: real, windLoad: real, spacing: real): (q: real)
    ensures snowLoad + windLoad >= 0.0 && spacing >= 0.0 ==> q >= 0.0
  {
    var q := LineLoad(snowLoad, windLoad, spacing) * Gravity / 1000.0;
    assert snowLoad + windLoad >= 0.0 && spacing >= 0.0 ==> LineLoad(snowLoad, windLoad, spacing) >= 0.0;
    q
  }

  /** Wider spacing never lowers the load on a truss. */
  lemma LineLoadGrowsWithSpacing(snowLoad: real, windLoad: real, s1: real, s2: real)
    requires snowLoad + windLoad >= 0.0 && s1 <= s2
    ensures LineLoadKN(snowLoad, windLoad, s1) <= LineLoadKN(snowLoad, windLoad, s2)
  {
    MultiplyMonotone(s1 / 1000.0, s2 / 1000.0, snowLoad + windLoad);
  }

  // ---------------------------------------------------------------------------
  // Section requirements

  /** Design strength of the steel, kN/cm², and its working factor. */
  const Strength: real := 21.0
  const WorkingFactor: real := 0.9
  /** The assumed slenderness. */
  const Flexibility: real := 100.0
  /** Modulus of elasticity, kN/cm². */
  const Elasticity: real := 21000.0

  /** The cross-section area, cm², that carries the axial force at the design strength. */
  function RequiredArea(force: real): (a: real)
    ensures a >= 0.0
    ensures a * (Strength * WorkingFactor) == Abs(force)
  {
    Abs(force) / (Strength * WorkingFactor)
  }

  /** A product kept as one term, so that its sign can be stated once (PI ** 2 is Times(PI, PI)). */
  function Times(a: real, b: real): real
  {
    a * b
  }

  lemma TimesPositive(a: real, b: real)
    requires a > 0.0 && b > 0.0
    ensures Times(a, b) > 0.0
  {
  }

  /** pi² E, the stiffness factor of Euler's buckling formula. */
  function Stiffness(js: JsMath): real
  {
    Times(js.pi, js.pi) * Elasticity
  }

  lemma StiffnessPositive(js: JsMath)
    requires js.pi != 0.0
    ensures Stiffness(js) > 0.0
  {
    if js.pi > 0.0 {
      TimesPositive(js.pi, js.pi);
    } else {
      TimesPositive(-js.pi, -js.pi);
      assert Times(-js.pi, -js.pi) == Times(js.pi, js.pi);
    }
  }

  /**
    The second moment of area, cm⁴, that a compressed member of the given
    length (mm) needs; zero for a member in tension or unloaded.
  */
  function RequiredInertia(js: JsMath, requiredArea: real, length: real, force: real): (i: real)
    requires js.pi != 0.0
    ensures force >= 0.0 ==> i == 0.0
    ensures force < 0.0 ==>
              i * Stiffness(js) == requiredArea * (length / 10.0) * (length / 10.0) * Flexibility
    ensures requiredArea >= 0.0 ==> i >= 0.0
  {
    if force < 0.0 then
      StiffnessPositive(js);
      SquareScaledNonNegative(requiredArea, length / 10.0);
      QuotientTimesDivisor(requiredArea * (length / 10.0) * (length / 10.0), Stiffness(js), Flexibility);
      NonNegativeQuotient(requiredArea * (length / 10.0) * (length / 10.0), Stiffness(js), Flexibility);
      requiredArea * (length / 10.0) * (length / 10.0) / Stiffness(js) * Flexibility
    else 0.0
  }

  lemma SquareScaledNonNegative(a: real, l: real)
    ensures a >= 0.0 ==> a * l * l >= 0.0
  {
    if l < 0.0 {
      assert l * l == (-l) * (-l);
    }
    assert l * l >= 0.0;
    assert a * l * l == a * (l * l);
    if a >= 0.0 {
      MultiplyMonotone(0.0, a, l * l);
    }
  }

  lemma QuotientTimesDivisor(n: real, d: real, c: real)
    requires d != 0.0
    ensures n / d * c * d == n * c
  {
  }

  lemma NonNegativeQuotient(n: real, d: real, c: real)
    requires d != 0.0
    ensures n >= 0.0 && c >= 0.0 && d > 0.0 ==> n / d * c >= 0.0
  {
  }

  /** The member with the profile chosen for its force. */
  function SizeMember(js: JsMath, lm: LoadedMember): (s: SizedMember)
    requires js.pi != 0.0
    ensures s.member == lm.member && s.force == lm.force
    ensures s.profile in Materials.SteelProfiles
  {
    var requiredArea := RequiredArea(lm.force);
    var requiredInertia := RequiredInertia(js, requiredArea, lm.member.length, lm.force);
    SizedMember(lm.member, lm.force, Materials.FindOptimalProfile(requiredArea, requiredInertia))
  }

  /**
    A member whose force the catalogue can carry gets a profile meeting both
    requirements and no heavier than any other profile meeting them.
  */
  lemma SizedProfileAdequate(js: JsMath, lm: LoadedMember, q: SteelProfile)
    requires js.pi != 0.0
    requires q in Materials.SteelProfiles
    requires Materials.Meets(q, RequiredArea(lm.force), RequiredInertia(js, RequiredArea(lm.force), lm.member.length, lm.force))
    ensures var p := SizeMember(js, lm).profile;
            && p.area * (Strength * WorkingFactor) >= Abs(lm.force)
            && p.massPerMeter <= q.massPerMeter
  {
    var a := RequiredArea(lm.force);
    Materials.OptimalProfileAdequateAndLightest(a, RequiredInertia(js, a, lm.member.length, lm.force), q);
    MultiplyMonotone(a, SizeMember(js, lm).profile.area, Strength * WorkingFactor);
  }

  /** Between two members in tension, the one with the larger force never gets the lighter profile. */
  lemma LargerTensionNeverLighter(js: JsMath, a: LoadedMember, b: LoadedMember)
    requires js.pi != 0.0
    requires 0.0 <= a.force <= b.force
    ensures SizeMember(js, a).profile.massPerMeter <= SizeMember(js, b).profile.massPerMeter
  {
    DivideMonotone(a.force, b.force, Strength * WorkingFactor);
    Materials.RaisingRequirementsNeverLighter(RequiredArea(a.force), 0.0, RequiredArea(b.force), 0.0);
  }

  /** Every member with its profile, in order. */
  function SizeAll(js: JsMath, lms: seq<LoadedMember>): (r: seq<SizedMember>)
    requires js.pi != 0.0
    ensures |r| == |lms|
  {
    if lms == [] then [] else SizeAll(js, lms[..|lms| - 1]) + [SizeMember(js, lms[|lms| - 1])]
  }

  /** Member k of the sized list is member k of the analysis with its chosen profile. */
  lemma {:induction false} SizeAllAt(js: JsMath, lms: seq<LoadedMember>, k: nat)
    requires js.pi != 0.0 && k < |lms|
    ensures SizeAll(js, lms)[k] == SizeMember(js, lms[k])
  {
    if k < |lms| - 1 {
      SizeAllAt(js, lms[..|lms| - 1], k);
    }
  }

  // ---------------------------------------------------------------------------
  // Bill of materials

  /** The grouping key `${baseName}|${profileName}`. */
  function Key(baseName: string, profileName: string): string
  {
    baseName + "|" + profileName
  }

  /** The text after the last '|' of a key (all of it when there is none). */
  function AfterLastBar(k: string): (p: string)
    ensures |p| <= |k| && '|' !in p
  {
    if k == [] then []
    else if k[|k| - 1] == '|' then []
    else AfterLastBar(k[..|k| - 1]) + [k[|k| - 1]]
  }

  /** A profile name without '|' is recovered from the key as the text after its last '|'. */
  lemma {:induction false} ProfileFromKey(b: string, p: string)
    requires '|' !in p
    ensures AfterLastBar(Key(b, p)) == p
  {
    if p != [] {
      var front := p[..|p| - 1];
      assert Key(b, p)[..|Key(b, p)| - 1] == Key(b, front);
      ProfileFromKey(b, front);
      assert front + [p[|p| - 1]] == p;
    }
  }

  /** As long as profile names have no '|', different (kind, profile) pairs never share a key. */
  lemma KeyInjective(b1: string, p1: string, b2: string, p2: string)
    requires '|' !in p1 && '|' !in p2
    requires Key(b1, p1) == Key(b2, p2)
    ensures b1 == b2 && p1 == p2
  {
    var k := Key(b1, p1);
    ProfileFromKey(b1, p1);
    ProfileFromKey(b2, p2);
    assert b1 == k[..|k| - |p1| - 1];
    assert b2 == Key(b2, p2)[..|k| - |p2| - 1];
  }

  /** The kind of a member: the first word of its label. */
  function BaseName(m: SizedMember): string
  {
    FirstWord(m.member.id)
  }

  function KeyOf(m: SizedMember): string
  {
    Key(BaseName(m), m.profile.name)
  }

  /** The source's Map: items by key, and the keys in insertion order. */
  datatype SpecMap = SpecMap(items: map<string, SpecificationItem>, order: seq<string>)

  /** One forEach step: count the member under its key, or open a line for the key. */
  function AddMember(s: SpecMap, m: SizedMember): SpecMap
  {
    var baseName := BaseName(m);
    var key := Key(baseName, m.profile.name);
    if key in s.items then
      var item := s.items[key];
      SpecMap(s.items[key := item.(count := item.count + 1, totalLength := item.totalLength + m.member.length / 1000.0)], s.order)
    else
      SpecMap(s.items[key := SpecificationItem(baseName, m.profile.name, m.member.length, 1, m.member.length / 1000.0)],
              s.order + [key])
  }

  /** The Map after the forEach over the sized members. */
  function Group(ms: seq<SizedMember>): SpecMap
  {
    if ms == [] then SpecMap(map[], [])
    else AddMember(Group(ms[..|ms| - 1]), ms[|ms| - 1])
  }

  /** The order lists each key of the Map exactly once. */
  ghost predicate WellFormed(s: SpecMap)
  {
    && (forall key :: key in s.items <==> key in s.order)
    && (forall i, j :: 0 <= i < j < |s.order| ==> s.order[i] != s.order[j])
  }

  /** Array.from(specMap.values()) with each total length rounded to 2 decimals. */
  function Specification(s: SpecMap): (r: seq<SpecificationItem>)
    requires WellFormed(s)
    ensures |r| == |s.order|
  {
    seq(|s.order|, i requires 0 <= i < |s.order| =>
      var item := s.items[s.order[i]];
      item.(totalLength := RoundFixed(item.totalLength, 2)))
  }

  /** How many of the members fall under key. */
  function CountKey(ms: seq<SizedMember>, key: string): (c: nat)
    ensures c <= |ms|
  {
    if ms == [] then 0
    else CountKey(ms[..|ms| - 1], key) + (if KeyOf(ms[|ms| - 1]) == key then 1 else 0)
  }

  /** The summed length, metres, of the members under key. */
  function LengthKey(ms: seq<SizedMember>, key: string): real
  {
    if ms == [] then 0.0
    else LengthKey(ms[..|ms| - 1], key) + (if KeyOf(ms[|ms| - 1]) == key then ms[|ms| - 1].member.length / 1000.0 else 0.0)
  }

  /** The first member under key, if any. */
  function FirstWithKey(ms: seq<SizedMember>, key: string): (j: int)
    ensures -1 <= j < |ms|
    ensures j >= 0 ==> KeyOf(ms[j]) == key
    ensures forall i :: 0 <= i < |ms| && (j < 0 || i < j) ==> KeyOf(ms[i]) != key
  {
    if ms == [] then -1
    else
      var j := FirstWithKey(ms[..|ms| - 1], key);
      if j >= 0 then j
      else if KeyOf(ms[|ms| - 1]) == key then |ms| - 1
      else -1
  }

  lemma {:induction false} GroupWellFormed(ms: seq<SizedMember>)
    ensures WellFormed(Group(ms))
  {
    if ms != [] {
      GroupWellFormed(ms[..|ms| - 1]);
    }
  }

  /**
    Each line of the bill counts the members under its key and sums their
    lengths in metres; a key has a line exactly when some member falls under it.
  */
  lemma {:induction false} GroupCounts(ms: seq<SizedMember>, key: string)
    ensures key in Group(ms).items <==> CountKey(ms, key) > 0
    ensures key in Group(ms).items ==>
              Group(ms).items[key].count == CountKey(ms, key)
              && Group(ms).items[key].totalLength == LengthKey(ms, key)
    ensures key !in Group(ms).items ==> LengthKey(ms, key) == 0.0
  {
    if ms != [] {
      GroupCounts(ms[..|ms| - 1], key);
    }
  }

  /** A line takes its kind, profile and piece length from the first member under its key. */
  lemma {:induction false} GroupFirstMember(ms: seq<SizedMember>, key: string)
    requires key in Group(ms).items
    ensures var j := FirstWithKey(ms, key);
            && j >= 0
            && Group(ms).items[key].name == BaseName(ms[j])
            && Group(ms).items[key].profileName == ms[j].profile.name
            && Group(ms).items[key].length == ms[j].member.length
  {
    var front := ms[..|ms| - 1];
    if key in Group(front).items {
      GroupFirstMember(front, key);
      assert FirstWithKey(ms, key) == FirstWithKey(front, key);
    } else {
      GroupCounts(front, key);
      NoKeyNoFirst(front, key);
    }
  }

  /**
    The Map yields its lines in the order their keys first occur among the
    members: every listed key has a first member, and earlier lines have
    earlier first members.
  */
  lemma {:induction false} GroupOrderFirstOccurrence(ms: seq<SizedMember>)
    ensures forall i :: 0 <= i < |Group(ms).order| ==> FirstWithKey(ms, Group(ms).order[i]) >= 0
    ensures forall i, j :: 0 <= i < j < |Group(ms).order| ==>
              FirstWithKey(ms, Group(ms).order[i]) < FirstWithKey(ms, Group(ms).order[j])
  {
    if ms != [] {
      var front, m := ms[..|ms| - 1], ms[|ms| - 1];
      GroupOrderFirstOccurrence(front);
      var o := Group(front).order;
      forall i | 0 <= i < |o|
        ensures FirstWithKey(ms, o[i]) == FirstWithKey(front, o[i])
      {
      }
      if KeyOf(m) in Group(front).items {
        assert Group(ms).order == o;
      } else {
        GroupCounts(front, KeyOf(m));
        NoKeyNoFirst(front, KeyOf(m));
        assert FirstWithKey(ms, KeyOf(m)) == |ms| - 1;
        assert Group(ms).order == o + [KeyOf(m)];
      }
    }
  }

  /**
    Line i of the specification: kind, profile and piece length of the first
    member under its key, the number of members under the key, and their
    summed length in metres rounded to hundredths.
  */
  lemma SpecificationLine(ms: seq<SizedMember>, i: nat)
    requires i < |Group(ms).order|
    ensures WellFormed(Group(ms))
    ensures var key := Group(ms).order[i];
            var j := FirstWithKey(ms, key);
            var line := Specification(Group(ms))[i];
            && 0 <= j < |ms| && KeyOf(ms[j]) == key
            && line.name == BaseName(ms[j])
            && line.profileName == ms[j].profile.name
            && line.length == ms[j].member.length
            && line.count == CountKey(ms, key)
            && line.totalLength == RoundFixed(LengthKey(ms, key), 2)
  {
    var key := Group(ms).order[i];
    GroupWellFormed(ms);
    GroupCounts(ms, key);
    GroupFirstMember(ms, key);
  }

  lemma NoKeyNoFirst(ms: seq<SizedMember>, key: string)
    requires CountKey(ms, key) == 0
    ensures FirstWithKey(ms, key) == -1
  {
    if FirstWithKey(ms, key) >= 0 {
      CountKeyPositive(ms, key, FirstWithKey(ms, key));
    }
  }

  lemma {:induction false} CountKeyPositive(ms: seq<SizedMember>, key: string, j: nat)
    requires j < |ms| && KeyOf(ms[j]) == key
    ensures CountKey(ms, key) > 0
  {
    if j < |ms| - 1 {
      assert ms[..|ms| - 1][j] == ms[j];
      CountKeyPositive(ms[..|ms| - 1], key, j);
    }
  }

  /** The counts of the listed keys, summed in order. */
  function SumCounts(items: map<string, SpecificationItem>, order: seq<string>): nat
    requires forall i :: 0 <= i < |order| ==> order[i] in items
  {
    if order == [] then 0
    else SumCounts(items, order[..|order| - 1]) + items[order[|order| - 1]].count
  }

  lemma {:induction false} SumCountsElsewhere(items: map<string, SpecificationItem>, order: seq<string>,
                                              key: string, item: SpecificationItem)
    requires forall i :: 0 <= i < |order| ==> order[i] in items
    requires key !in order
    ensures SumCounts(items[key := item], order) == SumCounts(items, order)
  {
    if order != [] {
      SumCountsElsewhere(items, order[..|order| - 1], key, item);
    }
  }

  lemma {:induction false} SumCountsBump(items: map<string, SpecificationItem>, order: seq<string>,
                                         key: string, item: SpecificationItem)
    requires forall i :: 0 <= i < |order| ==> order[i] in items
    requires forall i, j :: 0 <= i < j < |order| ==> order[i] != order[j]
    requires key in order && item.count == items[key].count + 1
    ensures SumCounts(items[key := item], order) == SumCounts(items, order) + 1
  {
    var front, last := order[..|order| - 1], order[|order| - 1];
    if last == key {
      assert key !in front;
      SumCountsElsewhere(items, front, key, item);
    } else {
      SumCountsBump(items, front, key, item);
    }
  }

  /** One forEach step adds exactly one to the summed counts. */
  lemma AddMemberCountsOne(s: SpecMap, m: SizedMember)
    requires WellFormed(s)
    ensures SumCounts(AddMember(s, m).items, AddMember(s, m).order) == SumCounts(s.items, s.order) + 1
  {
    if KeyOf(m) in s.items {
      CountOnExistingLine(s, m);
    } else {
      CountOnNewLine(s, m);
    }
  }

  lemma CountOnExistingLine(s: SpecMap, m: SizedMember)
    requires WellFormed(s) && KeyOf(m) in s.items
    ensures SumCounts(AddMember(s, m).items, AddMember(s, m).order) == SumCounts(s.items, s.order) + 1
  {
    var key := KeyOf(m);
    var item := s.items[key];
    var bumped := item.(count := item.count + 1, totalLength := item.totalLength + m.member.length / 1000.0);
    assert AddMember(s, m) == SpecMap(s.items[key := bumped], s.order);
    SumCountsBump(s.items, s.order, key, bumped);
  }

  lemma CountOnNewLine(s: SpecMap, m: SizedMember)
    requires WellFormed(s) && KeyOf(m) !in s.items
    ensures SumCounts(AddMember(s, m).items, AddMember(s, m).order) == SumCounts(s.items, s.order) + 1
  {
    var key := KeyOf(m);
    var item := SpecificationItem(BaseName(m), m.profile.name, m.member.length, 1, m.member.length / 1000.0);
    var t := SpecMap(s.items[key := item], s.order + [key]);
    assert AddMember(s, m) == t;
    assert t.order[..|s.order|] == s.order;
    SumCountsElsewhere(s.items, s.order, key, item);
  }

  /** Every member is counted on exactly one line of the bill. */
  lemma {:induction false} GroupCountsAllMembers(ms: seq<SizedMember>)
    ensures WellFormed(Group(ms))
    ensures SumCounts(Group(ms).items, Group(ms).order) == |ms|
  {
    if ms != [] {
      GroupCountsAllMembers(ms[..|ms| - 1]);
      GroupWellFormed(ms);
      AddMemberCountsOne(Group(ms[..|ms| - 1]), ms[|ms| - 1]);
    }
  }

  /** The rounded total length of a line is within half a centimetre of the exact sum. */
  lemma SpecificationRounding(s: SpecMap, i: nat)
    requires WellFormed(s) && i < |s.order|
    requires Abs(s.items[s.order[i]].totalLength) < FixedLimit as real
    ensures Abs(Specification(s)[i].totalLength - s.items[s.order[i]].totalLength) * 100.0 <= 0.5
  {
    var exact := s.items[s.order[i]].totalLength;
    assert Pow10(2) == 100;
    RoundFixedClose(exact, 2, RoundFixed(exact, 2), 100.0);
  }

  // ---------------------------------------------------------------------------
  // Geometry

  /** The seven joints of the W truss: supports, ridge, two bottom-chord joints, two top-chord joints. */
  function CanopyNodes(width: real, height: real): (nodes: seq<Node>)
    ensures |nodes| == 7
  {
    [ Node(0.0, 0.0), Node(width / 2.0, height), Node(width, 0.0),
      Node(width / 4.0, 0.0), Node(width * 3.0 / 4.0, 0.0),
      Node(width / 4.0, height / 2.0), Node(width * 3.0 / 4.0, height / 2.0) ]
  }

  /** The member labels: kind, then number within the kind. */
  const TopChord1: string := "Верхний пояс 1"
  const TopChord2: string := "Верхний пояс 2"
  const TopChord3: string := "Верхний пояс 3"
  const TopChord4: string := "Верхний пояс 4"
  const BottomChord1: string := "Нижний пояс 1"
  const BottomChord2: string := "Нижний пояс 2"
  const BottomChord3: string := "Нижний пояс 3"
  const Diagonal1: string := "Раскос 1"
  const Post1: string := "Стойка 1"
  const Post2: string := "Стойка 2"
  const Diagonal2: string := "Раскос 2"

  /** The stand-in analysis reads the four top-chord labels as top chords. */
  lemma TopChordLabels()
    ensures StubAnalysis.RoleOf(TopChord1) == StubAnalysis.TopChord && StubAnalysis.RoleOf(TopChord2) == StubAnalysis.TopChord
    ensures StubAnalysis.RoleOf(TopChord3) == StubAnalysis.TopChord && StubAnalysis.RoleOf(TopChord4) == StubAnalysis.TopChord
  {
    var top := "Верхний";
    assert TopChord1 == top + " пояс 1" && TopChord2 == top + " пояс 2";
    assert TopChord3 == top + " пояс 3" && TopChord4 == top + " пояс 4";
    StubAnalysis.TopLabel(" пояс 1");
    StubAnalysis.TopLabel(" пояс 2");
    StubAnalysis.TopLabel(" пояс 3");
    StubAnalysis.TopLabel(" пояс 4");
  }

  /** The stand-in analysis reads the three bottom-chord labels as bottom chords. */
  lemma BottomChordLabels()
    ensures StubAnalysis.RoleOf(BottomChord1) == StubAnalysis.BottomChord
    ensures StubAnalysis.RoleOf(BottomChord2) == StubAnalysis.BottomChord
    ensures StubAnalysis.RoleOf(BottomChord3) == StubAnalysis.BottomChord
  {
    var bottom := "Нижний";
    assert BottomChord1 == bottom + " пояс 1" && BottomChord2 == bottom + " пояс 2" && BottomChord3 == bottom + " пояс 3";
    StubAnalysis.BottomLabel(" пояс 1");
    StubAnalysis.BottomLabel(" пояс 2");
    StubAnalysis.BottomLabel(" пояс 3");
  }

  /** The stand-in analysis reads the two diagonals and the two posts as web members. */
  lemma WebLabels()
    ensures StubAnalysis.RoleOf(Diagonal1) == StubAnalysis.Web && StubAnalysis.RoleOf(Diagonal2) == StubAnalysis.Web
    ensures StubAnalysis.RoleOf(Post1) == StubAnalysis.Web && StubAnalysis.RoleOf(Post2) == StubAnalysis.Web
  {
    assert Diagonal1 == "Раскос" + " 1" && Diagonal2 == "Раскос" + " 2";
    assert Post1 == "Стойка" + " 1" && Post2 == "Стойка" + " 2";
    StubAnalysis.WebLabel("Раскос", " 1");
    StubAnalysis.WebLabel("Раскос", " 2");
    StubAnalysis.WebLabel("Стойка", " 1");
    StubAnalysis.WebLabel("Стойка", " 2");
  }

  /**
    addMember: a member between two joints, as long as Math.hypot of their
    offset, which is the distance between them.
  */
  function Link(js: JsMath, nodes: seq<Node>, start: nat, end: nat, id: string): (m: Member)
    requires start < |nodes| && end < |nodes|
    ensures m.startNode == start && m.endNode == end && m.id == id
    ensures Sound(js) ==>
              var dx, dy := nodes[end].x - nodes[start].x, nodes[end].y - nodes[start].y;
              m.length >= 0.0 && m.length * m.length == dx * dx + dy * dy
  {
    var startNode, endNode := nodes[start], nodes[end];
    Member(id, start, end, js.hypot(endNode.x - startNode.x, endNode.y - startNode.y))
  }

  /** The eleven members over the seven joints, in the order they are added: top chord, bottom chord, web. */
  function CanopyMembers(js: JsMath, nodes: seq<Node>): (ms: seq<Member>)
    requires |nodes| == 7
    ensures |ms| == 11
    ensures ValidIndices(nodes, ms)
  {
    [ Link(js, nodes, 0, 5, TopChord1), Link(js, nodes, 5, 1, TopChord2),
      Link(js, nodes, 1, 6, TopChord3), Link(js, nodes, 6, 2, TopChord4),
      Link(js, nodes, 0, 3, BottomChord1), Link(js, nodes, 3, 4, BottomChord2),
      Link(js, nodes, 4, 2, BottomChord3),
      Link(js, nodes, 5, 3, Diagonal1), Link(js, nodes, 1, 3, Post1),
      Link(js, nodes, 1, 4, Post2), Link(js, nodes, 6, 4, Diagonal2) ]
  }

  /** The joint pushes of buildTrussGeometry. */
  method PlaceJoints(width: real, height: real) returns (nodes: seq<Node>)
    ensures nodes == CanopyNodes(width, height)
  {
    nodes := [];
    nodes := nodes + [Node(0.0, 0.0)];
    nodes := nodes + [Node(width / 2.0, height)];
    nodes := nodes + [Node(width, 0.0)];
    nodes := nodes + [Node(width / 4.0, 0.0)];
    nodes := nodes + [Node(width * 3.0 / 4.0, 0.0)];
    nodes := nodes + [Node(width / 4.0, height / 2.0)];
    nodes := nodes + [Node(width * 3.0 / 4.0, height / 2.0)];
  }

  /** Joints and members of the W truss for the configured span and rise, pushed in order. */
  method BuildTrussGeometry(js: JsMath, config: CanopyConfig) returns (g: TrussGeometry)
    ensures g.nodes == CanopyNodes(config.width, config.height)
    ensures g.members == CanopyMembers(js, g.nodes)
  {
    var nodes := PlaceJoints(config.width, config.height);
    var members: seq<Member> := [];
    members := members + [Link(js, nodes, 0, 5, TopChord1)];
    members := members + [Link(js, nodes, 5, 1, TopChord2)];
    members := members + [Link(js, nodes, 1, 6, TopChord3)];
    members := members + [Link(js, nodes, 6, 2, TopChord4)];
    members := members + [Link(js, nodes, 0, 3, BottomChord1)];
    members := members + [Link(js, nodes, 3, 4, BottomChord2)];
    members := members + [Link(js, nodes, 4, 2, BottomChord3)];
    members := members + [Link(js, nodes, 5, 3, Diagonal1)];
    members := members + [Link(js, nodes, 1, 3, Post1)];
    members := members + [Link(js, nodes, 1, 4, Post2)];
    members := members + [Link(js, nodes, 6, 4, Diagonal2)];
    ElevenPushes(CanopyMembers(js, nodes));
    g := TrussGeometry(nodes, members);
  }

  /** Eleven pushes onto an empty list give the list of the pushed elements, in order. */
  lemma ElevenPushes<T>(ms: seq<T>)
    requires |ms| == 11
    ensures [] + [ms[0]] + [ms[1]] + [ms[2]] + [ms[3]] + [ms[4]] + [ms[5]]
              + [ms[6]] + [ms[7]] + [ms[8]] + [ms[9]] + [ms[10]] == ms
  {
  }

  /** Two non-negative numbers with equal squares are equal. */
  lemma SquareRootUnique(a: real, b: real)
    requires a >= 0.0 && b >= 0.0 && a * a == b * b
    ensures a == b
  {
    if a <= b {
      SquareRootOrdered(a, b);
    } else {
      SquareRootOrdered(b, a);
    }
  }

  lemma SquareRootOrdered(a: real, b: real)
    requires 0.0 <= a <= b && a * a == b * b
    ensures a == b
  {
    if a < b {
      TimesPositive(b - a, b + a);
    }
  }

  /** Math.hypot ignores the signs of its arguments and measures a horizontal offset by its size. */
  lemma HypotSymmetric(js: JsMath, a: real, b: real)
    requires Sound(js)
    ensures js.hypot(a, -b) == js.hypot(a, b) && js.hypot(-a, b) == js.hypot(a, b)
    ensures a >= 0.0 ==> js.hypot(a, 0.0) == a
  {
    assert (-a) * (-a) == a * a && (-b) * (-b) == b * b;
    SquareRootUnique(js.hypot(a, -b), js.hypot(a, b));
    SquareRootUnique(js.hypot(-a, b), js.hypot(a, b));
    if a >= 0.0 {
      SquareRootUnique(js.hypot(a, 0.0), a);
    }
  }

  /** The four top-chord panels have one length: joints 5 and 6 halve the rafters. */
  lemma TopChordPanelsEqual(js: JsMath, width: real, height: real)
    requires Sound(js)
    ensures var ms := CanopyMembers(js, CanopyNodes(width, height));
            ms[0].length == ms[1].length == ms[2].length == ms[3].length
  {
    var ms := CanopyMembers(js, CanopyNodes(width, height));
    var qw, hh := width / 4.0, height / 2.0;
    assert ms[0].length == js.hypot(qw, hh);
    assert ms[1].length == js.hypot(qw, hh);
    assert ms[2].length == js.hypot(qw, -hh);
    assert ms[3].length == js.hypot(qw, -hh);
    HypotSymmetric(js, qw, hh);
  }

  /**
    The outer bottom-chord panels are a quarter of the span each and the
    middle panel half of it, so the middle one equals the outer two together.
  */
  lemma BottomChordPanels(js: JsMath, width: real, height: real)
    requires Sound(js) && width >= 0.0
    ensures var ms := CanopyMembers(js, CanopyNodes(width, height));
            ms[4].length == ms[6].length == width / 4.0 && ms[5].length == width / 2.0
  {
    var ms := CanopyMembers(js, CanopyNodes(width, height));
    assert ms[4].length == js.hypot(width / 4.0, 0.0);
    assert ms[5].length == js.hypot(width / 2.0, 0.0);
    assert ms[6].length == js.hypot(width / 4.0, 0.0);
    HypotSymmetric(js, width / 4.0, 0.0);
    HypotSymmetric(js, width / 2.0, 0.0);
  }

  /** The web is mirror-symmetric about the ridge: the two diagonals match, and so do the two posts. */
  lemma WebMirrored(js: JsMath, width: real, height: real)
    requires Sound(js)
    ensures var ms := CanopyMembers(js, CanopyNodes(width, height));
            ms[7].length == ms[10].length && ms[8].length == ms[9].length
  {
    var ms := CanopyMembers(js, CanopyNodes(width, height));
    assert ms[7].length == js.hypot(0.0, -(height / 2.0));
    assert ms[10].length == js.hypot(0.0, -(height / 2.0));
    assert ms[8].length == js.hypot(-(width / 4.0), -height);
    assert ms[9].length == js.hypot(width / 4.0, -height);
    HypotSymmetric(js, width / 4.0, -height);
  }

  /**
    With a non-zero span, the joint solver's search for the right support
    (the first joint at x = span on the ground) finds joint 2 of this geometry.
  */
  lemma RightSupportIsJointTwo(width: real, height: real)
    requires width != 0.0
    ensures JointSolver.FindRightSupport(CanopyNodes(width, height), width) == 2
  {
    var nodes := CanopyNodes(width, height);
    assert nodes[..|nodes| - 1][..6] == nodes[..6];
    assert JointSolver.FindRightSupport(nodes[..3], width) == 2 by {
      assert nodes[..3][..2] == nodes[..2];
      assert nodes[..2][..1] == nodes[..1];
    }
  }

  // ---------------------------------------------------------------------------
  // The pipeline

  /** The design loads of a configuration. */
  function DesignLoadsOf(config: CanopyConfig): DesignLoads
  {
    DesignLoads(Loads.CalculateSnowLoad(config.region, config.roofAngle), Loads.CalculateWindLoad())
  }

  /**
    The forEach of runCalculation: choose each member's profile, keep the
    sized members in order, and count them into the Map.
  */
  method SizeAndGroup(js: JsMath, membersWithForces: seq<LoadedMember>)
    returns (finalMembers: seq<SizedMember>, specItems: map<string, SpecificationItem>, specOrder: seq<string>)
    requires js.pi != 0.0
    ensures finalMembers == SizeAll(js, membersWithForces)
    ensures SpecMap(specItems, specOrder) == Group(finalMembers)
  {
    assert membersWithForces[..|membersWithForces|] == membersWithForces;
    finalMembers := [];
    specItems := map[];
    specOrder := [];
    for k := 0 to |membersWithForces|
      invariant finalMembers == SizeAll(js, membersWithForces[..k])
      invariant SpecMap(specItems, specOrder) == Group(finalMembers)
    {
      var member := membersWithForces[k];
      var requiredArea := RequiredArea(member.force);
      var requiredInertia := RequiredInertia(js, requiredArea, member.member.length, member.force);
      var profile := Materials.FindOptimalProfile(requiredArea, requiredInertia);
      var sized := SizedMember(member.member, member.force, profile);
      assert sized == SizeMember(js, member);
      SizedStep(js, membersWithForces, k, finalMembers);
      GroupStep(finalMembers, sized);
      finalMembers := finalMembers + [sized];

      specItems, specOrder := CountMember(specItems, specOrder, sized);
    }
  }

  /** Sizing one more member extends the sized prefix by it. */
  lemma SizedStep(js: JsMath, lms: seq<LoadedMember>, k: nat, sized: seq<SizedMember>)
    requires js.pi != 0.0 && k < |lms| && sized == SizeAll(js, lms[..k])
    ensures sized + [SizeMember(js, lms[k])] == SizeAll(js, lms[..k + 1])
  {
    assert lms[..k + 1][..k] == lms[..k];
  }

  /** Grouping one more member is one AddMember step. */
  lemma GroupStep(ms: seq<SizedMember>, m: SizedMember)
    ensures Group(ms + [m]) == AddMember(Group(ms), m)
  {
    assert (ms + [m])[..|ms|] == ms;
  }

  /** The Map update of one forEach step: count the member on its line, or open a line for it. */
  method CountMember(specItems: map<string, SpecificationItem>, specOrder: seq<string>, member: SizedMember)
    returns (items: map<string, SpecificationItem>, order: seq<string>)
    ensures SpecMap(items, order) == AddMember(SpecMap(specItems, specOrder), member)
  {
    var baseName := FirstWord(member.member.id);
    var key := Key(baseName, member.profile.name);
    if key in specItems {
      var item := specItems[key];
      items := specItems[key := item.(count := item.count + 1, totalLength := item.totalLength + member.member.length / 1000.0)];
      order := specOrder;
    } else {
      items := specItems[key := SpecificationItem(baseName, member.profile.name, member.member.length, 1, member.member.length / 1000.0)];
      order := specOrder + [key];
    }
  }

  /** The stand-in forces for a configuration under the line load of its design loads. */
  function ConfigForces(js: JsMath, config: CanopyConfig): seq<LoadedMember>
  {
    var loads := DesignLoadsOf(config);
    var geometry := TrussGeometry(CanopyNodes(config.width, config.height), CanopyMembers(js, CanopyNodes(config.width, config.height)));
    StubAnalysis.AnalyzeTruss(js, geometry, LineLoadKN(loads.snowLoad, loads.windLoad, config.spacing))
  }

  /**
    runCalculation: loads, geometry, the stand-in forces under the line
    load, profiles for every member, and the bill of materials.
  */
  method RunCalculation(js: JsMath, config: CanopyConfig) returns (result: CalculationResult)
    requires js.pi != 0.0
    ensures result.config == config
    ensures result.loads == DesignLoadsOf(config)
    ensures result.truss.nodes == CanopyNodes(config.width, config.height)
    ensures result.truss.members == SizeAll(js, ConfigForces(js, config))
    ensures WellFormed(Group(result.truss.members))
    ensures result.specification == Specification(Group(result.truss.members))
  {
    var snowLoad := Loads.CalculateSnowLoad(config.region, config.roofAngle);
    var windLoad := Loads.CalculateWindLoad();
    var totalLoadPerMeterKN := LineLoadKN(snowLoad, windLoad, config.spacing);

    var trussGeometry := BuildTrussGeometry(js, config);
    assert trussGeometry == TrussGeometry(CanopyNodes(config.width, config.height),
                                          CanopyMembers(js, CanopyNodes(config.width, config.height)));
    var membersWithForces := StubAnalysis.AnalyzeTruss(js, trussGeometry, totalLoadPerMeterKN);
    assert membersWithForces == ConfigForces(js, config);

    var finalMembers, specItems, specOrder := SizeAndGroup(js, membersWithForces);
    GroupWellFormed(finalMembers);
    var specification := Specification(SpecMap(specItems, specOrder));
    result := CalculationResult(config, CalculatedTruss(trussGeometry.nodes, finalMembers), specification,
                                DesignLoads(snowLoad, windLoad));
  }
}
