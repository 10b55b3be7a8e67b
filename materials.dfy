/**
  The steel tube catalogue and the choice of the lightest adequate profile
  (scr/engineering/materials.ts): keep the entries whose area and second
  moment meet the requirement, sort them by mass with a stable sort, take the
  first; when nothing qualifies, fall back to the last, heaviest entry.
*/
module Materials {
  import opened Types

  /** Square hollow sections after GOST 30245-2003, simplified: h x h x t. */
  const SteelProfiles: seq<SteelProfile> := [
    SteelProfile("40x40x3", 40.0, 40.0, 3.0, 4.09, 8.56, 8.56, 3.21),
    SteelProfile("40x40x4", 40.0, 40.0, 4.0, 5.13, 10.1, 10.1, 4.03),
    SteelProfile("60x60x3", 60.0, 60.0, 3.0, 6.49, 32.2, 32.2, 5.10),
    SteelProfile("60x60x4", 60.0, 60.0, 4.0, 8.33, 39.5, 39.5, 6.54),
    SteelProfile("60x60x5", 60.0, 60.0, 5.0, 10.1, 45.7, 45.7, 7.93),
    SteelProfile("80x80x4", 80.0, 80.0, 4.0, 11.5, 101.0, 101.0, 9.06),
    SteelProfile("80x80x5", 80.0, 80.0, 5.0, 14.1, 121.0, 121.0, 11.1),
    SteelProfile("80x80x6", 80.0, 80.0, 6.0, 16.6, 139.0, 139.0, 13.0),
    SteelProfile("100x100x4", 100.0, 100.0, 4.0, 14.8, 213.0, 213.0, 11.6),
    SteelProfile("100x100x5", 100.0, 100.0, 5.0, 18.1, 257.0, 257.0, 14.2),
    SteelProfile("100x100x6", 100.0, 100.0, 6.0, 21.4, 298.0, 298.0, 16.8),
    SteelProfile("120x120x5", 120.0, 120.0, 5.0, 22.1, 469.0, 469.0, 17.4),
    SteelProfile("120x120x6", 120.0, 120.0, 6.0, 26.2, 546.0, 546.0, 20.6),
    SteelProfile("140x140x6", 140.0, 140.0, 6.0, 31.0, 921.0, 921.0, 24.3),
    SteelProfile("140x140x8", 140.0, 140.0, 8.0, 40.0, 1160.0, 1160.0, 31.4)
  ]

  /**
    Square sections: equal second moments about both axes; the last entry is
    the largest in every respect and the first is the lightest.
  */
  lemma CatalogueShape()
    ensures |SteelProfiles| == 15
    ensures forall k :: 0 <= k < 15 ==> SteelProfiles[k].ix == SteelProfiles[k].iy
    ensures forall k :: 0 <= k < 15 ==> SteelProfiles[k].area > 0.0 && SteelProfiles[k].ix > 0.0
    ensures forall k :: 0 <= k < 15 ==>
              SteelProfiles[k].area <= SteelProfiles[14].area && SteelProfiles[k].ix <= SteelProfiles[14].ix
              && SteelProfiles[k].massPerMeter <= SteelProfiles[14].massPerMeter
    ensures forall k :: 0 < k < 15 ==> SteelProfiles[0].massPerMeter < SteelProfiles[k].massPerMeter
  {
  }

  predicate Meets(p: SteelProfile, requiredArea: real, requiredInertia: real)
  {
    p.area >= requiredArea && p.ix >= requiredInertia
  }

  /** The filter step: the entries that meet both requirements, in catalogue order. */
  function SuitableProfiles(ps: seq<SteelProfile>, requiredArea: real, requiredInertia: real): (r: seq<SteelProfile>)
    ensures forall q :: q in r <==> q in ps && Meets(q, requiredArea, requiredInertia)
  {
    if ps == [] then []
    else if Meets(ps[0], requiredArea, requiredInertia) then [ps[0]] + SuitableProfiles(ps[1..], requiredArea, requiredInertia)
    else SuitableProfiles(ps[1..], requiredArea, requiredInertia)
  }

  /** Insert p into a mass-sorted list ahead of every entry at least as heavy (keeps earlier entries first on ties). */
  function InsertByMass(p: SteelProfile, sorted: seq<SteelProfile>): (r: seq<SteelProfile>)
    ensures |r| == |sorted| + 1
    ensures forall q :: q in r <==> q == p || q in sorted
  {
    if sorted == [] || p.massPerMeter <= sorted[0].massPerMeter then [p] + sorted
    else
      assert sorted == [sorted[0]] + sorted[1..];
      [sorted[0]] + InsertByMass(p, sorted[1..])
  }

  /** Array.prototype.sort with the comparator a.massPerMeter - b.massPerMeter, which is stable. */
  function SortByMass(ps: seq<SteelProfile>): (r: seq<SteelProfile>)
    ensures |r| == |ps|
    ensures forall q :: q in r <==> q in ps
  {
    if ps == [] then []
    else
      assert ps == [ps[0]] + ps[1..];
      InsertByMass(ps[0], SortByMass(ps[1..]))
  }

  predicate SortedByMass(s: seq<SteelProfile>)
  {
    forall i, j :: 0 <= i < j < |s| ==> s[i].massPerMeter <= s[j].massPerMeter
  }

  lemma {:induction false} InsertByMassPermutes(p: SteelProfile, sorted: seq<SteelProfile>)
    ensures multiset(InsertByMass(p, sorted)) == multiset(sorted) + multiset{p}
    decreases |sorted|
  {
    if sorted != [] && p.massPerMeter > sorted[0].massPerMeter {
      InsertByMassPermutes(p, sorted[1..]);
      assert sorted == [sorted[0]] + sorted[1..];
    }
  }

  lemma {:induction false} InsertByMassSorted(p: SteelProfile, sorted: seq<SteelProfile>)
    requires SortedByMass(sorted)
    ensures SortedByMass(InsertByMass(p, sorted))
    decreases |sorted|
  {
    if sorted != [] && p.massPerMeter > sorted[0].massPerMeter {
      InsertByMassSorted(p, sorted[1..]);
      var rest := InsertByMass(p, sorted[1..]);
      forall q | q in rest
        ensures sorted[0].massPerMeter <= q.massPerMeter
      {
        if q != p {
          var k :| 0 <= k < |sorted[1..]| && sorted[1..][k] == q;
          assert sorted[k + 1] == q;
        }
      }
      var r := InsertByMass(p, sorted);
      assert r == [sorted[0]] + rest;
      forall i, j | 0 <= i < j < |r|
        ensures r[i].massPerMeter <= r[j].massPerMeter
      {
        if i == 0 {
          assert r[j] == rest[j - 1];
          assert rest[j - 1] in rest;
        } else {
          assert r[i] == rest[i - 1] && r[j] == rest[j - 1];
        }
      }
    }
  }

  /** The sort orders by mass and is a permutation of its input. */
  lemma {:induction false} SortByMassCorrect(ps: seq<SteelProfile>)
    ensures SortedByMass(SortByMass(ps))
    ensures multiset(SortByMass(ps)) == multiset(ps)
  {
    if ps != [] {
      var rest := SortByMass(ps[1..]);
      SortByMassCorrect(ps[1..]);
      assert SortByMass(ps) == InsertByMass(ps[0], rest);
      InsertByMassSorted(ps[0], rest);
      InsertByMassPermutes(ps[0], rest);
      assert ps == [ps[0]] + ps[1..];
      assert multiset(ps) == multiset(ps[1..]) + multiset{ps[0]};
    }
  }

  /**
    ps[i] is the first of the entries meeting the requirements whose mass is
    the least among them.
  */
  ghost predicate IsFirstLightest(ps: seq<SteelProfile>, i: int, requiredArea: real, requiredInertia: real)
  {
    && 0 <= i < |ps|
    && Meets(ps[i], requiredArea, requiredInertia)
    && (forall k :: 0 <= k < |ps| && Meets(ps[k], requiredArea, requiredInertia) ==> ps[i].massPerMeter <= ps[k].massPerMeter)
    && (forall k :: 0 <= k < i && Meets(ps[k], requiredArea, requiredInertia) ==> ps[k].massPerMeter > ps[i].massPerMeter)
  }

  lemma FirstLightestShift(ps: seq<SteelProfile>, i: int, requiredArea: real, requiredInertia: real)
    requires ps != [] && IsFirstLightest(ps[1..], i, requiredArea, requiredInertia)
    requires Meets(ps[0], requiredArea, requiredInertia) ==> ps[0].massPerMeter > ps[1..][i].massPerMeter
    ensures IsFirstLightest(ps, i + 1, requiredArea, requiredInertia)
  {
    forall k | 0 <= k < |ps| && Meets(ps[k], requiredArea, requiredInertia)
      ensures ps[i + 1].massPerMeter <= ps[k].massPerMeter
    {
      if k > 0 {
        assert ps[k] == ps[1..][k - 1];
      }
    }
    forall k | 0 <= k < i + 1 && Meets(ps[k], requiredArea, requiredInertia)
      ensures ps[k].massPerMeter > ps[i + 1].massPerMeter
    {
      if k > 0 {
        assert ps[k] == ps[1..][k - 1];
      }
    }
  }

  lemma FirstLightestAtHead(ps: seq<SteelProfile>, i: int, requiredArea: real, requiredInertia: real)
    requires ps != [] && Meets(ps[0], requiredArea, requiredInertia)
    requires IsFirstLightest(ps[1..], i, requiredArea, requiredInertia)
    requires ps[0].massPerMeter <= ps[1..][i].massPerMeter
    ensures IsFirstLightest(ps, 0, requiredArea, requiredInertia)
  {
    forall k | 0 <= k < |ps| && Meets(ps[k], requiredArea, requiredInertia)
      ensures ps[0].massPerMeter <= ps[k].massPerMeter
    {
      if k > 0 {
        assert ps[k] == ps[1..][k - 1];
      }
    }
  }

  lemma OnlySuitableAtHead(ps: seq<SteelProfile>, requiredArea: real, requiredInertia: real)
    requires ps != [] && Meets(ps[0], requiredArea, requiredInertia)
    requires SuitableProfiles(ps[1..], requiredArea, requiredInertia) == []
    ensures IsFirstLightest(ps, 0, requiredArea, requiredInertia)
  {
    forall k | 0 < k < |ps|
      ensures !Meets(ps[k], requiredArea, requiredInertia)
    {
      assert ps[k] == ps[1..][k - 1];
      assert ps[k] in ps[1..];
    }
  }

  /** Filtering, then sorting stably by mass, puts the first lightest suitable entry at the head. */
  lemma {:induction false} SortedSuitableHead(ps: seq<SteelProfile>, requiredArea: real, requiredInertia: real)
    requires SuitableProfiles(ps, requiredArea, requiredInertia) != []
    ensures exists i :: IsFirstLightest(ps, i, requiredArea, requiredInertia)
                        && ps[i] == SortByMass(SuitableProfiles(ps, requiredArea, requiredInertia))[0]
  {
    var rest := SuitableProfiles(ps[1..], requiredArea, requiredInertia);
    var head := SortByMass(SuitableProfiles(ps, requiredArea, requiredInertia))[0];
    if Meets(ps[0], requiredArea, requiredInertia) {
      assert SuitableProfiles(ps, requiredArea, requiredInertia) == [ps[0]] + rest;
      assert ([ps[0]] + rest)[1..] == rest;
      assert SortByMass([ps[0]] + rest) == InsertByMass(ps[0], SortByMass(rest));
      if rest == [] {
        assert head == ps[0];
        OnlySuitableAtHead(ps, requiredArea, requiredInertia);
      } else {
        SortedSuitableHead(ps[1..], requiredArea, requiredInertia);
        var i' :| IsFirstLightest(ps[1..], i', requiredArea, requiredInertia)
                  && ps[1..][i'] == SortByMass(rest)[0];
        if ps[0].massPerMeter <= SortByMass(rest)[0].massPerMeter {
          assert head == ps[0];
          FirstLightestAtHead(ps, i', requiredArea, requiredInertia);
        } else {
          assert head == SortByMass(rest)[0];
          FirstLightestShift(ps, i', requiredArea, requiredInertia);
        }
      }
    } else {
      assert SuitableProfiles(ps, requiredArea, requiredInertia) == rest;
      SortedSuitableHead(ps[1..], requiredArea, requiredInertia);
      var i' :| IsFirstLightest(ps[1..], i', requiredArea, requiredInertia)
                && ps[1..][i'] == SortByMass(rest)[0];
      FirstLightestShift(ps, i', requiredArea, requiredInertia);
    }
  }

  predicate AnyMeets(requiredArea: real, requiredInertia: real)
  {
    exists k :: 0 <= k < |SteelProfiles| && Meets(SteelProfiles[k], requiredArea, requiredInertia)
  }

  /**
    The lightest profile meeting both requirements, the earliest in catalogue
    order among equally light ones; the heaviest entry when none meets them.
  */
  function FindOptimalProfile(requiredArea: real, requiredInertia: real): (p: SteelProfile)
    ensures p in SteelProfiles
    ensures AnyMeets(requiredArea, requiredInertia) ==>
              exists i :: IsFirstLightest(SteelProfiles, i, requiredArea, requiredInertia) && SteelProfiles[i] == p
    ensures !AnyMeets(requiredArea, requiredInertia) ==> p == SteelProfiles[|SteelProfiles| - 1]
  {
    var suitable := SuitableProfiles(SteelProfiles, requiredArea, requiredInertia);
    if |suitable| == 0 then
      assert !AnyMeets(requiredArea, requiredInertia) by {
        forall k | 0 <= k < |SteelProfiles|
          ensures !Meets(SteelProfiles[k], requiredArea, requiredInertia)
        {
          assert SteelProfiles[k] !in suitable;
        }
      }
      SteelProfiles[|SteelProfiles| - 1]
    else
      SortedSuitableHead(SteelProfiles, requiredArea, requiredInertia);
      assert AnyMeets(requiredArea, requiredInertia);
      SortByMass(suitable)[0]
  }

  /** When some entry is adequate the result meets both requirements and is no heavier than any adequate entry. */
  lemma OptimalProfileAdequateAndLightest(requiredArea: real, requiredInertia: real, q: SteelProfile)
    requires q in SteelProfiles && Meets(q, requiredArea, requiredInertia)
    ensures Meets(FindOptimalProfile(requiredArea, requiredInertia), requiredArea, requiredInertia)
    ensures FindOptimalProfile(requiredArea, requiredInertia).massPerMeter <= q.massPerMeter
  {
    var k :| 0 <= k < |SteelProfiles| && SteelProfiles[k] == q;
    assert AnyMeets(requiredArea, requiredInertia);
  }

  /** Requirements of zero or less select 40x40x3, the lightest entry. */
  lemma NoRequirementPicksLightest(requiredArea: real, requiredInertia: real)
    requires requiredArea <= 0.0 && requiredInertia <= 0.0
    ensures FindOptimalProfile(requiredArea, requiredInertia) == SteelProfiles[0]
    ensures FindOptimalProfile(requiredArea, requiredInertia).name == "40x40x3"
  {
    var p := FindOptimalProfile(requiredArea, requiredInertia);
    OptimalProfileAdequateAndLightest(requiredArea, requiredInertia, SteelProfiles[0]);
    var k :| 0 <= k < |SteelProfiles| && SteelProfiles[k] == p;
    CatalogueShape();
    assert k == 0;
  }

  /** Raising either requirement never yields a lighter profile. */
  lemma RaisingRequirementsNeverLighter(a1: real, i1: real, a2: real, i2: real)
    requires a1 <= a2 && i1 <= i2
    ensures FindOptimalProfile(a1, i1).massPerMeter <= FindOptimalProfile(a2, i2).massPerMeter
  {
    var p2 := FindOptimalProfile(a2, i2);
    CatalogueShape();
    if AnyMeets(a2, i2) {
      var k :| IsFirstLightest(SteelProfiles, k, a2, i2) && SteelProfiles[k] == p2;
      OptimalProfileAdequateAndLightest(a1, i1, p2);
    }
  }
}
