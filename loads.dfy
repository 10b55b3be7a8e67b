/**
  Design snow and wind loads (src/engineering/loads.ts): the normative ground
  snow load of the region, reduced by the roof-slope coefficient mu, times the
  load safety factor 1.4, rounded to two decimals; the wind load is a fixed
  placeholder value.
*/
module Loads {
  import opened JsRuntime
  import opened Types

  /** Normative ground snow load Sg of each region, kgf/m². */
  function NormativeSnowLoad(region: SnowRegion): (sg: real)
    ensures 80.0 <= sg <= 560.0
  {
    match region
    case I => 80.0
    case II => 120.0
    case III => 180.0
    case IV => 240.0
    case V => 320.0
    case VI => 400.0
    case VII => 480.0
    case VIII => 560.0
  }

  /** Position of a region in the order I < II < ... < VIII. */
  function RegionRank(region: SnowRegion): (k: nat)
    ensures k < 8
  {
    match region
    case I => 0
    case II => 1
    case III => 2
    case IV => 3
    case V => 4
    case VI => 5
    case VII => 6
    case VIII => 7
  }

  /** The table grows strictly from region I to region VIII. */
  lemma NormativeSnowLoadIncreasing(r1: SnowRegion, r2: SnowRegion)
    requires RegionRank(r1) < RegionRank(r2)
    ensures NormativeSnowLoad(r1) < NormativeSnowLoad(r2)
  {
  }

  /**
    The coefficient mu from ground snow to roof snow: 1 up to 25 degrees,
    falling linearly to 0 at 60 degrees, 0 beyond.
  */
  function SnowCoefficient(roofAngle: real): (mu: real)
    ensures 0.0 <= mu <= 1.0
    ensures roofAngle <= 25.0 ==> mu == 1.0
    ensures roofAngle > 60.0 ==> mu == 0.0
    ensures 25.0 <= roofAngle <= 60.0 ==> mu == (60.0 - roofAngle) / 35.0
  {
    var mu := 1.0;
    if roofAngle > 60.0 then 0.0
    else if roofAngle > 25.0 then (60.0 - roofAngle) / 35.0
    else mu
  }

  /** A steeper roof never holds more snow. */
  lemma SnowCoefficientNonIncreasing(a: real, b: real)
    requires a <= b
    ensures SnowCoefficient(b) <= SnowCoefficient(a)
  {
  }

  /** The load safety factor gamma_f. */
  const LoadFactor: real := 1.4

  /** The design snow load before rounding: mu * Ce * Ct * Sg * gamma_f with Ce = Ct = 1. */
  function UnroundedSnowLoad(region: SnowRegion, roofAngle: real): real
  {
    var ce, ct := 1.0, 1.0;
    SnowCoefficient(roofAngle) * ce * ct * NormativeSnowLoad(region) * LoadFactor
  }

  /** Design snow load S on 1 m² of horizontal roof projection, kg/m², rounded to 2 decimals. */
  function CalculateSnowLoad(region: SnowRegion, roofAngle: real): (s: real)
    ensures 0.0 <= s
    ensures roofAngle > 60.0 ==> s == 0.0
    ensures Abs(s - UnroundedSnowLoad(region, roofAngle)) * 100.0 <= 0.5
  {
    var full := UnroundedSnowLoad(region, roofAngle);
    assert 0.0 <= full <= 1.0 * 560.0 * LoadFactor;
    var s := RoundFixed(full, 2);
    assert Pow10(2) == 100;
    RoundFixedClose(full, 2, s, 100.0);
    s
  }

  /** The design snow load is a whole number of hundredths, as parseFloat(toFixed(2)) gives. */
  lemma SnowLoadInHundredths(region: SnowRegion, roofAngle: real, s: real)
    requires s == CalculateSnowLoad(region, roofAngle)
    ensures s * 100.0 == (s * 100.0).Floor as real
  {
    var full := UnroundedSnowLoad(region, roofAngle);
    assert 0.0 <= full <= 1.0 * 560.0 * LoadFactor;
    assert Pow10(2) == 100;
    RoundFixedOnGrid(full, 2, s, 100.0);
  }

  /** For a fixed region the design snow load never grows with the roof angle. */
  lemma SnowLoadNonIncreasingInAngle(region: SnowRegion, a: real, b: real)
    requires a <= b
    ensures CalculateSnowLoad(region, b) <= CalculateSnowLoad(region, a)
  {
    SnowCoefficientNonIncreasing(a, b);
    var k := NormativeSnowLoad(region) * LoadFactor;
    assert UnroundedSnowLoad(region, b) == SnowCoefficient(b) * k;
    assert UnroundedSnowLoad(region, a) == SnowCoefficient(a) * k;
    MultiplyMonotone(SnowCoefficient(b), SnowCoefficient(a), k);
    RoundFixedMonotone(UnroundedSnowLoad(region, b), UnroundedSnowLoad(region, a), 2);
  }

  /** At the same angle a higher region never gives a lower design snow load. */
  lemma SnowLoadMonotoneInRegion(r1: SnowRegion, r2: SnowRegion, roofAngle: real)
    requires RegionRank(r1) <= RegionRank(r2)
    ensures CalculateSnowLoad(r1, roofAngle) <= CalculateSnowLoad(r2, roofAngle)
  {
    if r1 != r2 {
      NormativeSnowLoadIncreasing(r1, r2);
    }
    var mu := SnowCoefficient(roofAngle);
    assert UnroundedSnowLoad(r1, roofAngle) == NormativeSnowLoad(r1) * (mu * LoadFactor);
    assert UnroundedSnowLoad(r2, roofAngle) == NormativeSnowLoad(r2) * (mu * LoadFactor);
    MultiplyMonotone(NormativeSnowLoad(r1), NormativeSnowLoad(r2), mu * LoadFactor);
    RoundFixedMonotone(UnroundedSnowLoad(r1, roofAngle), UnroundedSnowLoad(r2, roofAngle), 2);
  }

  /** Region III on a 15-degree roof: mu = 1, so S = 180 * 1.4 = 252. */
  lemma RegionIIIAtFifteenDegrees()
    ensures CalculateSnowLoad(III, 15.0) == 252.0
  {
    assert UnroundedSnowLoad(III, 15.0) == 252.0;
    assert ScaledDigits(252.0, 2) == 25200;
  }

  /** Design wind load, kg/m²: a fixed placeholder value. */
  function CalculateWindLoad(): (w: real)
    ensures w == 30.0
  {
    30.0
  }
}
