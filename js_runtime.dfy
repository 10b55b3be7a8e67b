/**
  The JavaScript built-ins the calculator relies on, stated over Dafny's exact
  reals and strings: Number.prototype.toFixed and parseFloat of its result,
  the decimal rendering of natural numbers, String.prototype.padEnd, trim,
  includes and split(' ')[0], and Array.prototype.reduce for a sum.

  Math.sin, Math.cos, Math.atan2, Math.hypot, Math.PI and the shortest
  round-trip Number-to-string conversion cannot be computed over the reals;
  they are the fields of a JsMath value that every caller passes in.
*/
module JsRuntime {

  datatype Option<T> = None | Some(value: T)

  function Abs(x: real): (r: real)
    ensures r >= 0.0 && (r == x || r == -x)
  {
    if x < 0.0 then -x else x
  }

  /** The floating-point library of the host, as opaque functions. */
  datatype JsMath = JsMath(
    sin: real -> real,
    cos: real -> real,
    atan2: (real, real) -> real,
    hypot: (real, real) -> real,
    pi: real,
    numberToString: real -> string)

  /** What the model relies on: PI is positive and hypot is the Euclidean norm. */
  ghost predicate Sound(js: JsMath)
  {
    && js.pi > 0.0
    && forall dx: real, dy: real ::
         js.hypot(dx, dy) >= 0.0 && js.hypot(dx, dy) * js.hypot(dx, dy) == dx * dx + dy * dy
  }

  /** Array.prototype.reduce((s, v) => s + v, 0): a left fold. */
  function Sum(xs: seq<real>): real
  {
    if xs == [] then 0.0 else Sum(xs[..|xs| - 1]) + xs[|xs| - 1]
  }

  lemma {:induction false} SumAppend(xs: seq<real>, ys: seq<real>)
    ensures Sum(xs + ys) == Sum(xs) + Sum(ys)
    decreases |ys|
  {
    if ys == [] {
      assert xs + ys == xs;
    } else {
      var ys' := ys[..|ys| - 1];
      assert (xs + ys)[..|xs + ys| - 1] == xs + ys';
      SumAppend(xs, ys');
    }
  }

  // ---------------------------------------------------------------------------
  // Decimal rendering of naturals: (n).toString() for n < 1e21

  function Pow10(d: nat): (p: nat)
    ensures p >= 1
  {
    if d == 0 then 1 else 10 * Pow10(d - 1)
  }

  predicate IsDigit(c: char)
  {
    '0' <= c <= '9'
  }

  predicate AllDigits(s: string)
  {
    forall k :: 0 <= k < |s| ==> IsDigit(s[k])
  }

  function DigitChar(d: nat): (c: char)
    requires d < 10
    ensures IsDigit(c) && (c as int) - ('0' as int) == d
  {
    (('0' as int) + d) as char
  }

  function NatToString(n: nat): (s: string)
    ensures |s| >= 1 && AllDigits(s)
    ensures (s[0] == '0') <==> n == 0
  {
    if n < 10 then [DigitChar(n)] else NatToString(n / 10) + [DigitChar(n % 10)]
  }

  /** Number.prototype.toString() of an integer of magnitude below 10^21. */
  function IntToString(i: int): string
  {
    if i < 0 then "-" + NatToString(-i) else NatToString(i)
  }

  /** The value of a string of decimal digits, most significant first. */
  function DigitsValue(s: string): nat
    requires AllDigits(s)
  {
    if s == [] then 0 else 10 * DigitsValue(s[..|s| - 1]) + ((s[|s| - 1] as int) - ('0' as int))
  }

  lemma {:induction false} NatToStringRoundTrip(n: nat)
    ensures DigitsValue(NatToString(n)) == n
  {
    if n >= 10 {
      NatToStringRoundTrip(n / 10);
      var s := NatToString(n);
      assert s[..|s| - 1] == NatToString(n / 10);
    }
  }

  lemma {:induction false} DigitsValueAppend(a: string, b: string)
    requires AllDigits(a) && AllDigits(b)
    ensures AllDigits(a + b)
    ensures DigitsValue(a + b) == DigitsValue(a) * Pow10(|b|) + DigitsValue(b)
    decreases |b|
  {
    if b == [] {
      assert a + b == a;
    } else {
      var b' := b[..|b| - 1];
      assert (a + b)[..|a + b| - 1] == a + b';
      DigitsValueAppend(a, b');
      var c := (b[|b| - 1] as int) - ('0' as int);
      var A, P, B := DigitsValue(a), Pow10(|b'|), DigitsValue(b');
      assert DigitsValue(a + b) == 10 * (A * P + B) + c;
      assert DigitsValue(b) == 10 * B + c;
      assert Pow10(|b|) == 10 * P;
      ShiftDigit(A, P, B, c);
    }
  }

  lemma ShiftDigit(a: int, p: int, b: int, c: int)
    ensures 10 * (a * p + b) + c == a * (10 * p) + (10 * b + c)
  {
  }

  function Zeros(k: nat): (s: string)
    ensures |s| == k && forall i :: 0 <= i < k ==> s[i] == '0'
  {
    if k == 0 then [] else Zeros(k - 1) + "0"
  }

  lemma {:induction false} ZerosValue(k: nat)
    ensures AllDigits(Zeros(k)) && DigitsValue(Zeros(k)) == 0
  {
    if k > 0 {
      ZerosValue(k - 1);
      assert Zeros(k)[..k - 1] == Zeros(k - 1);
    }
  }

  // ---------------------------------------------------------------------------
  // Number.prototype.toFixed(d) and parseFloat of its result

  /** toFixed leaves fixed notation for |x| >= 10^21. */
  const FixedLimit: int := 1000000000000000000000

  /** The integer n for which n / 10^d is closest to |x|, the larger one on a tie. */
  function ScaledDigits(x: real, d: nat): nat
  {
    var z := Abs(x) * Pow10(d) as real + 0.5;
    assert z > 0.0;
    z.Floor
  }

  /** parseFloat(x.toFixed(d)): x rounded half away from zero to d decimals. */
  function RoundFixed(x: real, d: nat): (r: real)
    ensures x >= 0.0 ==> r >= 0.0
    ensures x <= 0.0 ==> r <= 0.0
  {
    if Abs(x) >= FixedLimit as real then x
    else
      var m := ScaledDigits(x, d) as real / Pow10(d) as real;
      if x < 0.0 then -m else m
  }

  /** Below the limit, the rounded value is the scaled digits over 10^d, with the sign of x. */
  lemma RoundFixedValue(x: real, d: nat)
    requires Abs(x) < FixedLimit as real
    ensures var m := ScaledDigits(x, d) as real / Pow10(d) as real;
            RoundFixed(x, d) == if x < 0.0 then -m else m
  {
  }

  lemma ScaleDifference(u: real, n: real, p: real)
    requires p > 0.0
    ensures (u - n / p) * p == u * p - n
  {
  }

  /** Below the limit, the rounded value is a whole number of units of the d-th decimal place. */
  lemma RoundFixedOnGrid(x: real, d: nat, r: real, unit: real)
    requires Abs(x) < FixedLimit as real
    requires r == RoundFixed(x, d) && unit == Pow10(d) as real
    ensures r * unit == (r * unit).Floor as real
  {
    RoundFixedValue(x, d);
    WholeMultiple(r, ScaledDigits(x, d), unit, x < 0.0);
  }

  /** Plus or minus n / p, times p, is a whole number. */
  lemma WholeMultiple(r: real, n: int, p: real, negative: bool)
    requires p > 0.0
    requires r == if negative then -(n as real / p) else n as real / p
    ensures r * p == (r * p).Floor as real
  {
    var units := if negative then -n else n;
    assert r * p == units as real;
  }

  /** The rounded value is within half a unit of the last kept decimal. */
  lemma RoundFixedClose(x: real, d: nat, r: real, unit: real)
    requires Abs(x) < FixedLimit as real
    requires r == RoundFixed(x, d) && unit == Pow10(d) as real
    ensures Abs(r - x) * unit <= 0.5
  {
    var n := ScaledDigits(x, d);
    ScaledDigitsIs(x, d, unit, n);
    RoundFixedValue(x, d);
    RoundedClose(x, r, n as real, unit);
  }

  /** Plus or minus n / p is within half of 1 / p of x when n is |x| p rounded half up. */
  lemma RoundedClose(x: real, r: real, n: real, p: real)
    requires p > 0.0 && n <= Abs(x) * p + 0.5 < n + 1.0
    requires r == if x < 0.0 then -(n / p) else n / p
    ensures Abs(r - x) * p <= 0.5
  {
    var e := Abs(x) - n / p;
    ScaleDifference(Abs(x), n, p);
    CloseFromParts(r - x, e, p);
  }

  lemma CloseFromParts(delta: real, e: real, p: real)
    requires p > 0.0 && -0.5 <= e * p <= 0.5
    requires delta == e || delta == -e
    ensures Abs(delta) * p <= 0.5
  {
    if delta < 0.0 {
      assert Abs(delta) * p == -(delta * p);
    }
  }

  lemma MultiplyMonotone(a: real, b: real, p: real)
    requires p >= 0.0 && a <= b
    ensures a * p <= b * p
  {
  }

  lemma ScaledDigitsMonotone(x: real, y: real, d: nat)
    requires Abs(x) <= Abs(y)
    ensures ScaledDigits(x, d) <= ScaledDigits(y, d)
  {
    var p := Pow10(d) as real;
    var sx, sy := ScaledDigits(x, d), ScaledDigits(y, d);
    ScaledDigitsIs(x, d, p, sx);
    ScaledDigitsIs(y, d, p, sy);
    RoundedOrdered(Abs(x), Abs(y), p, sx, sy);
  }

  lemma ScaledDigitsIs(x: real, d: nat, p: real, s: int)
    requires p == Pow10(d) as real && s == ScaledDigits(x, d)
    ensures s == (Abs(x) * p + 0.5).Floor
  {
  }

  /** Rounding half up, after scaling by a positive p, preserves order. */
  lemma RoundedOrdered(a: real, b: real, p: real, sa: int, sb: int)
    requires a <= b && p > 0.0
    requires sa == (a * p + 0.5).Floor && sb == (b * p + 0.5).Floor
    ensures sa <= sb
  {
    MultiplyMonotone(a, b, p);
  }

  lemma ScaledDigitsBelowLimit(x: real, d: nat)
    requires Abs(x) < FixedLimit as real
    ensures ScaledDigits(x, d) <= FixedLimit * Pow10(d)
  {
    var p := Pow10(d) as real;
    var k := FixedLimit * Pow10(d);
    MultiplyMonotone(Abs(x), FixedLimit as real, p);
    assert (FixedLimit as real) * p == k as real;
    var z := Abs(x) * p + 0.5;
    assert z < k as real + 1.0;
    assert ScaledDigits(x, d) == z.Floor;
  }

  lemma DivideMonotone(a: real, b: real, p: real)
    requires p > 0.0 && a <= b
    ensures a / p <= b / p
  {
  }

  lemma DivideProduct(a: int, p: int)
    requires p > 0
    ensures (a * p) as real / p as real == a as real
  {
  }

  /** Below the limit, the rounded magnitude never exceeds the limit. */
  lemma RoundFixedBelowLimit(x: real, d: nat)
    requires Abs(x) < FixedLimit as real
    ensures Abs(RoundFixed(x, d)) <= FixedLimit as real
  {
    var p := Pow10(d);
    ScaledDigitsBelowLimit(x, d);
    DivideMonotone(ScaledDigits(x, d) as real, (FixedLimit * p) as real, p as real);
    DivideProduct(FixedLimit, p);
  }

  lemma RoundFixedMonotoneBelow(x: real, y: real, d: nat)
    requires x <= y && Abs(x) < FixedLimit as real && Abs(y) < FixedLimit as real
    ensures RoundFixed(x, d) <= RoundFixed(y, d)
  {
    var p := Pow10(d) as real;
    var nx, ny := ScaledDigits(x, d) as real, ScaledDigits(y, d) as real;
    RoundFixedValue(x, d);
    RoundFixedValue(y, d);
    if 0.0 <= x {
      ScaledDigitsMonotone(x, y, d);
      DivideMonotone(nx, ny, p);
    } else if y < 0.0 {
      ScaledDigitsMonotone(y, x, d);
      DivideMonotone(ny, nx, p);
    } else {
      assert -(nx / p) <= 0.0 <= ny / p;
    }
  }

  /** Rounding to d decimals never reverses an order. */
  lemma RoundFixedMonotone(x: real, y: real, d: nat)
    requires x <= y
    ensures RoundFixed(x, d) <= RoundFixed(y, d)
  {
    var L := FixedLimit as real;
    if Abs(x) < L && Abs(y) < L {
      RoundFixedMonotoneBelow(x, y, d);
    } else if Abs(x) < L {
      RoundFixedBelowLimit(x, d);
    } else if Abs(y) < L {
      RoundFixedBelowLimit(y, d);
    }
  }

  /** The digits of n with a decimal point d places from the right, zero-padded on the left. */
  function InsertPoint(m: string, d: nat): (s: string)
  {
    if d == 0 then m else Pointed(ZeroPad(m, d), d)
  }

  /** A digit string with a point d places from the right. */
  function Pointed(z: string, d: nat): (s: string)
    requires d < |z|
  {
    z[..|z| - d] + "." + z[|z| - d..]
  }

  /** The digits m with zeros in front, up to at least d + 1 of them. */
  function ZeroPad(m: string, d: nat): (z: string)
    ensures |z| >= d + 1 && |z| >= |m|
  {
    if |m| <= d then Zeros(d + 1 - |m|) + m else m
  }

  /** Number.prototype.toFixed(d). */
  function ToFixed(js: JsMath, x: real, d: nat): (s: string)
  {
    if Abs(x) >= FixedLimit as real then js.numberToString(x)
    else (if x < 0.0 then "-" else "") + InsertPoint(NatToString(ScaledDigits(x, d)), d)
  }

  // ---------------------------------------------------------------------------
  // String helpers

  /** String.prototype.padEnd(w) with the default pad string " ". */
  function PadEnd(s: string, w: nat): (r: string)
    ensures |r| == if |s| >= w then |s| else w
    ensures r[..|s|] == s
    ensures forall k :: |s| <= k < |r| ==> r[k] == ' '
    decreases w - |s|
  {
    if |s| >= w then s else PadEnd(s + " ", w)
  }

  /** t occurs in s starting at index k. */
  predicate OccursAt(s: string, t: string, k: nat)
  {
    k + |t| <= |s| && s[k..k + |t|] == t
  }

  /** String.prototype.includes(t): t occurs in s at some position. */
  predicate Includes(s: string, t: string)
  {
    exists k :: 0 <= k <= |s| - |t| && OccursAt(s, t, k)
  }

  /** A string whose first character is absent from s does not occur in s. */
  lemma IncludesNeedsHead(s: string, t: string)
    requires t != [] && t[0] !in s
    ensures !Includes(s, t)
  {

  }

  /** s.split(' ')[0]: everything before the first space. */
  function FirstWord(s: string): (w: string)
    ensures w <= s && ' ' !in w
    ensures w == s || s[|w|] == ' '
  {
    if s == [] || s[0] == ' ' then [] else [s[0]] + FirstWord(s[1..])
  }

  /** The first word of a space-separated string is its part before the first space. */
  lemma {:induction false} FirstWordOf(a: string, rest: string)
    requires ' ' !in a
    ensures FirstWord(a + " " + rest) == a
  {
    if a != [] {
      assert (a + " " + rest)[1..] == a[1..] + " " + rest;
      FirstWordOf(a[1..], rest);
    }
  }

  /** WhiteSpace and LineTerminator code points, which String.prototype.trim removes. */
  predicate IsJsWhitespace(c: char)
  {
    || c == '\t' || c == '\n' || c == '\U{B}' || c == '\U{C}' || c == '\r' || c == ' '
    || c == '\U{A0}' || c == '\U{1680}' || ('\U{2000}' <= c <= '\U{200A}')
    || c == '\U{2028}' || c == '\U{2029}' || c == '\U{202F}' || c == '\U{205F}'
    || c == '\U{3000}' || c == '\U{FEFF}'
  }

  /** r is what is left of s after dropping a prefix. */
  predicate IsSuffix(r: string, s: string)
  {
    |r| <= |s| && s[|s| - |r|..] == r
  }

  function TrimStart(s: string): (r: string)
    ensures r == [] || !IsJsWhitespace(r[0])
    ensures IsSuffix(r, s)
  {
    if s != [] && IsJsWhitespace(s[0]) then
      var r := TrimStart(s[1..]);
      assert s[1..][|s| - 1 - |r|..] == s[|s| - |r|..];
      r
    else s
  }

  function TrimEnd(s: string): (r: string)
    ensures r == [] || !IsJsWhitespace(r[|r| - 1])
    ensures r <= s
  {
    if s != [] && IsJsWhitespace(s[|s| - 1]) then TrimEnd(s[..|s| - 1]) else s
  }

  /** String.prototype.trim(). */
  function Trim(s: string): string
  {
    TrimStart(TrimEnd(s))
  }

  /** A string with one whitespace character at each end and none just inside them loses exactly those two. */
  lemma TrimOneEach(s: string)
    requires |s| >= 4
    requires IsJsWhitespace(s[0]) && !IsJsWhitespace(s[1])
    requires IsJsWhitespace(s[|s| - 1]) && !IsJsWhitespace(s[|s| - 2])
    ensures Trim(s) == s[1..|s| - 1]
  {
    var e := s[..|s| - 1];
    assert TrimEnd(e) == e;
    assert TrimEnd(s) == e;
    assert TrimStart(e[1..]) == e[1..];
    assert e[1..] == s[1..|s| - 1];
  }

  /** Padding a string that ends in a visible character and trimming its end gives it back. */
  lemma TrimEndPadEnd(s: string, w: nat)
    requires s != [] && !IsJsWhitespace(s[|s| - 1])
    ensures TrimEnd(PadEnd(s, w)) == s
  {
    TrimEndOfPadded(s, PadEnd(s, w));
  }

  lemma {:induction false} TrimEndOfPadded(s: string, r: string)
    requires s != [] && !IsJsWhitespace(s[|s| - 1])
    requires |s| <= |r| && r[..|s|] == s
    requires forall k :: |s| <= k < |r| ==> r[k] == ' '
    ensures TrimEnd(r) == s
    decreases |r|
  {
    if |r| == |s| {
      assert r == s;
    } else {
      assert r[..|r| - 1][..|s|] == s;
      TrimEndOfPadded(s, r[..|r| - 1]);
    }
  }

  // ---------------------------------------------------------------------------
  // parseFloat of a toFixed(d) string

  /** The number written as the digits of a, a point, and the d digits of b. */
  function DecimalValue(a: nat, b: nat, d: nat): real
  {
    a as real + b as real / Pow10(d) as real
  }

  /** ... which is the digits of a and b run together, over 10^d. */
  lemma DecimalValueScaled(a: nat, b: nat, d: nat)
    ensures DecimalValue(a, b, d) == (a * Pow10(d) + b) as real / Pow10(d) as real
  {
    var p := Pow10(d);
    CastProduct(a, p);
    assert (a * p + b) as real == a as real * p as real + b as real;
    SplitQuotient(a as real, b as real, p as real);
  }

  /** The value of an unsigned toFixed(d) string: digits, then for d > 0 a point and d digits. */
  function ParseUnsignedFixed(s: string, d: nat): Option<real>
  {
    if d == 0 then
      if s != [] && AllDigits(s) then Some(DigitsValue(s) as real) else None
    else if |s| >= d + 2 && s[|s| - d - 1] == '.' && AllDigits(s[..|s| - d - 1]) && AllDigits(s[|s| - d..]) then
      Some(DecimalValue(DigitsValue(s[..|s| - d - 1]), DigitsValue(s[|s| - d..]), d))
    else None
  }

  /** parseFloat of a string of the shape toFixed(d) produces, with an optional minus sign. */
  function ParseFixed(s: string, d: nat): Option<real>
  {
    if s != [] && s[0] == '-' then
      match ParseUnsignedFixed(s[1..], d)
      case Some(v) => Some(-v)
      case None => None
    else ParseUnsignedFixed(s, d)
  }

  /** Digits, points and minus signs only, ending in a digit: no blank and no line break. */
  predicate FixedShape(s: string)
  {
    && s != [] && IsDigit(s[|s| - 1])
    && forall k :: 0 <= k < |s| ==> IsDigit(s[k]) || s[k] == '.' || s[k] == '-'
  }

  lemma SplitQuotient(a: real, b: real, p: real)
    requires p > 0.0
    ensures a + b / p == (a * p + b) / p
  {
  }

  lemma CastProduct(a: int, b: int)
    ensures (a * b) as real == a as real * b as real
  {
  }

  /** The digits of n, zero-padded to at least d + 1 of them, still read as n. */
  lemma PaddedDigits(n: nat, d: nat)
    ensures AllDigits(ZeroPad(NatToString(n), d)) && DigitsValue(ZeroPad(NatToString(n), d)) == n
  {
    var m := NatToString(n);
    NatToStringRoundTrip(n);
    if |m| <= d {
      ZerosBefore(m, d + 1 - |m|);
    }
  }

  /** Leading zeros do not change what digits read as. */
  lemma ZerosBefore(m: string, k: nat)
    requires AllDigits(m)
    ensures AllDigits(Zeros(k) + m) && DigitsValue(Zeros(k) + m) == DigitsValue(m)
  {
    ZerosValue(k);
    DigitsValueAppend(Zeros(k), m);
    assert DigitsValue(Zeros(k)) * Pow10(|m|) == 0;
  }

  /** Digits, a point and d more digits parse as the corresponding decimal. */
  lemma ParsePointed(hi: string, lo: string, d: nat)
    requires d > 0 && |lo| == d && hi != [] && AllDigits(hi) && AllDigits(lo)
    ensures ParseUnsignedFixed(hi + "." + lo, d) == Some(DecimalValue(DigitsValue(hi), DigitsValue(lo), d))
  {
    var s := hi + "." + lo;
    assert s[|s| - d - 1] == '.';
    assert s[..|s| - d - 1] == hi && s[|s| - d..] == lo;
  }

  /** A digit string split d places from the right, with a point between the halves. */
  lemma PointedValue(z: string, d: nat)
    requires d > 0 && |z| >= d + 1 && AllDigits(z)
    ensures ParseUnsignedFixed(Pointed(z, d), d) == Some(DigitsValue(z) as real / Pow10(d) as real)
  {
    var hi, lo := z[..|z| - d], z[|z| - d..];
    assert z == hi + lo && |lo| == d;
    DigitsValueAppend(hi, lo);
    DecimalValueScaled(DigitsValue(hi), DigitsValue(lo), d);
    ParsePointed(hi, lo, d);
    assert Pointed(z, d) == hi + "." + lo;
  }

  lemma PointedShape(z: string, d: nat)
    requires d > 0 && |z| >= d + 1 && AllDigits(z)
    ensures FixedShape(Pointed(z, d)) && IsDigit(Pointed(z, d)[0])
  {
  }

  /** The unsigned part of toFixed(d) reads back as n / 10^d. */
  lemma InsertPointValue(n: nat, d: nat)
    ensures var s := InsertPoint(NatToString(n), d);
            ParseUnsignedFixed(s, d) == Some(n as real / Pow10(d) as real)
            && FixedShape(s) && IsDigit(s[0])
  {
    if d == 0 {
      var m := NatToString(n);
      NatToStringRoundTrip(n);
      assert InsertPoint(m, d) == m && Pow10(d) == 1;
      assert ParseUnsignedFixed(m, d) == Some(n as real);
      assert n as real / Pow10(d) as real == n as real;
      assert IsDigit(m[0]) && IsDigit(m[|m| - 1]);
    } else {
      InsertPointFraction(n, d);
    }
  }

  lemma InsertPointFraction(n: nat, d: nat)
    requires d > 0
    ensures var s := InsertPoint(NatToString(n), d);
            ParseUnsignedFixed(s, d) == Some(n as real / Pow10(d) as real)
            && FixedShape(s) && IsDigit(s[0])
  {
    var z := ZeroPad(NatToString(n), d);
    PaddedDigits(n, d);
    PointedValue(z, d);
    PointedShape(z, d);
  }

  /** parseFloat(x.toFixed(d)) is x rounded to d decimals, and the text has no blank or line break. */
  lemma ToFixedParses(js: JsMath, x: real, d: nat)
    requires Abs(x) < FixedLimit as real
    ensures ParseFixed(ToFixed(js, x, d), d) == Some(RoundFixed(x, d))
    ensures FixedShape(ToFixed(js, x, d))
  {
    var n := ScaledDigits(x, d);
    var v := n as real / Pow10(d) as real;
    var r := if x < 0.0 then -v else v;
    assert RoundFixed(x, d) == r by {
      RoundFixedValue(x, d);
    }
    var u := InsertPoint(NatToString(n), d);
    assert ToFixed(js, x, d) == (if x < 0.0 then "-" else "") + u;
    assert ParseFixed(ToFixed(js, x, d), d) == Some(r) && FixedShape(ToFixed(js, x, d)) by {
      InsertPointValue(n, d);
      SignedParse(u, d, v, x < 0.0);
    }
  }

  /** A minus sign in front of an unsigned toFixed string negates what it reads as. */
  lemma SignedParse(u: string, d: nat, v: real, negative: bool)
    requires ParseUnsignedFixed(u, d) == Some(v) && FixedShape(u) && IsDigit(u[0])
    ensures ParseFixed((if negative then "-" else "") + u, d) == Some(if negative then -v else v)
    ensures FixedShape((if negative then "-" else "") + u)
  {
    if negative {
      assert ("-" + u)[1..] == u;
      MinusShape(u);
    } else {
      assert "" + u == u;
    }
  }

  /** Below the limit, toFixed prints a single line with no blanks. */
  lemma ToFixedNoBreak(js: JsMath, x: real, d: nat)
    requires Abs(x) < FixedLimit as real
    ensures '\n' !in ToFixed(js, x, d)
  {
    ToFixedParses(js, x, d);
    FixedShapeNoBreak(ToFixed(js, x, d));
  }

  lemma FixedShapeNoBreak(s: string)
    requires FixedShape(s)
    ensures '\n' !in s && !IsJsWhitespace(s[|s| - 1])
  {
  }

  lemma MinusShape(u: string)
    requires FixedShape(u)
    ensures FixedShape("-" + u)
  {
    var s := "-" + u;
    assert forall k :: 1 <= k < |s| ==> s[k] == u[k - 1];
  }

  // ---------------------------------------------------------------------------
  // Text made of lines, and String.prototype.split("\n")

  /** Each line followed by a line feed, as a template literal ending in "\n" writes it. */
  function Lines(xs: seq<string>): string
  {
    if xs == [] then "" else xs[0] + "\n" + Lines(xs[1..])
  }

  lemma {:induction false} LinesAppend(a: seq<string>, b: seq<string>)
    ensures Lines(a + b) == Lines(a) + Lines(b)
  {
    if a != [] {
      assert (a + b)[0] == a[0] && (a + b)[1..] == a[1..] + b;
      LinesAppend(a[1..], b);
      assert a[0] + "\n" + (Lines(a[1..]) + Lines(b)) == (a[0] + "\n" + Lines(a[1..])) + Lines(b);
    } else {
      assert a + b == b;
    }
  }

  /** Appending one more line to the text. */
  lemma LinesSnoc(xs: seq<string>, x: string)
    ensures Lines(xs + [x]) == Lines(xs) + x + "\n"
  {
    LinesAppend(xs, [x]);
    assert Lines([x]) == x + "\n" + Lines([]);
  }

  /** Array.prototype.join("\n"): line feeds between the lines only. */
  function Join(xs: seq<string>): string
    requires xs != []
  {
    if |xs| == 1 then xs[0] else xs[0] + "\n" + Join(xs[1..])
  }

  /** Ending every line is joining them and adding one final line feed. */
  lemma {:induction false} LinesJoin(xs: seq<string>)
    requires xs != []
    ensures Lines(xs) == Join(xs) + "\n"
  {
    if |xs| > 1 {
      LinesJoin(xs[1..]);
    }
  }

  /** The joined text starts with the first line and ends with the last. */
  lemma {:induction false} JoinEnds(xs: seq<string>)
    requires xs != []
    ensures xs[0] <= Join(xs)
    ensures var t := Join(xs); var l := xs[|xs| - 1]; |l| <= |t| && t[|t| - |l|..] == l
  {
    if |xs| > 1 {
      JoinEnds(xs[1..]);
    }
  }

  /** String.prototype.split("\n"). */
  function Split(s: string): (r: seq<string>)
    ensures r != []
    ensures forall k :: 0 <= k < |r| ==> '\n' !in r[k]
  {
    if s == [] then [""]
    else if s[0] == '\n' then [""] + Split(s[1..])
    else
      var r := Split(s[1..]);
      [[s[0]] + r[0]] + r[1..]
  }

  lemma {:induction false} SplitWithoutBreak(x: string)
    requires '\n' !in x
    ensures Split(x) == [x]
  {
    if x != [] {
      SplitWithoutBreak(x[1..]);
      assert [x[0]] + x[1..] == x;
    }
  }

  lemma {:induction false} SplitAfterLine(x: string, rest: string)
    requires '\n' !in x
    ensures Split(x + "\n" + rest) == [x] + Split(rest)
  {
    var s := x + "\n" + rest;
    if x == [] {
      assert s == "\n" + rest && s[1..] == rest;
    } else {
      assert s[0] == x[0] && s[1..] == x[1..] + "\n" + rest;
      SplitAfterLine(x[1..], rest);
      assert [x[0]] + x[1..] == x;
    }
  }

  /** Splitting joined lines that hold no line feed gives the lines back. */
  lemma {:induction false} SplitJoin(xs: seq<string>)
    requires xs != []
    requires forall k :: 0 <= k < |xs| ==> '\n' !in xs[k]
    ensures Split(Join(xs)) == xs
  {
    if |xs| == 1 {
      SplitWithoutBreak(xs[0]);
    } else {
      SplitJoin(xs[1..]);
      SplitAfterLine(xs[0], Join(xs[1..]));
    }
  }

  /** Splitting text whose every line ends in a line feed gives the lines and one empty string after them. */
  lemma {:induction false} SplitLines(xs: seq<string>)
    requires forall k :: 0 <= k < |xs| ==> '\n' !in xs[k]
    ensures Split(Lines(xs)) == xs + [""]
  {
    if xs != [] {
      SplitLines(xs[1..]);
      SplitAfterLine(xs[0], Lines(xs[1..]));
    }
  }
}
