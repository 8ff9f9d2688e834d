/**
 * The number formats of process accounting: comp_t, comp2_t and a 32-bit float.
 */
module Acct {

  // ---------------------------------------------------------------- powers and division

  function Pow(b: nat, e: nat): nat { if e == 0 then 1 else b * Pow(b, e - 1) }

  lemma PowPos(b: nat, e: nat)
    requires b > 0
    ensures Pow(b, e) > 0
  {
  }

  lemma MulMono(a: nat, b: nat, p: nat)
    requires a <= b
    ensures a * p <= b * p
  {
  }

  lemma DivIs(x: nat, n: nat, k: nat)
    requires n > 0 && k * n <= x < k * n + n
    ensures x / n == k
  {
    var q := x / n;
    assert (q + 1) * n == q * n + n && (k + 1) * n == k * n + n;
    if q < k { MulMono(q + 1, k, n); }
    if q > k { MulMono(k + 1, q, n); }
  }

  // ---------------------------------------------------------------- rounding to a unit

  /** The multiple of `u` nearest to `v`, the larger one of two. */
  function HalfUp(v: nat, u: nat): nat
    requires u > 0
  {
    (2 * v + u) / (2 * u) * u
  }

  /** k units is `v` rounded half up. */
  ghost predicate Nearest(v: nat, k: nat, u: nat) {
    2 * (k * u) <= 2 * v + u < 2 * (k * u) + 2 * u
  }

  lemma NearestIs(v: nat, k: nat, u: nat)
    requires u > 0 && Nearest(v, k, u)
    ensures (2 * v + u) / (2 * u) == k && HalfUp(v, u) == k * u
  {
    assert k * (2 * u) == 2 * (k * u);
    DivIs(2 * v + u, 2 * u, k);
  }

  lemma NearestMono(v: nat, k: nat, w: nat, l: nat, u: nat)
    requires v <= w && u > 0 && Nearest(v, k, u) && Nearest(w, l, u)
    ensures k <= l
  {
    assert (l + 1) * u == l * u + u;
    if k > l { MulMono(l + 1, k, u); }
  }

  /** How often `v` is divided by `b` before it is below `top`. */
  function Scale(v: nat, b: nat, top: nat): nat
    requires b >= 2 && top > 0
  {
    if v < top then 0 else 1 + Scale(v / b, b, top)
  }

  /** The unit `v` is rounded to. */
  function Unit(v: nat, b: nat, top: nat): (u: nat)
    requires b >= 2 && top > 0
    ensures u > 0
  {
    PowPos(b, Scale(v, b, top));
    Pow(b, Scale(v, b, top))
  }

  /** The rounded mantissa. */
  function Kept(v: nat, b: nat, top: nat): nat
    requires b >= 2 && top > 0
  {
    (2 * v + Unit(v, b, top)) / (2 * Unit(v, b, top))
  }

  /** One digit more is dropped: what is dropped in all is a half or more exactly when that digit is. */
  lemma DropDigit(v: nat, q: nat, d: nat, p: nat, r: nat, b: nat)
    requires b % 2 == 0 && d < b && r < p && v == (b * q + d) * p + r
    ensures d * p + r < b * p && v == q * (b * p) + (d * p + r)
    ensures 2 * (d * p + r) >= b * p <==> d >= b / 2
  {
    MulMono(d + 1, b, p);
    assert (d + 1) * p == d * p + p;
    assert (b * q + d) * p == q * (b * p) + d * p by { DistributeDigit(b, q, d, p); }
    if d >= b / 2 {
      MulMono(b / 2, d, p);
      assert 2 * (b / 2 * p) == b * p by { HalfTimes(b, p); }
    } else {
      MulMono(d + 1, b / 2, p);
      assert 2 * (b / 2 * p) == b * p by { HalfTimes(b, p); }
    }
  }

  lemma HalfTimes(b: nat, p: nat)
    requires b % 2 == 0
    ensures 2 * (b / 2 * p) == b * p
  {
  }

  lemma DistributeDigit(b: nat, q: nat, d: nat, p: nat)
    ensures (b * q + d) * p == q * (b * p) + d * p
  {
  }

  /** Rounding up a quotient whose remainder is a half or more gives the nearest multiple. */
  lemma RoundedQuotient(v: nat, q: nat, p: nat, r: nat, up: bool)
    requires v == q * p + r && r < p && (up <==> 2 * r >= p)
    ensures Nearest(v, if up then q + 1 else q, p)
  {
  }

  lemma DivLess(v: nat, b: nat)
    requires b >= 2 && v > 0
    ensures v / b < v
  {
  }

  lemma UnitStep(v: nat, b: nat, top: nat)
    requires b >= 2 && v >= top > 0
    ensures Unit(v, b, top) == b * Unit(v / b, b, top) && Scale(v, b, top) == 1 + Scale(v / b, b, top)
  {
  }

  lemma {:induction false} ScaleUpper(v: nat, b: nat, top: nat)
    requires b >= 2 && top > 0
    ensures v < top * Unit(v, b, top)
    decreases v
  {
    if v >= top {
      UnitStep(v, b, top);
      DivLess(v, b);
      ScaleUpper(v / b, b, top);
      hide Unit, Scale;
      var u := Unit(v / b, b, top);
      DivBounds(v, b);
      Regroup(top, b, u);
      BelowTimes(v, v / b, b, top * u);
    }
  }

  lemma {:induction false} ScaleLower(v: nat, b: nat, top: nat)
    requires b >= 2 && top > 0 && top % b == 0 && v >= top
    ensures v >= top / b * Unit(v, b, top)
    decreases v
  {
    UnitStep(v, b, top);
    DivBounds(top, b);
    var u := Unit(v / b, b, top);
    if v / b >= top {
      DivLess(v, b);
      ScaleLower(v / b, b, top);
      hide Unit, Scale;
      DivBounds(v, b);
      Regroup(top / b, b, u);
      AboveTimes(v, v / b, b, top / b * u);
    } else {
      assert u == 1;
      assert b * u == b;
    }
  }

  lemma ScaleBounds(v: nat, b: nat, top: nat)
    requires b >= 2 && top > 0 && top % b == 0
    ensures v < top * Unit(v, b, top)
    ensures Scale(v, b, top) > 0 ==> v >= top / b * Unit(v, b, top)
  {
    ScaleUpper(v, b, top);
    if v >= top { ScaleLower(v, b, top); }
  }

  lemma DivBounds(v: nat, b: nat)
    requires b > 0
    ensures b * (v / b) <= v < b * (v / b) + b && (v % b == 0 ==> v / b * b == v)
  {
  }

  lemma Regroup(a: nat, b: nat, u: nat)
    ensures a * (b * u) == b * (a * u)
  {
  }

  lemma BelowTimes(v: nat, w: nat, b: nat, t: nat)
    requires v < b * w + b && w < t
    ensures v < b * t
  {
    MulMono(w + 1, t, b);
    assert (w + 1) * b == b * w + b;
  }

  lemma AboveTimes(v: nat, w: nat, b: nat, t: nat)
    requires b * w <= v && t <= w
    ensures b * t <= v
  {
  }

  lemma DivMono(v: nat, w: nat, b: nat)
    requires b > 0 && v <= w
    ensures v / b <= w / b
  {
    DivBounds(v, b);
    DivBounds(w, b);
    var x, y := v / b, w / b;
    assert (y + 1) * b == b * y + b && x * b == b * x;
    if x > y { MulMono(y + 1, x, b); }
  }

  lemma KeptNearest(v: nat, b: nat, top: nat)
    requires b >= 2 && top > 0
    ensures Nearest(v, Kept(v, b, top), Unit(v, b, top))
  {
  }

  lemma KeptBounds(v: nat, b: nat, top: nat)
    requires b >= 2 && top > 0 && top % b == 0
    ensures Kept(v, b, top) <= top && (Scale(v, b, top) > 0 ==> Kept(v, b, top) >= top / b)
    ensures Scale(v, b, top) == 0 ==> Kept(v, b, top) == v
  {
    var u, k := Unit(v, b, top), Kept(v, b, top);
    KeptNearest(v, b, top);
    ScaleBounds(v, b, top);
    AtMost(v, k, u, top);
    if Scale(v, b, top) > 0 {
      AtLeast(v, k, u, top / b);
    } else {
      AtMost(v, k, 1, v);
      AtLeast(v, k, 1, v);
    }
  }

  lemma AtMost(v: nat, k: nat, u: nat, top: nat)
    requires Nearest(v, k, u) && 2 * v < 2 * (top * u) + u
    ensures k <= top
  {
    assert (top + 1) * u == top * u + u;
    if k > top { MulMono(top + 1, k, u); }
  }

  lemma AtLeast(v: nat, k: nat, u: nat, low: nat)
    requires Nearest(v, k, u) && v >= low * u
    ensures k >= low
  {
    assert (k + 1) * u == k * u + u;
    if k + 1 <= low { MulMono(k + 1, low, u); }
  }

  lemma {:induction false} ScaleMono(v: nat, w: nat, b: nat, top: nat)
    requires b >= 2 && top > 0 && v <= w
    ensures Scale(v, b, top) <= Scale(w, b, top)
  {
    if v >= top {
      DivMono(v, w, b);
      DivLess(v, b);
      ScaleMono(v / b, w / b, b, top);
    }
  }

  lemma KeptMono(v: nat, w: nat, b: nat, top: nat)
    requires b >= 2 && top > 0 && v <= w && Scale(v, b, top) == Scale(w, b, top)
    ensures Kept(v, b, top) <= Kept(w, b, top)
  {
    KeptNearest(v, b, top);
    KeptNearest(w, b, top);
    NearestMono(v, Kept(v, b, top), w, Kept(w, b, top), Unit(v, b, top));
  }

  /** The state of an encoder's loop: `value` is what is left of v after e divisions, `up` whether to round up. */
  ghost predicate Reduced(v: nat, b: nat, top: nat, value: nat, e: nat, r: nat, up: bool)
    requires b >= 2 && top > 0
  {
    && v == value * Pow(b, e) + r && r < Pow(b, e) && (up <==> 2 * r >= Pow(b, e))
    && Scale(v, b, top) == e + Scale(value, b, top)
  }

  lemma ReducedStart(v: nat, b: nat, top: nat)
    requires b >= 2 && top > 0
    ensures Reduced(v, b, top, v, 0, 0, false)
  {
  }

  lemma ReducedStep(v: nat, b: nat, top: nat, value: nat, e: nat, r: nat, up: bool) returns (r': nat)
    requires b >= 2 && b % 2 == 0 && top > 0 && Reduced(v, b, top, value, e, r, up) && value >= top
    ensures Reduced(v, b, top, value / b, e + 1, r', value % b >= b / 2)
  {
    hide Pow, Scale, Reduced;
    Digits(value, b);
    ScaleStep(value, b, top);
    r' := ReducedNext(v, b, top, value, value / b, value % b, e, r, up);
  }

  lemma ReducedNext(v: nat, b: nat, top: nat, value: nat, q: nat, d: nat, e: nat, r: nat, up: bool) returns (r': nat)
    requires b >= 2 && b % 2 == 0 && top > 0 && Reduced(v, b, top, value, e, r, up)
    requires value == b * q + d && d < b && Scale(value, b, top) == 1 + Scale(q, b, top)
    ensures Reduced(v, b, top, q, e + 1, r', d >= b / 2)
  {
    PowStep(b, e);
    hide Pow, Scale;
    r' := d * Pow(b, e) + r;
    NextDigit(v, value, q, d, Pow(b, e), Pow(b, e + 1), r, b);
  }

  lemma PowStep(b: nat, e: nat)
    ensures Pow(b, e + 1) == b * Pow(b, e)
  {
  }

  lemma ScaleStep(value: nat, b: nat, top: nat)
    requires b >= 2 && top > 0 && value >= top
    ensures Scale(value, b, top) == 1 + Scale(value / b, b, top)
  {
  }

  lemma Digits(value: nat, b: nat)
    requires b > 0
    ensures value == b * (value / b) + value % b && value % b < b
  {
  }

  lemma NextDigit(v: nat, value: nat, q: nat, d: nat, p: nat, p': nat, r: nat, b: nat)
    requires value == b * q + d && b % 2 == 0 && d < b && r < p && v == value * p + r && p' == b * p
    ensures v == q * p' + (d * p + r) && d * p + r < p' && (d >= b / 2 <==> 2 * (d * p + r) >= p')
  {
    DropDigit(v, q, d, p, r, b);
  }

  lemma ReducedEnd(v: nat, b: nat, top: nat, value: nat, e: nat, r: nat, up: bool)
    requires b >= 2 && top > 0 && Reduced(v, b, top, value, e, r, up) && value < top
    ensures Scale(v, b, top) == e && Kept(v, b, top) == (if up then value + 1 else value)
  {
    RoundedQuotient(v, value, Pow(b, e), r, up);
    NearestIs(v, if up then value + 1 else value, Pow(b, e));
  }

  lemma {:induction false} PowMono(b: nat, d: nat, e: nat)
    requires b > 0 && d <= e
    ensures Pow(b, d) <= Pow(b, e)
  {
    if d < e {
      PowMono(b, d, e - 1);
      PowPos(b, e - 1);
      MulMono(1, b, Pow(b, e - 1));
    }
  }

  lemma MulMono2(a: nat, b: nat, p: nat, q: nat)
    requires a <= b && p <= q
    ensures a * p <= b * q
  {
  }

  lemma Pow8()
    ensures Pow(8, 7) == 2097152 && Pow(8, 8) == 16777216
  {
  }

  // ---------------------------------------------------------------- comp_t

  const MAXFRACT := 8191

  /** The 13-bit mantissa times the power of 8 given by the exponent. */
  function DecodeComp(c: nat): nat { c % 8192 * Pow(8, c / 8192) }

  /** Exponent and rounded mantissa side by side; a mantissa rounded up to 8192 is written as 1024 with the next exponent. */
  function CompCode(v: nat): nat {
    var e, k := Scale(v, 8, 8192), Kept(v, 8, 8192);
    if k == 8192 then (e + 1) * 8192 + 1024 else e * 8192 + k
  }

  /** The bit tested is whether the digit shifted out is a half or more. */
  lemma RoundBit(value: nat)
    ensures value / 4 % 2 == 1 <==> value % 8 >= 4
  {
  }

  /** Exponent and mantissa as they are when the loop has ended, and the code they make. */
  lemma CompPacked(v: nat, exp: nat, value: nat, rnd: bool)
    requires value <= MAXFRACT && Scale(v, 8, 8192) == exp && Kept(v, 8, 8192) == if rnd then value + 1 else value
    ensures CompCode(v) == if !rnd then exp * 8192 + value
                           else if value + 1 > MAXFRACT then (exp + 1) * 8192 + (value + 1) / 8
                           else exp * 8192 + value + 1
  {
    hide Scale, Kept;
  }

  /** encode_comp_t; its result is cut to 16 bits. */
  method EncodeComp(v: nat) returns (c: nat)
    ensures c == CompCode(v) % 65536
  {
    hide Reduced, Scale, Kept, CompCode;
    var value: nat, exp: nat, rnd := v, 0, false;
    ghost var r: nat := 0;
    ReducedStart(v, 8, 8192);
    while value > MAXFRACT
      invariant Reduced(v, 8, 8192, value, exp, r, rnd)
    {
      r := ReducedStep(v, 8, 8192, value, exp, r, rnd);
      RoundBit(value);
      rnd := value / 4 % 2 == 1;
      value := value / 8;
      exp := exp + 1;
    }
    ReducedEnd(v, 8, 8192, value, exp, r, rnd);
    CompPacked(v, exp, value, rnd);
    if rnd {
      value := value + 1;
      if value > MAXFRACT {
        value := value / 8;
        exp := exp + 1;
      }
    }
    c := (exp * 8192 + value) % 65536;
  }

  /** Before it is cut to 16 bits the code stands for the value rounded half up to a unit of its mantissa. */
  lemma CompRounds(v: nat)
    ensures DecodeComp(CompCode(v)) == HalfUp(v, Unit(v, 8, 8192))
  {
    var e, k := Scale(v, 8, 8192), Kept(v, 8, 8192);
    KeptBounds(v, 8, 8192);
    KeptNearest(v, 8, 8192);
    NearestIs(v, k, Unit(v, 8, 8192));
    if k == 8192 {
      assert CompCode(v) / 8192 == e + 1 && CompCode(v) % 8192 == 1024;
      assert Pow(8, e + 1) == 8 * Pow(8, e);
    } else {
      assert CompCode(v) / 8192 == e && CompCode(v) % 8192 == k;
    }
  }

  lemma CompOrder(v: nat, w: nat)
    requires v <= w
    ensures CompCode(v) <= CompCode(w)
  {
    hide Scale, Kept, Unit;
    KeptBounds(v, 8, 8192);
    KeptBounds(w, 8, 8192);
    ScaleMono(v, w, 8, 8192);
    if Scale(v, 8, 8192) == Scale(w, 8, 8192) { KeptMono(v, w, 8, 8192); }
  }

  /** 8191.5 * 8^7: from here on the rounded value needs an exponent of 8. */
  const COMP_LIMIT := 17178820608

  lemma CompLimit()
    ensures CompCode(COMP_LIMIT) == 65536 + 1024 && CompCode(COMP_LIMIT - 1) == 65535
  {
    Pow8();
    ScaleIs(COMP_LIMIT, 8, 8192, 7);
    ScaleIs(COMP_LIMIT - 1, 8, 8192, 7);
    NearestIs(COMP_LIMIT, 8192, 2097152);
    NearestIs(COMP_LIMIT - 1, 8191, 2097152);
  }

  lemma CompFits(v: nat)
    ensures CompCode(v) < 65536 <==> v < COMP_LIMIT
  {
    CompLimit();
    if v < COMP_LIMIT { CompOrder(v, COMP_LIMIT - 1); } else { CompOrder(COMP_LIMIT, v); }
  }

  /** encode_comp_t is right exactly below the limit, so for every 32-bit value. */
  lemma CompIsRight(v: nat)
    ensures DecodeComp(CompCode(v) % 65536) == HalfUp(v, Unit(v, 8, 8192)) <==> v < COMP_LIMIT
    ensures v < 0x1_0000_0000 ==> v < COMP_LIMIT
  {
    CompFits(v);
    CompRounds(v);
    if v >= COMP_LIMIT {
      TooLarge(v);
      SixteenBits(CompCode(v) % 65536);
    }
  }

  lemma SixteenBits(c: nat)
    requires c < 65536
    ensures DecodeComp(c) <= 8191 * 2097152
  {
    PowMono(8, c / 8192, 7);
    Pow8();
    MulMono2(c % 8192, 8191, Pow(8, c / 8192), 2097152);
  }

  lemma TooLarge(v: nat)
    requires v >= COMP_LIMIT
    ensures DecodeComp(CompCode(v)) >= 8192 * 2097152
  {
    CompFits(v);
    Pow8();
    KeptBounds(v, 8, 8192);
    var c := CompCode(v);
    PowMono(8, 8, c / 8192);
    assert c % 8192 >= 1024 && c / 8192 >= 8;
    MulMono2(1024, c % 8192, 16777216, Pow(8, c / 8192));
  }

  /** Rounding changes nothing exactly for multiples of the unit; below 8192 the unit is one. */
  lemma CompExact(v: nat)
    ensures DecodeComp(CompCode(v)) == v <==> v % Unit(v, 8, 8192) == 0
    ensures v < 8192 ==> Unit(v, 8, 8192) == 1 && CompCode(v) == v
  {
    CompRounds(v);
    HalfUpExact(v, Unit(v, 8, 8192));
    KeptBounds(v, 8, 8192);
  }

  lemma HalfUpExact(v: nat, u: nat)
    requires u > 0
    ensures HalfUp(v, u) == v <==> v % u == 0
  {
    if v % u == 0 {
      var q := v / u;
      assert v == q * u;
      NearestIs(v, q, u);
    } else {
      var k := (2 * v + u) / (2 * u);
      if k * u == v { MultipleMod(k, u); }
    }
  }

  lemma MultipleMod(k: nat, u: nat)
    requires u > 0
    ensures k * u % u == 0
  {
    DivIs(k * u, u, k);
  }

  // ---------------------------------------------------------------- comp2_t

  const LEAD := 524288 // 2^19, the leading bit of a mantissa
  const TOP2 := 1048576 // 2^20
  const MAXEXP2 := 31
  const LARGEST := 16777215 // 2^24 - 1

  /** The leading bit is implied when the exponent is not zero. */
  function DecodeComp2(c: nat): nat {
    if c < LEAD then c else (LEAD + c % LEAD) * Pow(2, c / LEAD - 1)
  }

  function CompCode2(v: nat): nat {
    var c := Scale(v, 2, TOP2) * LEAD + Kept(v, 2, TOP2);
    if c > LARGEST then LARGEST else c
  }

  /** encode_comp2_t. */
  method EncodeComp2(v: nat) returns (c: nat)
    ensures c == CompCode2(v)
  {
    hide Reduced, Scale, Kept;
    var value: nat, exp: nat, rnd := v, if v >= LEAD then 1 else 0, false;
    ghost var e: nat, r: nat := 0, 0;
    ReducedStart(v, 2, TOP2);
    while value >= TOP2
      invariant Reduced(v, 2, TOP2, value, e, r, rnd)
      invariant exp == e + (if v >= LEAD then 1 else 0)
      invariant if v >= LEAD then value >= LEAD else value == v && e == 0 && !rnd
    {
      r := ReducedStep(v, 2, TOP2, value, e, r, rnd);
      rnd := value % 2 == 1;
      value := value / 2;
      exp, e := exp + 1, e + 1;
    }
    ReducedEnd(v, 2, TOP2, value, e, r, rnd);
    if rnd {
      value := value + 1;
      if value >= TOP2 {
        value := value / 2;
        exp := exp + 1;
      }
    }
    if exp > MAXEXP2 {
      c := LARGEST;
    } else {
      c := value % LEAD + exp * LEAD;
    }
  }

  lemma Comp2Order(v: nat, w: nat)
    requires v <= w
    ensures CompCode2(v) <= CompCode2(w) <= LARGEST
  {
    Code2Order(v, w);
  }

  /** The code without the limit stands for the value rounded half up. */
  lemma Comp2Decodes(v: nat)
    ensures DecodeComp2(Scale(v, 2, TOP2) * LEAD + Kept(v, 2, TOP2)) == HalfUp(v, Unit(v, 2, TOP2))
  {
    var e, k := Scale(v, 2, TOP2), Kept(v, 2, TOP2);
    KeptBounds(v, 2, TOP2);
    KeptNearest(v, 2, TOP2);
    NearestIs(v, k, Unit(v, 2, TOP2));
    var p := Pow(2, e);
    assert Unit(v, 2, TOP2) == p && HalfUp(v, p) == k * p && Pow(2, e + 1) == 2 * p && (e == 0 ==> p == 1);
    hide Scale, Kept, Unit, Pow, HalfUp;
    var c := e * LEAD + k;
    if k == TOP2 {
      assert c / LEAD == e + 2 && c % LEAD == 0;
    } else if k >= LEAD {
      assert c / LEAD == e + 1 && c % LEAD == k - LEAD;
    }
  }

  /** 2^50 - 2^29: from here on the largest code is returned. */
  const COMP2_LIMIT := 1125899369971712

  lemma Pow30()
    ensures Pow(2, 10) == 1024 && Pow(2, 20) == 1048576 && Pow(2, 30) == 1073741824
  {
  }

  lemma {:induction false} PowAdd(b: nat, d: nat, e: nat)
    ensures Pow(b, d + e) == Pow(b, d) * Pow(b, e)
  {
    if d > 0 {
      PowAdd(b, d - 1, e);
      Regroup3(b, Pow(b, d - 1), Pow(b, e));
    } else {
      assert Pow(b, d) == 1;
    }
  }

  lemma Regroup3(a: nat, b: nat, c: nat)
    ensures a * (b * c) == a * b * c
  {
  }

  /** The scale is the exponent whose range of mantissas contains the value. */
  lemma ScaleIs(v: nat, b: nat, top: nat, e: nat)
    requires b >= 2 && top > 0 && top % b == 0
    requires v < top * Pow(b, e) && (e > 0 ==> v >= top / b * Pow(b, e))
    ensures Scale(v, b, top) == e
  {
    var f := Scale(v, b, top);
    ScaleBounds(v, b, top);
    DivBounds(top, b);
    if f < e {
      PowMono(b, f + 1, e);
      ScaleApart(v, b, top, f, e);
    } else if e < f {
      PowMono(b, e + 1, f);
      ScaleApart(v, b, top, e, f);
    }
  }

  lemma ScaleApart(v: nat, b: nat, top: nat, f: nat, e: nat)
    requires b >= 2 && top % b == 0 && f < e && Pow(b, f + 1) <= Pow(b, e) && v >= top / b * Pow(b, e)
    ensures v >= top * Pow(b, f)
  {
    MulMono(Pow(b, f + 1), Pow(b, e), top / b);
    Regroup3(top / b, b, Pow(b, f));
    DivBounds(top, b);
  }

  lemma Comp2Limit()
    ensures Scale(COMP2_LIMIT, 2, TOP2) * LEAD + Kept(COMP2_LIMIT, 2, TOP2) == LARGEST + 1
    ensures Scale(COMP2_LIMIT - 1, 2, TOP2) * LEAD + Kept(COMP2_LIMIT - 1, 2, TOP2) == LARGEST
  {
    Pow30();
    ScaleIs(COMP2_LIMIT, 2, TOP2, 30);
    ScaleIs(COMP2_LIMIT - 1, 2, TOP2, 30);
    NearestIs(COMP2_LIMIT, 1048576, 1073741824);
    NearestIs(COMP2_LIMIT - 1, 1048575, 1073741824);
  }

  lemma Code2Order(v: nat, w: nat)
    requires v <= w
    ensures Scale(v, 2, TOP2) * LEAD + Kept(v, 2, TOP2) <= Scale(w, 2, TOP2) * LEAD + Kept(w, 2, TOP2)
  {
    hide Scale, Kept, Unit;
    KeptBounds(v, 2, TOP2);
    KeptBounds(w, 2, TOP2);
    ScaleMono(v, w, 2, TOP2);
    if Scale(v, 2, TOP2) == Scale(w, 2, TOP2) { KeptMono(v, w, 2, TOP2); }
  }

  /** encode_comp2_t rounds half up below the limit and saturates from it on. */
  lemma Comp2IsRight(v: nat)
    ensures v < COMP2_LIMIT ==> DecodeComp2(CompCode2(v)) == HalfUp(v, Unit(v, 2, TOP2))
    ensures v >= COMP2_LIMIT ==> CompCode2(v) == LARGEST
    ensures v < TOP2 ==> DecodeComp2(CompCode2(v)) == v
  {
    Comp2Limit();
    Comp2Decodes(v);
    if v < COMP2_LIMIT { Code2Order(v, COMP2_LIMIT - 1); } else { Code2Order(COMP2_LIMIT, v); }
    if v < TOP2 { HalfUpExact(v, 1); }
  }

  /** No code stands for more than the largest one does. */
  lemma LargestIsLargest(c: nat)
    requires c <= LARGEST
    ensures DecodeComp2(c) <= DecodeComp2(LARGEST) == 1048575 * 1073741824
  {
    Pow30();
    if c >= LEAD {
      PowMono(2, c / LEAD - 1, 30);
      MulMono2(LEAD + c % LEAD, 1048575, Pow(2, c / LEAD - 1), 1073741824);
    }
  }

  // ---------------------------------------------------------------- 32-bit float

  const P23 := 0x80_0000
  const P24 := 0x100_0000
  const P40 := 0x100_0000_0000
  const P63 := 0x8000_0000_0000_0000
  const P64 := 0x1_0000_0000_0000_0000

  /** The significand of a float, with its implied leading bit. */
  function Significand(f: nat): nat { P23 + f % P23 }

  /** The biased exponent; the sign bit is zero here. */
  function Exponent(f: nat): nat { f / P23 }

  /** The float for v > 0 is v shifted up to 64 bits, with the upper 24 of them kept. */
  ghost predicate FloatOf(v: nat, f: nat) {
    && 127 <= Exponent(f) <= 190
    && P63 <= v * Pow(2, 190 - Exponent(f)) < P64
    && Significand(f) == v * Pow(2, 190 - Exponent(f)) / P40
  }

  ghost predicate Encodes(v: nat, f: nat) {
    if v == 0 then f == 0 else FloatOf(v, f)
  }

  /** The number a float stands for, times 2^150: its significand counts units of 2^(exponent - 150). */
  function Scaled(f: nat): nat {
    if f == 0 then 0 else Significand(f) * Pow(2, Exponent(f))
  }

  /** encode_float. */
  method EncodeFloat(v: nat) returns (f: nat)
    requires v < P64
    ensures Encodes(v, f)
  {
    if v == 0 { return 0; }
    var value, exp := v, 190;
    while value < P63
      invariant 0 < value < P64 && exp <= 190 && value == v * Pow(2, 190 - exp)
      decreases P64 - value
    {
      Doubled(v, 190 - exp);
      value := value * 2;
      exp := exp - 1;
    }
    ShiftBound(v, 190 - exp);
    var u := value / P40 % P23;
    f := u + exp * P23;
    assert f / P23 == exp && f % P23 == u;
  }

  lemma Doubled(v: nat, k: nat)
    ensures v * Pow(2, k) * 2 == v * Pow(2, k + 1)
  {
  }

  lemma Pow63()
    ensures Pow(2, 40) == P40 && Pow(2, 23) == P23 && Pow(2, 24) == P24 && Pow(2, 63) == P63 && Pow(2, 64) == P64
  {
    Pow30();
    assert Pow(2, 3) == 8 && Pow(2, 4) == 16;
    PowAdd(2, 20, 20);
    PowAdd(2, 20, 3);
    PowAdd(2, 20, 4);
    PowAdd(2, 40, 20);
    PowAdd(2, 60, 3);
    PowAdd(2, 60, 4);
  }

  lemma ShiftBound(v: nat, k: nat)
    requires v > 0 && v * Pow(2, k) < P64
    ensures k <= 63
  {
    Pow63();
    if k >= 64 {
      PowMono(2, 64, k);
      MulMono2(1, v, P64, Pow(2, k));
    }
  }

  lemma FloatParts(v: nat, f: nat)
    requires FloatOf(v, f)
    ensures var m, value := Significand(f), v * Pow(2, 190 - Exponent(f));
            P23 <= m < P24 && m * P40 <= value < (m + 1) * P40 && Scaled(f) == m * Pow(2, Exponent(f))
  {
  }

  /** A value of 64 bits shifted to the scale of the floats. */
  lemma ScaleUp(v: nat, e: nat)
    requires 40 <= e <= 190
    ensures P40 * Pow(2, e - 40) == Pow(2, e) && v * Pow(2, 190 - e) * Pow(2, e - 40) == v * Pow(2, 150)
  {
    Pow63();
    PowAdd(2, 40, e - 40);
    PowAdd(2, 190 - e, e - 40);
    Regroup3(v, Pow(2, 190 - e), Pow(2, e - 40));
  }

  /** The encoding is truncation toward zero to a 24-bit significand, with an error below one unit in the last place. */
  lemma FloatTruncates(v: nat, f: nat)
    requires FloatOf(v, f)
    ensures P23 <= Significand(f) < P24
    ensures Scaled(f) <= v * Pow(2, 150) < Scaled(f) + Pow(2, Exponent(f))
  {
    var e, m := Exponent(f), Significand(f);
    FloatParts(v, f);
    ScaleUp(v, e);
    PowPos(2, e - 40);
    hide Pow, FloatOf, Scaled, Significand, Exponent;
    Widen(m, P40, v * Pow(2, 190 - e), Pow(2, e - 40), Pow(2, e));
  }

  /** Multiplying a value and the unit it is truncated to. */
  lemma Widen(m: nat, u: nat, value: nat, p: nat, up: nat)
    requires p > 0 && up == u * p && m * u <= value < (m + 1) * u
    ensures m * up <= value * p < m * up + up
  {
    MulMono(m * u, value, p);
    MulLess(value, (m + 1) * u, p);
    Regroup3(m, u, p);
    Regroup3(m + 1, u, p);
    assert (m + 1) * up == m * up + up;
  }

  lemma MulLess(a: nat, b: nat, p: nat)
    requires a < b && p > 0
    ensures a * p < b * p
  {
  }

  /** Whole numbers of up to 24 bits are exact. */
  lemma FloatExact(v: nat, f: nat)
    requires Encodes(v, f) && v < P24
    ensures Scaled(f) == v * Pow(2, 150)
  {
    if v > 0 {
      FloatTruncates(v, f);
      var e, m := Exponent(f), Significand(f);
      FloatParts(v, f);
      hide FloatOf, Scaled, Significand, Exponent, Pow;
      SmallUnit(v, m, e);
      ExactUnit(v, m, e);
    }
  }

  lemma ExactUnit(v: nat, m: nat, e: nat)
    requires e <= 150 && m * Pow(2, e) <= v * Pow(2, 150) < m * Pow(2, e) + Pow(2, e)
    ensures m * Pow(2, e) == v * Pow(2, 150)
  {
    PowAdd(2, 150 - e, e);
    hide Pow;
    SameUnits(v, Pow(2, 150 - e), Pow(2, e), Pow(2, 150), m);
  }

  lemma SameUnits(v: nat, q: nat, u: nat, p: nat, m: nat)
    requires p == q * u && m * u <= v * p < m * u + u
    ensures m * u == v * p
  {
    WholeUnits(v, q, u, p, m);
  }

  lemma SmallUnit(v: nat, m: nat, e: nat)
    requires v < P24 && P23 <= m && m * Pow(2, e) <= v * Pow(2, 150)
    ensures e <= 150
  {
    PowPos(2, 150);
    MulLess(v, P24, Pow(2, 150));
    assert Pow(2, 151) == 2 * Pow(2, 150);
    if e > 150 {
      PowMono(2, 151, e);
      MulMono2(P23, m, Pow(2, 151), Pow(2, e));
    }
  }

  /** No float, normal or not, lies between the encoding and the value. */
  lemma FloatGreatest(v: nat, f: nat, m: nat, e: nat)
    requires Encodes(v, f) && m < P24 && m * Pow(2, e) <= v * Pow(2, 150)
    ensures m * Pow(2, e) <= Scaled(f)
  {
    if v > 0 {
      FloatTruncates(v, f);
      FloatParts(v, f);
      var d, n := Exponent(f), Significand(f);
      hide FloatOf, Scaled, Significand, Exponent, Pow;
      if e >= d {
        MultipleBelow(m, e, n, d);
      } else {
        SmallerUnit(m, e, n, d);
      }
    }
  }

  lemma MultipleBelow(m: nat, e: nat, n: nat, d: nat)
    requires e >= d && m * Pow(2, e) < n * Pow(2, d) + Pow(2, d)
    ensures m * Pow(2, e) <= n * Pow(2, d)
  {
    PowAdd(2, e - d, d);
    hide Pow;
    WholeUnits(m, Pow(2, e - d), Pow(2, d), Pow(2, e), n);
  }

  lemma WholeUnits(m: nat, q: nat, u: nat, p: nat, n: nat)
    requires p == q * u && m * p < n * u + u
    ensures m * p <= n * u
  {
    Regroup3(m, q, u);
    assert m * p == m * q * u;
    NotBeyond(m * q, n, u);
  }

  lemma NotBeyond(k: nat, n: nat, u: nat)
    requires k * u < n * u + u
    ensures k <= n && k * u <= n * u
  {
    assert (n + 1) * u == n * u + u;
    if k > n { MulMono(n + 1, k, u); }
    MulMono(k, n, u);
  }

  lemma SmallerUnit(m: nat, e: nat, n: nat, d: nat)
    requires e < d && m < P24 && n >= P23
    ensures m * Pow(2, e) <= n * Pow(2, d)
  {
    PowMono(2, e + 1, d);
    assert Pow(2, e + 1) == 2 * Pow(2, e);
    MulMono(m, P24, Pow(2, e));
    MulMono2(P23, n, 2 * Pow(2, e), Pow(2, d));
  }

  lemma ExponentOrder(v: nat, w: nat, d: nat, e: nat)
    requires v <= w && e < d <= 190 && v * Pow(2, 190 - d) >= P63
    ensures w * Pow(2, 190 - e) >= P64
  {
    PowMono(2, 190 - d + 1, 190 - e);
    Doubled(w, 190 - d);
    MulMono(v, w, Pow(2, 190 - d));
    MulMono(Pow(2, 190 - d + 1), Pow(2, 190 - e), w);
  }

  /** Larger values have larger encodings. */
  lemma FloatOrder(v: nat, f: nat, w: nat, g: nat)
    requires Encodes(v, f) && Encodes(w, g) && v <= w
    ensures f <= g
  {
    if v > 0 {
      var d, e := Exponent(f), Exponent(g);
      hide Pow;
      if d > e {
        ExponentOrder(v, w, d, e);
      } else if d == e {
        MulMono(v, w, Pow(2, 190 - d));
        DivMono(v * Pow(2, 190 - d), w * Pow(2, 190 - d), P40);
      }
    }
  }
}
