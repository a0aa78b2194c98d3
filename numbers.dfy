/** Exact decimal arithmetic for the engine's quantities.

    JavaScript numbers are IEEE-754 doubles; here every price and quantity is
    an exact `real`. A quantity that was truncated with
    `Math.floor(x * 10^p) / 10^p` is a finite decimal, written as a `Decimal`
    (an integer count of units of 10^-scale). In canonical form (no trailing
    zero digit after the point) a `Decimal` has exactly the digits that
    JavaScript prints for the number, so the text after '.' has `scale`
    characters, and there is no '.' at all when `scale` is 0.

    The facts about powers of ten are lemmas rather than postconditions of
    `Pow10` and `Scale`, so that each proof sees only the ones it uses. */
module Numbers {
  import opened Wrappers

  function Power10(n: nat): nat
  {
    if n == 0 then 1 else 10 * Power10(n - 1)
  }

  /** 10^n as an integer. The recursion sits in `Power10`, so that every
      occurrence of `Pow10(n)` in a proof denotes one and the same term. */
  function Pow10(n: nat): nat
  {
    Power10(n)
  }

  lemma {:induction false} Pow10Positive(n: nat)
    ensures Pow10(n) >= 1
  {
    if n > 0 {
      Pow10Positive(n - 1);
    }
  }

  /** x = t * w, from x = 10 * y, y = z * w and t = 10 * z. */
  lemma ShiftTen(x: int, y: int, z: int, w: int, t: int)
    requires x == 10 * y && y == z * w && t == 10 * z
    ensures x == t * w
  {}

  lemma {:induction false} Pow10Add(a: nat, b: nat)
    ensures Pow10(a + b) == Pow10(a) * Pow10(b)
    decreases a
  {
    if a > 0 {
      Pow10Add(a - 1, b);
      ShiftTen(Pow10(a + b), Pow10(a - 1 + b), Pow10(a - 1), Pow10(b), Pow10(a));
    }
  }

  /** 10^n as a real, the `precisionMultiplier` of the source. */
  function Scale(n: nat): (r: real)
    ensures r > 0.0
  {
    Pow10Positive(n);
    Pow10(n) as real
  }

  lemma ScalePositive(n: nat)
    ensures Scale(n) >= 1.0
  {
    Pow10Positive(n);
  }

  /** 10^-p, the smallest step a quantity with p decimals can take. */
  function Step(p: nat): (r: real)
    ensures r > 0.0
  {
    ScalePositive(p);
    1.0 / Scale(p)
  }

  predicate IsIntegral(x: real)
  {
    x.Floor as real == x
  }

  /** digits * 10^-scale */
  datatype Decimal = Decimal(digits: int, scale: nat)
  {
    function Value(): real
    {
      ScalePositive(scale);
      digits as real / Scale(scale)
    }
  }

  /** The shortest decimal text: no trailing zero after the point. */
  predicate Canonical(d: Decimal)
  {
    d.scale == 0 || d.digits % 10 != 0
  }

  /** Drops trailing zero digits after the point. */
  function Normalize(d: Decimal): (r: Decimal)
    ensures Canonical(r)
    ensures r.scale <= d.scale
    ensures r.Value() == d.Value()
    decreases d.scale
  {
    if d.scale > 0 && d.digits % 10 == 0 then
      var shorter := Decimal(d.digits / 10, d.scale - 1);
      ShorterHasSameValue(d);
      Normalize(shorter)
    else
      d
  }

  lemma ShorterHasSameValue(d: Decimal)
    requires d.scale > 0 && d.digits % 10 == 0
    ensures Decimal(d.digits / 10, d.scale - 1).Value() == d.Value()
  {
    ScalePositive(d.scale - 1);
    TenthsCancel(d.digits as real, Scale(d.scale), (d.digits / 10) as real, Scale(d.scale - 1));
  }

  // Small facts of field arithmetic, kept apart so that each proof obligation
  // about decimals sees only the step it needs. Their parameters name the
  // very terms the callers' goals are written in.

  lemma TenthsCancel(a: real, b: real, x: real, y: real)
    requires a == 10.0 * x && b == 10.0 * y && y != 0.0
    ensures a / b == x / y
  {}

  lemma MulDivCancel(a: real, p: real)
    requires p != 0.0
    ensures (a / p) * p == a
  {}

  lemma CastMul(a: int, b: int)
    ensures (a * b) as real == a as real * b as real
  {}

  /** (n * m) as a real, with m as a real already written as k. */
  lemma CastMulAs(n: int, m: int, k: real)
    requires k == m as real
    ensures (n * m) as real == n as real * k
  {
    CastMul(n, m);
  }

  lemma CastProduct(n: int, x: int, y: int)
    requires n == x * y
    ensures n as real == x as real * y as real
  {}

  /** n / s written over the finer denominator t = s * k. */
  lemma OverFinerScale(n: real, s: real, k: real, u: real, t: real)
    requires s != 0.0 && k != 0.0
    requires t == s * k && u == n * k
    ensures n / s == u / t
  {}

  lemma LtOneScaled(x: real, s: real, y: real)
    requires s > 0.0 && y == x * s
    ensures x < 1.0 <==> y < s
  {}

  lemma DivMulShift(a: real, s: real, t: real)
    requires s != 0.0
    ensures (a / s) * t * s == a * t
  {}

  lemma DivOfProduct(a: real, p: real, q: real, pq: real)
    requires p != 0.0 && q != 0.0 && pq == p * q
    ensures (a / pq) * p == a / q
  {}

  lemma MulMonotone(a: real, b: real, s: real)
    requires s > 0.0 && a <= b
    ensures a * s <= b * s
  {}

  lemma DivMonotone(a: real, b: real, s: real)
    requires s > 0.0 && a <= b
    ensures a / s <= b / s
  {}

  lemma MulTen(n: int, x: int)
    ensures n * (10 * x) == (10 * n) * x
  {}

  lemma TimesTen(m: int, x: int)
    ensures m * (10 * x) == 10 * (m * x)
  {}

  lemma ScaleAdd(a: nat, b: nat)
    ensures Scale(a + b) == Scale(a) * Scale(b)
  {
    var x, y, z := Pow10(a + b), Pow10(a), Pow10(b);
    assert x == y * z by { Pow10Add(a, b); }
    assert x as real == y as real * z as real by { CastProduct(x, y, z); }
  }

  /** 10^p split as 10^k * 10^e for k + e = p. */
  lemma ScaleSplit(p: nat, k: nat, e: nat)
    requires k + e == p
    ensures Scale(p) == Scale(k) * Scale(e)
  {
    ScaleAdd(k, e);
  }

  /** For m = floor(x * P), m / P lies in (x - 1/P, x]. */
  lemma FloorDivBounds(x: real, p: real, m: int)
    requires p >= 1.0
    requires m as real <= x * p < m as real + 1.0
    ensures m as real / p <= x < m as real / p + 1.0 / p
  {
    var v := m as real / p;
    MulDivCancel(m as real, p);
    assert (x - v) * p == x * p - m as real;
    assert 0.0 <= (x - v) * p < 1.0;
    MulDivCancel(1.0, p);
  }

  /** `Math.floor(x * 10^p) / 10^p`: the largest multiple of 10^-p that does
      not exceed x, printed in its shortest form. */
  function FloorTo(x: real, p: nat): (r: Decimal)
    ensures Canonical(r)
    ensures r.scale <= p
    ensures r.Value() <= x < r.Value() + Step(p)
  {
    var m := (x * Scale(p)).Floor;
    ScalePositive(p);
    FloorDivBounds(x, Scale(p), m);
    Normalize(Decimal(m, p))
  }

  /** d's value written as a count of 10^-p units, for any p at least d.scale. */
  lemma ValueAtScale(d: Decimal, p: nat)
    requires d.scale <= p
    ensures d.Value() == (d.digits * Pow10(p - d.scale)) as real / Scale(p)
  {
    UnitsAtFinerScale(d.digits, d.scale, p - d.scale, p);
  }

  /** n / 10^q == (n * 10^e) / 10^p for q + e = p. */
  lemma UnitsAtFinerScale(n: int, q: nat, e: nat, p: nat)
    requires q + e == p
    ensures n as real / Scale(q) == (n * Pow10(e)) as real / Scale(p)
  {
    ScaleSplit(p, q, e);
    CastScaled(n, e);
    OverFinerScale(n as real, Scale(q), Scale(e), (n * Pow10(e)) as real, Scale(p));
  }

  lemma CastScaled(n: int, e: nat)
    ensures (n * Pow10(e)) as real == n as real * Scale(e)
  {
    CastMulAs(n, Pow10(e), Scale(e));
  }

  /** Every multiple of 10^-p below x is at most FloorTo(x, p): the truncation
      never rounds up and never loses a whole step. */
  lemma FloorToIsGreatest(x: real, p: nat, d: Decimal)
    requires d.scale <= p
    requires d.Value() <= x
    ensures d.Value() <= FloorTo(x, p).Value()
  {
    ValueAtScale(d, p);
    UnitsBelowFloorTo(x, p, d.digits * Pow10(p - d.scale));
  }

  lemma UnitsBelowFloorTo(x: real, p: nat, units: int)
    requires units as real / Scale(p) <= x
    ensures units as real / Scale(p) <= FloorTo(x, p).Value()
  {
    ScalePositive(p);
    FloorToValue(x, p);
    UnitsBelowFloor(units, Scale(p), x, (x * Scale(p)).Floor);
  }

  lemma UnitsBelowFloor(units: int, s: real, x: real, m: int)
    requires s >= 1.0
    requires units as real / s <= x
    requires m == (x * s).Floor
    ensures units as real / s <= m as real / s
  {
    MulMonotone(units as real / s, x, s);
    MulDivCancel(units as real, s);
    assert units <= m;
    DivMonotone(units as real, m as real, s);
  }

  lemma FloorToValue(x: real, p: nat)
    ensures FloorTo(x, p).Value() == (x * Scale(p)).Floor as real / Scale(p)
  {
    var m := (x * Scale(p)).Floor;
    assert FloorTo(x, p) == Normalize(Decimal(m, p));
  }

  /** A canonical decimal with a fractional part is not integral at any
      shorter scale. */
  lemma CanonicalNotIntegralBelowScale(d: Decimal, k: nat)
    requires Canonical(d) && k < d.scale
    ensures !IsIntegral(d.Value() * Scale(k))
  {
    ScalePositive(k);
    ScalePositive(d.scale - k);
    ScaleSplit(d.scale, k, d.scale - k);
    DivOfProduct(d.digits as real, Scale(k), Scale(d.scale - k), Scale(d.scale));
    assert d.Value() * Scale(k) == d.digits as real / Scale(d.scale - k);
    if IsIntegral(d.Value() * Scale(k)) {
      IntegralQuotientDivisible(d.digits, d.scale - k);
      assert false;
    }
  }

  /** If n / 10^e is an integer for some e > 0, n ends in the digit 0. */
  lemma IntegralQuotientDivisible(n: int, e: nat)
    requires e > 0
    requires IsIntegral(n as real / Scale(e))
    ensures n % 10 == 0
  {
    ScalePositive(e);
    var m := (n as real / Scale(e)).Floor;
    MulDivCancel(n as real, Scale(e));
    TenDivides(n, m, Pow10(e - 1), Scale(e));
  }

  /** n = m * s with s = 10 * q ends in the digit 0. */
  lemma TenDivides(n: int, m: int, q: int, s: real)
    requires s == (10 * q) as real && m as real * s == n as real
    ensures n % 10 == 0
  {
    CastMul(m, 10 * q);
    assert (m * (10 * q)) as real == n as real;
    TimesTen(m, q);
  }

  lemma IntegralAtScale(d: Decimal)
    ensures IsIntegral(d.Value() * Scale(d.scale))
  {
    ScalePositive(d.scale);
    MulDivCancel(d.digits as real, Scale(d.scale));
    assert d.Value() * Scale(d.scale) == d.digits as real;
  }

  /** n is the least count of decimal shifts that make x integral. */
  predicate LeastShiftToIntegral(x: real, n: nat)
  {
    && IsIntegral(x * Scale(n))
    && forall k: nat :: k < n ==> !IsIntegral(x * Scale(k))
  }

  /** A canonical decimal with a fractional part prints exactly `scale`
      digits after its point. */
  lemma DecimalsOfFraction(d: Decimal)
    requires Canonical(d) && d.scale > 0
    ensures !IsIntegral(d.Value())
    ensures LeastShiftToIntegral(d.Value(), d.scale)
  {
    IntegralAtScale(d);
    forall k: nat | k < d.scale
      ensures !IsIntegral(d.Value() * Scale(k))
    {
      CanonicalNotIntegralBelowScale(d, k);
    }
    assert d.Value() * Scale(0) == d.Value();
  }

  /** The text's decimal separator is missing. */
  datatype NumberError = NoDecimalPoint

  /** `(num + "").split(".")[1].length`: the number of characters after '.'
      in the printed number; a number printed without '.' makes the source
      throw. */
  function NumOfDecimals(d: Decimal): (r: Result<nat, NumberError>)
    requires Canonical(d)
    ensures r.Err? <==> IsIntegral(d.Value())
    ensures r.Ok? ==> r.value > 0 && LeastShiftToIntegral(d.Value(), r.value)
  {
    if d.scale == 0 then
      assert d.Value() == d.digits as real;
      Err(NoDecimalPoint)
    else
      DecimalsOfFraction(d);
      Ok(d.scale)
  }

  /** The count of decimal shifts that bring n/den up to at least 1,
      looping on integers: after `count` shifts the value is
      n * 10^count / den. */
  function PrecisionFrom(n: int, den: int): (r: nat)
    requires 0 < n && 0 < den
    decreases den - n
  {
    if n >= den then 0 else 1 + PrecisionFrom(10 * n, den)
  }

  /** `getPrecision(minQty)`: the smallest count with minQty * 10^count >= 1. */
  function Precision(minQty: Decimal): (r: nat)
    requires minQty.digits > 0
    ensures r == 0 <==> minQty.digits >= Pow10(minQty.scale)
  {
    Pow10Positive(minQty.scale);
    PrecisionFrom(minQty.digits, Pow10(minQty.scale))
  }

  /** `num * 10^k < 1` for num = digits / 10^scale, restated on integers. */
  lemma ShiftedBelowOne(d: Decimal, k: nat)
    ensures d.Value() * Scale(k) < 1.0 <==> d.digits * Pow10(k) < Pow10(d.scale)
  {
    var a, s, t := d.digits as real, Scale(d.scale), Scale(k);
    var n, den := d.digits * Pow10(k), Pow10(d.scale);
    var x, y := d.Value() * Scale(k), (a / s) * t;
    assert x == y;
    assert y < 1.0 <==> n < den by {
      assert s == den as real;
      assert n as real == a * t by { CastScaled(d.digits, k); }
      BelowOneByCrossMultiplying(a, s, t, n, den);
    }
    SameComparison(x, y, n, den);
  }

  /** Comparing with 1 a value known by another name. */
  lemma SameComparison(x: real, y: real, n: int, den: int)
    requires x == y && (y < 1.0 <==> n < den)
    ensures x < 1.0 <==> n < den
  {
  }

  lemma BelowOneByCrossMultiplying(a: real, s: real, t: real, n: int, den: int)
    requires s > 0.0 && s == den as real && n as real == a * t
    ensures (a / s) * t < 1.0 <==> n < den
  {
    DivMulShift(a, s, t);
    LtOneScaled((a / s) * t, s, n as real);
  }

  lemma {:induction false} PrecisionFromIsLeast(n: int, den: int)
    requires 0 < n && 0 < den
    ensures n * Pow10(PrecisionFrom(n, den)) >= den
    ensures forall k: nat :: k < PrecisionFrom(n, den) ==> n * Pow10(k) < den
    decreases den - n
  {
    if n < den {
      var c := PrecisionFrom(10 * n, den);
      PrecisionFromIsLeast(10 * n, den);
      MulTen(n, Pow10(c));
      forall k: nat | 0 < k < 1 + c
        ensures n * Pow10(k) < den
      {
        MulTen(n, Pow10(k - 1));
      }
    }
  }

  /** Precision(minQty) is the least number of decimal shifts that bring
      minQty to at least 1. */
  lemma PrecisionIsLeast(minQty: Decimal)
    requires minQty.digits > 0
    ensures minQty.Value() * Scale(Precision(minQty)) >= 1.0
    ensures forall k: nat :: k < Precision(minQty) ==> minQty.Value() * Scale(k) < 1.0
  {
    Pow10Positive(minQty.scale);
    PrecisionFromIsLeast(minQty.digits, Pow10(minQty.scale));
    ShiftedBelowOne(minQty, Precision(minQty));
    forall k: nat | k < Precision(minQty)
      ensures minQty.Value() * Scale(k) < 1.0
    {
      BelowOneBeforePrecision(minQty, k);
    }
  }

  lemma BelowOneBeforePrecision(minQty: Decimal, k: nat)
    requires minQty.digits > 0 && k < Precision(minQty)
    ensures minQty.Value() * Scale(k) < 1.0
  {
    Pow10Positive(minQty.scale);
    PrecisionFromIsLeast(minQty.digits, Pow10(minQty.scale));
    ShiftedBelowOne(minQty, k);
  }

  /** `getPrecision`: multiply by ten until the value reaches 1, on the
      minimum written as the fraction num / den. The source loops forever on
      a non-positive minimum, hence the precondition. */
  method GetPrecision(minQty: Decimal) returns (count: nat)
    requires minQty.digits > 0
    ensures count == Precision(minQty)
    ensures minQty.Value() * Scale(count) >= 1.0
    ensures forall k: nat :: k < count ==> minQty.Value() * Scale(k) < 1.0
  {
    Pow10Positive(minQty.scale);
    var num, den := minQty.digits, Pow10(minQty.scale);
    count := 0;
    while num < den
      invariant 0 < num
      invariant PrecisionFrom(num, den) + count == Precision(minQty)
      decreases den - num
    {
      num := num * 10;
      count := count + 1;
    }
    PrecisionIsLeast(minQty);
  }
}
