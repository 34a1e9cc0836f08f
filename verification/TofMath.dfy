/** The arithmetic of the time-of-flight engine: intervals, the classic double-sided estimate and
    one step of the modified recurrence, over `int` and `real`. */
module TofMath {
  import opened Config

  // ---------------------------------------------------------------- intervals

  /** A timestamp difference as the code writes it: a uint64 subtraction that may wrap, then a remainder. */
  function Interval(later: nat, earlier: nat): (r: nat)
    ensures r == (later - earlier) % UWB_MAX_TIMESTAMP
    ensures r < UWB_MAX_TIMESTAMP
  {
    var wrapped := (later - earlier + UWB_MAX_TIMESTAMP) % UINT64_RANGE;
    WrapThenReduce(later - earlier);
    wrapped % UWB_MAX_TIMESTAMP
  }

  lemma WrapThenReduce(x: int)
    ensures ((x + UWB_MAX_TIMESTAMP) % UINT64_RANGE) % UWB_MAX_TIMESTAMP == x % UWB_MAX_TIMESTAMP
  {
    var y := x + UWB_MAX_TIMESTAMP;
    var q, r := y / UINT64_RANGE, y % UINT64_RANGE;
    assert UINT64_RANGE == 16777216 * UWB_MAX_TIMESTAMP;
    assert y == q * UINT64_RANGE + r;
    var k := 16777216 * q;
    assert y == k * UWB_MAX_TIMESTAMP + r;
    ReduceMultiple(r, k);
    ReduceMultiple(x, 1);
  }

  lemma ReduceMultiple(r: int, k: int)
    ensures (k * UWB_MAX_TIMESTAMP + r) % UWB_MAX_TIMESTAMP == r % UWB_MAX_TIMESTAMP
  {
    var a, b := (k * UWB_MAX_TIMESTAMP + r) / UWB_MAX_TIMESTAMP, r / UWB_MAX_TIMESTAMP;
    var m, n := (k * UWB_MAX_TIMESTAMP + r) % UWB_MAX_TIMESTAMP, r % UWB_MAX_TIMESTAMP;
    assert (a - b - k) * UWB_MAX_TIMESTAMP == n - m;
  }

  /** Two instants less than 2^40 apart: the interval of their 40-bit residues is their true distance,
      even when the clock wrapped between them. */
  lemma IntervalAcrossWrap(u: nat, v: nat)
    requires 0 <= u - v < UWB_MAX_TIMESTAMP
    ensures Interval(u % UWB_MAX_TIMESTAMP, v % UWB_MAX_TIMESTAMP) == u - v
  {
    var k := u / UWB_MAX_TIMESTAMP - v / UWB_MAX_TIMESTAMP;
    assert u - v == k * UWB_MAX_TIMESTAMP + (u % UWB_MAX_TIMESTAMP - v % UWB_MAX_TIMESTAMP);
    ReduceMultiple(u % UWB_MAX_TIMESTAMP - v % UWB_MAX_TIMESTAMP, k);
  }

  /** Intervals only see differences: moving both ends by the same amount modulo 2^40 changes nothing. */
  lemma IntervalShift(later: nat, earlier: nat, later': nat, earlier': nat, c: int)
    requires (later' - later - c) % UWB_MAX_TIMESTAMP == 0
    requires (earlier' - earlier - c) % UWB_MAX_TIMESTAMP == 0
    ensures Interval(later', earlier') == Interval(later, earlier)
  {
    var k := (later' - later - c) / UWB_MAX_TIMESTAMP - (earlier' - earlier - c) / UWB_MAX_TIMESTAMP;
    assert later' - earlier' == k * UWB_MAX_TIMESTAMP + (later - earlier);
    ReduceMultiple(later - earlier, k);
  }

  // ---------------------------------------------------------------- the four intervals

  /** Ra, Da are measured on one clock and Rb, Db on the other; Ra overlaps Db and Rb overlaps Da. */
  datatype Quad = Quad(ra: nat, rb: nat, da: nat, db: nat) {
    function Sum(): nat { ra + db + rb + da }

    /** diffA * Rb + diffA * Db + diffB * Ra + diffB * Da */
    function Numerator(): int {
      (ra - da) * rb + (ra - da) * db + (rb - db) * ra + (rb - db) * da
    }
  }

  lemma NumeratorIsEven(q: Quad)
    ensures q.Numerator() == 2 * (q.ra * q.rb - q.da * q.db)
  {
    assert (q.ra - q.da) * q.rb == q.ra * q.rb - q.da * q.rb;
    assert (q.ra - q.da) * q.db == q.ra * q.db - q.da * q.db;
    assert (q.rb - q.db) * q.ra == q.ra * q.rb - q.ra * q.db;
    assert (q.rb - q.db) * q.da == q.da * q.rb - q.da * q.db;
  }

  /** C's integer division truncates toward zero. */
  function TruncDiv(n: int, d: int): int
    requires d > 0
  {
    if n >= 0 then n / d else -((-n) / d)
  }

  lemma TruncDivNear(n: int, d: int)
    requires d > 0
    ensures -1.0 < n as real / d as real - TruncDiv(n, d) as real < 1.0
    ensures n % d == 0 ==> n as real / d as real == TruncDiv(n, d) as real
  {
    var t := TruncDiv(n, d);
    var rest := n - t * d;
    TruncRest(n, d);
    RealQuotient(n as real, d as real, t as real, rest as real) by {
      assert (t * d) as real == t as real * d as real;
    }
  }

  lemma TruncRest(n: int, d: int)
    requires d > 0
    ensures -d < n - TruncDiv(n, d) * d < d
    ensures n % d == 0 ==> n - TruncDiv(n, d) * d == 0
  {
    if n >= 0 {
      assert n == (n / d) * d + n % d;
    } else {
      assert -n == ((-n) / d) * d + (-n) % d;
      if n % d == 0 { ModNeg(n, d); }
    }
  }

  lemma RealQuotient(n: real, d: real, t: real, rest: real)
    requires d > 0.0 && n == t * d + rest && -d < rest < d
    ensures -1.0 < n / d - t < 1.0
    ensures rest == 0.0 ==> n / d == t
  {
    var x := n / d;
    assert x * d == n;
    var y := x - t;
    assert y * d == x * d - t * d;
    assert y * d == rest;
    ScaledBound(y, d, rest);
    assert rest == 0.0 ==> y == 0.0;
  }

  lemma ScaledBound(x: real, d: real, p: real)
    requires d > 0.0
    requires p == x * d && -d < p < d
    ensures -1.0 < x < 1.0
  {
    assert x >= 1.0 ==> x * d >= d;
    assert x <= -1.0 ==> x * d <= -d;
  }

  lemma ModNeg(n: int, d: int)
    requires d > 0 && n % d == 0
    ensures n - TruncDiv(n, d) * d == 0
  {
    if n < 0 {
      var q := n / d;
      assert n == q * d;
      assert -n == (-q) * d;
      assert (-n) / d == -q by { DivExact(-q, d); }
    }
  }

  lemma DivExact(q: int, d: int)
    requires d > 0
    ensures (q * d) / d == q
  {
    var p, r := (q * d) / d, (q * d) % d;
    assert (q - p) * d == r;
    assert q - p >= 1 ==> (q - p) * d >= d;
    assert q - p <= -1 ==> (q - p) * d <= -d;
  }

  // ---------------------------------------------------------------- int64

  predicate FitsInt64(x: int) { -0x8000_0000_0000_0000 <= x < 0x8000_0000_0000_0000 }

  /** Every product, every partial sum and every denominator of the estimators fits a signed 64-bit integer. */
  predicate StaysInInt64(q: Quad) {
    var p1, p2, p3, p4 := (q.ra - q.da) * q.rb, (q.ra - q.da) * q.db, (q.rb - q.db) * q.ra, (q.rb - q.db) * q.da;
    && FitsInt64(p1) && FitsInt64(p2) && FitsInt64(p3) && FitsInt64(p4)
    && FitsInt64(p1 + p2) && FitsInt64(p1 + p2 + p3) && FitsInt64(q.Numerator())
    && FitsInt64(q.Sum()) && FitsInt64(2 * q.Sum())
  }

  lemma ProductBound(x: int, y: nat, mx: nat, my: nat)
    requires 0 - mx <= x <= mx && y <= my
    ensures 0 - mx * my <= x * y <= mx * my
  {
    assert x * y <= mx * y <= mx * my;
    assert -(mx * y) <= x * y;
  }

  /** Intervals below 2^31 never overflow. */
  lemma NoOverflowBelow31Bits(q: Quad)
    requires q.ra < 0x8000_0000 && q.rb < 0x8000_0000 && q.da < 0x8000_0000 && q.db < 0x8000_0000
    ensures StaysInInt64(q)
  {
    FourProducts(q.ra - q.da, q.rb - q.db, q);
    NumeratorIsEven(q);
    ThirdPartialSum(q);
    NonNegativeProduct(q.ra, q.rb);
    NonNegativeProduct(q.da, q.rb);
    NonNegativeProduct(q.da, q.db);
  }

  const BOUND: nat := 0x7FFF_FFFF
  const SQUARE: nat := 4611686014132420609  // BOUND * BOUND

  lemma FourProducts(x: int, y: int, q: Quad)
    requires q.ra <= BOUND && q.rb <= BOUND && q.da <= BOUND && q.db <= BOUND
    requires 0 - BOUND <= x <= BOUND && 0 - BOUND <= y <= BOUND
    ensures 0 - SQUARE <= x * q.rb <= SQUARE && 0 - SQUARE <= x * q.db <= SQUARE
    ensures 0 - SQUARE <= y * q.ra <= SQUARE && 0 - SQUARE <= y * q.da <= SQUARE
  {
    ProductBound(x, q.rb, BOUND, BOUND);
    ProductBound(x, q.db, BOUND, BOUND);
    ProductBound(y, q.ra, BOUND, BOUND);
    ProductBound(y, q.da, BOUND, BOUND);
  }

  lemma NonNegativeProduct(x: nat, y: nat)
    requires x <= BOUND && y <= BOUND
    ensures 0 <= x * y <= SQUARE
  {
    ProductBound(x, y, BOUND, BOUND);
    assert x * y >= 0;
  }

  lemma ThirdPartialSum(q: Quad)
    ensures (q.ra - q.da) * q.rb + (q.ra - q.da) * q.db + (q.rb - q.db) * q.ra
         == 2 * (q.ra * q.rb) - q.da * q.rb - q.da * q.db
  {
    assert (q.ra - q.da) * q.rb == q.ra * q.rb - q.da * q.rb;
    assert (q.ra - q.da) * q.db == q.ra * q.db - q.da * q.db;
    assert (q.rb - q.db) * q.ra == q.ra * q.rb - q.ra * q.db;
  }

  /** The bound is sharp: at 2^31 the sum of products leaves int64. */
  lemma OverflowAt31Bits()
    ensures !StaysInInt64(Quad(0x8000_0000, 0x8000_0000, 0, 0))
  {
  }

  // ---------------------------------------------------------------- one step of the recurrence

  /** A `float` quotient of non-negative integers, with the special values of a zero divisor. */
  datatype Ratio = Finite(value: real) | Infinite | NotANumber

  function RatioOf(n: nat, d: nat): Ratio {
    if d != 0 then Finite(Divide(n as real, d as real))
    else if n != 0 then Infinite
    else NotANumber
  }

  predicate Less(x: Ratio, y: Ratio) {
    match (x, y)
    case (Finite(a), Finite(b)) => a < b
    case (Finite(_), Infinite) => true
    case _ => false
  }

  // CONVERGENCE_THRESHOLD
  predicate Converges(x: Ratio) { Less(x, Finite(1.0)) }

  predicate RecurrenceTaken(q: Quad) {
    Converges(RatioOf(q.ra, q.da)) || Converges(RatioOf(q.rb, q.db))
  }

  predicate DaBranch(q: Quad) {
    Less(RatioOf(q.ra, q.da), RatioOf(q.rb, q.db))
  }

  /** One recurrence step: `half` is the halved numerator, `r` and `d` the interval pair of the branch. */
  function Advance(half: real, r: nat, d: nat, t12: real): real
    requires d > 0
  {
    Divide(half - r as real * t12, d as real)
  }

  /** T23 from the intervals and T12. `None` is where the code divides zero by zero. */
  function Estimate(q: Quad, t12: real): Option<real> {
    if RecurrenceTaken(q) then
      var half := TruncDiv(q.Numerator(), 2) as real;
      if DaBranch(q) then
        Some(Advance(half, q.ra, q.da, t12))
      else if q.db == 0 then
        None
      else
        Some(Advance(half, q.rb, q.db, t12))
    else if q.Sum() == 0 then
      None
    else
      Some(TruncDiv(q.Numerator(), q.Sum()) as real)
  }

  /** The code divides zero by zero exactly when both intervals of one round trip vanish: as floats if the other round
      trip has Ra < Da (a NaN, which the range test lets pass), as integers if all four are zero. */
  lemma EstimateUndefinedIff(q: Quad, t12: real)
    ensures Estimate(q, t12).None? <==> q.rb == 0 && q.db == 0 && (q.ra < q.da || (q.ra == 0 && q.da == 0))
  {
    hide Advance, TruncDiv, Divide, Quad.Numerator;
    if q.da > 0 { QuotientBelowOne(q.ra, q.da); }
    if q.db > 0 { QuotientBelowOne(q.rb, q.db); }
  }

  function ClassicTof(q: Quad): real
    requires q.Sum() > 0
  {
    q.Numerator() as real / (2 * q.Sum()) as real
  }

  /** The halved numerator is exact: no truncation happens in it. */
  lemma HalfIsExact(q: Quad)
    ensures TruncDiv(q.Numerator(), 2) == q.ra * q.rb - q.da * q.db
  {
    NumeratorIsEven(q);
    var p := q.ra * q.rb - q.da * q.db;
    DivExact(p, 2);
    DivExact(-p, 2);
  }

  /** For positive Da and Db the branch tests compare the intervals themselves. */
  lemma BranchesInIntegers(q: Quad)
    requires q.da > 0 && q.db > 0
    ensures RecurrenceTaken(q) <==> q.ra < q.da || q.rb < q.db
    ensures DaBranch(q) <==> Divide(q.ra as real, q.da as real) < Divide(q.rb as real, q.db as real)
  {
    QuotientBelowOne(q.ra, q.da);
    QuotientBelowOne(q.rb, q.db);
  }

  lemma QuotientBelowOne(n: nat, d: nat)
    requires d > 0
    ensures Divide(n as real, d as real) < 1.0 <==> n < d
    ensures Divide(n as real, d as real) >= 0.0
  {
    var x := n as real / d as real;
    assert x * d as real == n as real;
    assert x >= 1.0 ==> x * d as real >= d as real;
    assert x < 1.0 ==> x * d as real < d as real;
    assert x < 0.0 ==> x * d as real < 0.0;
  }

  /** The smaller of the two ratios. */
  function MinRatio(q: Quad): real
    requires q.da > 0 && q.db > 0
  {
    var a, b := Divide(q.ra as real, q.da as real), Divide(q.rb as real, q.db as real);
    if a < b then a else b
  }

  /** A drift-free link: Ra exceeds Db by the true sum t12 of the first two flights, Rb exceeds Da by
      the true sum t23 of the last two. */
  predicate DriftFree(q: Quad, t12: int, t23: int) {
    q.ra - q.db == t12 && q.rb - q.da == t23
  }

  function Divide(n: real, d: real): real
    requires d != 0.0
  {
    n / d
  }

  lemma QuotientIs(n: real, d: real, x: real)
    requires d != 0.0 && x * d == n
    ensures Divide(n, d) == x
  {
  }

  /** The algebra behind both branches, read once for each of them. */
  lemma StepAlgebra(half: real, r: real, s: real, d: real, e: real, u: real, v: real, t: real)
    requires d > 0.0 && r == e + u && s == d + v && half == r * s - d * e
    ensures Divide(half - r * t, d) == u + Divide(r, d) * (v - t)
  {
    var ratio := r / d;
    assert ratio * d == r;
    var x := u + ratio * (v - t);
    assert (ratio * (v - t)) * d == r * (v - t);
    assert x * d == u * d + r * (v - t);
    assert r * s == r * d + r * v;
    assert d * e == d * r - d * u;
    QuotientIs(half - r * t, d, x);
  }

  lemma AdvanceOverDa(q: Quad, true12: int, true23: int, t12: real)
    requires q.da > 0 && DriftFree(q, true12, true23)
    ensures Advance(TruncDiv(q.Numerator(), 2) as real, q.ra, q.da, t12)
         == true12 as real + Divide(q.ra as real, q.da as real) * (true23 as real - t12)
  {
    HalfAsReal(q);
    var half, ra, rb, da, db := TruncDiv(q.Numerator(), 2) as real, q.ra as real, q.rb as real, q.da as real,
      q.db as real;
    var u, v := true12 as real, true23 as real;
    assert half == ra * rb - da * db;
    assert ra == db + u && rb == da + v;
    StepAlgebra(half, ra, rb, da, db, u, v, t12);
    assert Divide(half - ra * t12, da) == u + Divide(ra, da) * (v - t12);
    assert Advance(half, q.ra, q.da, t12) == Divide(half - ra * t12, da);
  }

  lemma AdvanceOverDb(q: Quad, true12: int, true23: int, t12: real)
    requires q.db > 0 && DriftFree(q, true12, true23)
    ensures Advance(TruncDiv(q.Numerator(), 2) as real, q.rb, q.db, t12)
         == true23 as real + Divide(q.rb as real, q.db as real) * (true12 as real - t12)
  {
    HalfAsReal(q);
    var half, ra, rb, da, db := TruncDiv(q.Numerator(), 2) as real, q.ra as real, q.rb as real, q.da as real,
      q.db as real;
    var u, v := true12 as real, true23 as real;
    assert half == rb * ra - db * da;
    assert ra == db + u && rb == da + v;
    StepAlgebra(half, rb, ra, db, da, v, u, t12);
    assert Divide(half - rb * t12, db) == v + Divide(rb, db) * (u - t12);
    assert Advance(half, q.rb, q.db, t12) == Divide(half - rb * t12, db);
  }

  lemma HalfAsReal(q: Quad)
    ensures TruncDiv(q.Numerator(), 2) as real == q.ra as real * q.rb as real - q.da as real * q.db as real
    ensures TruncDiv(q.Numerator(), 2) as real == q.rb as real * q.ra as real - q.db as real * q.da as real
  {
    HalfIsExact(q);
    ProductAsReal(q.ra, q.rb);
    ProductAsReal(q.da, q.db);
  }

  lemma ProductAsReal(x: nat, y: nat)
    ensures (x * y) as real == x as real * y as real
    ensures (x * y) as real == y as real * x as real
  {
  }

  /** What the branch over Da computes from an arbitrary T12, and likewise the branch over Db. */
  lemma RecurrenceOnDriftFreeLink(q: Quad, true12: int, true23: int, t12: real)
    requires q.da > 0 && q.db > 0 && DriftFree(q, true12, true23) && RecurrenceTaken(q)
    ensures DaBranch(q) ==> Estimate(q, t12) ==
                            Some(true12 as real + Divide(q.ra as real, q.da as real) * (true23 as real - t12))
    ensures !DaBranch(q) ==> Estimate(q, t12) ==
                             Some(true23 as real + Divide(q.rb as real, q.db as real) * (true12 as real - t12))
  {
    if DaBranch(q) {
      AdvanceOverDa(q, true12, true23, t12);
    } else {
      AdvanceOverDb(q, true12, true23, t12);
    }
  }

  // ---------------------------------------------------------------- error contraction

  function Abs(x: real): real { if x < 0.0 then -x else x }

  /** On a static link a recurrence step turns the error of T12 into exactly minus the smaller ratio
      times that error; the ratio is below one. */
  lemma ErrorContracts(q: Quad, t: int, t12: real)
    requires q.da > 0 && q.db > 0 && DriftFree(q, t, t) && RecurrenceTaken(q)
    ensures Estimate(q, t12).Some?
    ensures Estimate(q, t12).value - t as real == -(MinRatio(q) * (t12 - t as real))
    ensures 0.0 <= MinRatio(q) < 1.0
    ensures t12 != t as real ==> Abs(Estimate(q, t12).value - t as real) < Abs(t12 - t as real)
  {
    hide Estimate, Divide;
    BranchesInIntegers(q);
    QuotientBelowOne(q.ra, q.da);
    QuotientBelowOne(q.rb, q.db);
    RecurrenceOnDriftFreeLink(q, t, t, t12);
    var m, e := MinRatio(q), t12 - t as real;
    var e' := Estimate(q, t12).value - t as real;
    assert e' == m * (t as real - t12);
    NegatedProduct(m, e, t as real - t12);
    ShrinksBelow(m, e, e');
  }

  lemma NegatedProduct(m: real, e: real, f: real)
    requires f == -e
    ensures m * f == -(m * e)
  {
  }

  lemma ShrinksBelow(m: real, e: real, e': real)
    requires 0.0 <= m < 1.0 && e' == -(m * e)
    ensures Abs(e') == m * Abs(e)
    ensures e != 0.0 ==> Abs(e') < Abs(e)
  {
    var a, p := Abs(e), m * Abs(e);
    ScaleDown(m, a, p);
    if e < 0.0 {
      NegatedProduct(m, a, e);
      assert e' == p;
    } else {
      assert e' == -p;
    }
  }

  lemma ScaleDown(m: real, a: real, p: real)
    requires 0.0 <= m < 1.0 && a >= 0.0 && p == m * a
    ensures 0.0 <= p <= a
    ensures a > 0.0 ==> p < a
  {
    assert (1.0 - m) * a == a - p;
    assert (1.0 - m) * a >= 0.0;
    assert a > 0.0 ==> (1.0 - m) * a > 0.0;
  }

  /** For a non-negative true sum at most one of the two ratios is below one. */
  lemma NotBothRatiosBelowOne(q: Quad, t: int)
    requires t >= 0 && DriftFree(q, t, t)
    ensures !(q.ra < q.da && q.rb < q.db)
  {
  }

  /** k recurrence steps in a row, each feeding its T23 to the next as T12; `None` once a step of the
      chain leaves the recurrence. */
  function Chain(steps: seq<Quad>, t12: real): Option<real> {
    if steps == [] then Some(t12)
    else if !RecurrenceTaken(steps[0]) || Estimate(steps[0], t12).None? then None
    else Chain(steps[1..], Estimate(steps[0], t12).value)
  }

  function RatioProduct(steps: seq<Quad>): real
    requires forall q <- steps :: q.da > 0 && q.db > 0
  {
    if steps == [] then 1.0 else MinRatio(steps[0]) * RatioProduct(steps[1..])
  }

  /** After k steps on a static link the error is the product of the chosen ratios times the first error. */
  lemma {:induction false} ChainContracts(steps: seq<Quad>, t: int, t12: real)
    requires forall q <- steps :: q.da > 0 && q.db > 0 && DriftFree(q, t, t)
    requires Chain(steps, t12).Some?
    ensures Abs(Chain(steps, t12).value - t as real) == RatioProduct(steps) * Abs(t12 - t as real)
    ensures 0.0 <= RatioProduct(steps) <= 1.0
    ensures steps != [] ==> RatioProduct(steps) < 1.0
  {
    hide Estimate, MinRatio, RecurrenceTaken, Abs, Divide;
    if steps != [] {
      var q, rest := steps[0], steps[1..];
      ErrorContracts(q, t, t12);
      var next := Estimate(q, t12).value;
      assert forall p <- rest :: p in steps;
      ChainContracts(rest, t, next);
      var m, e := MinRatio(q), t12 - t as real;
      ShrinksBelow(m, e, next - t as real);
      var p, a, b := RatioProduct(rest), Abs(e), Abs(next - t as real);
      assert b == m * a;
      ProductsShrink(m, p, a, b, RatioProduct(steps));
    }
  }

  lemma NonNegativeReals(x: real, y: real, p: real)
    requires x >= 0.0 && y >= 0.0 && p == x * y
    ensures p >= 0.0
  {
  }

  lemma ProductsShrink(m: real, p: real, a: real, b: real, mp: real)
    requires 0.0 <= m < 1.0 && 0.0 <= p <= 1.0 && b == m * a && mp == m * p
    ensures p * b == mp * a
    ensures 0.0 <= mp < 1.0
  {
    NonNegativeReals(m, p, mp);
    NonNegativeReals(m, 1.0 - p, m - mp);
    assert p * (m * a) == (m * p) * a;
  }

  // ---------------------------------------------------------------- moving link

  predicate Between(x: real, a: real, b: real) { a <= x <= b || b <= x <= a }

  /** On a moving drift-free link with an exact T12 the branch over Db is exact and the branch over Da
      moves from the true T12 towards the true T23 by the chosen ratio. */
  lemma MovingLink(q: Quad, true12: int, true23: int)
    requires q.da > 0 && q.db > 0 && DriftFree(q, true12, true23) && RecurrenceTaken(q)
    ensures Estimate(q, true12 as real).Some?
    ensures !DaBranch(q) ==> Estimate(q, true12 as real).value == true23 as real
    ensures DaBranch(q) ==>
              Estimate(q, true12 as real).value == true12 as real + MinRatio(q) * (true23 as real - true12 as real)
    ensures Between(Estimate(q, true12 as real).value, true12 as real, true23 as real)
  {
    hide Estimate, Divide;
    BranchesInIntegers(q);
    QuotientBelowOne(q.ra, q.da);
    QuotientBelowOne(q.rb, q.db);
    RecurrenceOnDriftFreeLink(q, true12, true23, true12 as real);
    var a, b := true12 as real, true23 as real;
    if DaBranch(q) {
      PartOfTheWay(a, b, MinRatio(q));
    } else {
      TimesZero(Divide(q.rb as real, q.db as real), a - a);
    }
  }

  lemma TimesZero(x: real, z: real)
    requires z == 0.0
    ensures x * z == 0.0
  {
  }

  lemma PartOfTheWay(a: real, b: real, m: real)
    requires 0.0 <= m < 1.0
    ensures Between(a + m * (b - a), a, b)
  {
    if b >= a {
      ScaleDown(m, b - a, m * (b - a));
    } else {
      var d := a - b;
      var p := m * d;
      ScaleDown(m, d, p);
      NegatedProduct(m, d, b - a);
      assert a + m * (b - a) == a - p;
    }
  }

  // ---------------------------------------------------------------- classic estimate

  /** Twice the classic estimate is the mean of the two true sums, weighted by the interval pairs. */
  lemma ClassicIsWeightedMean(q: Quad, true12: int, true23: int)
    requires q.Sum() > 0 && DriftFree(q, true12, true23)
    ensures 2.0 * ClassicTof(q)
         == Divide(((q.da + q.rb) * true12 + (q.ra + q.db) * true23) as real, q.Sum() as real)
    ensures Between(2.0 * ClassicTof(q), true12 as real, true23 as real)
  {
    WeightedNumerator(q, true12, true23);
    var n, s := q.Numerator(), q.Sum();
    TwiceHalved(n, s);
    var w1, w2 := q.da + q.rb, q.ra + q.db;
    MeanBetween(w1 as real, w2 as real, true12 as real, true23 as real, n as real, s as real) by {
      IntTimesAsReal(w1, true12);
      IntTimesAsReal(w2, true23);
    }
  }

  lemma IntTimesAsReal(x: nat, y: int)
    ensures (x * y) as real == x as real * y as real
  {
  }

  lemma WeightedNumerator(q: Quad, true12: int, true23: int)
    requires DriftFree(q, true12, true23)
    ensures q.Numerator() == (q.da + q.rb) * true12 + (q.ra + q.db) * true23
  {
    NumeratorIsEven(q);
    var ra: int, rb: int, da: int, db: int := q.ra, q.rb, q.da, q.db;
    assert true12 == ra - db;
    assert true23 == rb - da;
    assert (da + rb) * (ra - db) == da * ra - da * db + rb * ra - rb * db;
    assert (ra + db) * (rb - da) == ra * rb - ra * da + db * rb - db * da;
  }

  lemma TwiceHalved(n: int, s: nat)
    requires s > 0
    ensures 2.0 * (n as real / (2 * s) as real) == Divide(n as real, s as real)
  {
    var x := n as real / (2 * s) as real;
    assert x * (2 * s) as real == n as real;
    assert (2 * s) as real == 2.0 * s as real;
    assert (2.0 * x) * s as real == n as real;
    QuotientIs(n as real, s as real, 2.0 * x);
  }

  lemma MeanBetween(w1: real, w2: real, a: real, b: real, n: real, s: real)
    requires w1 >= 0.0 && w2 >= 0.0 && s > 0.0 && w1 + w2 == s && n == w1 * a + w2 * b
    ensures Between(Divide(n, s), a, b)
  {
    var x := Divide(n, s);
    assert x * s == n;
    assert (x - a) * s == n - a * s == w2 * (b - a);
    assert (b - x) * s == b * s - n == w1 * (b - a);
    var d := b - a;
    assert d >= 0.0 ==> w2 * d >= 0.0 && w1 * d >= 0.0;
    assert d <= 0.0 ==> w2 * d <= 0.0 && w1 * d <= 0.0;
    SignOfFactor(x - a, s, w2 * d);
    SignOfFactor(b - x, s, w1 * d);
  }

  lemma SignOfFactor(y: real, s: real, p: real)
    requires s > 0.0 && p == y * s
    ensures p >= 0.0 ==> y >= 0.0
    ensures p <= 0.0 ==> y <= 0.0
  {
    assert y < 0.0 ==> y * s < 0.0;
    assert y > 0.0 ==> y * s > 0.0;
  }

  /** The fallback T23 is twice the classic estimate, up to the truncation of an integer division. */
  lemma FallbackNearClassic(q: Quad, t12: real)
    requires q.Sum() > 0 && !RecurrenceTaken(q)
    ensures Estimate(q, t12).Some?
    ensures -1.0 < 2.0 * ClassicTof(q) - Estimate(q, t12).value < 1.0
  {
    TruncDivNear(q.Numerator(), q.Sum());
    TwiceHalved(q.Numerator(), q.Sum());
  }

  // ---------------------------------------------------------------- the static link, exactly

  /** Static link, exact T12: every branch, the fallback included, returns the true sum, and the classic
      estimate is half of it. */
  lemma StaticLinkExact(q: Quad, t: int)
    requires q.da > 0 && q.db > 0 && DriftFree(q, t, t)
    ensures Estimate(q, t as real) == Some(t as real)
    ensures 2.0 * ClassicTof(q) == t as real
  {
    hide Estimate, ClassicTof, RecurrenceTaken, MinRatio;
    ClassicIsWeightedMean(q, t, t);
    if RecurrenceTaken(q) {
      MovingLink(q, t, t);
    } else {
      FallbackOnStaticLink(q, t);
    }
  }

  lemma FallbackOnStaticLink(q: Quad, t: int)
    requires q.Sum() > 0 && DriftFree(q, t, t) && !RecurrenceTaken(q)
    ensures Estimate(q, t as real) == Some(t as real)
  {
    WeightedNumerator(q, t, t);
    assert (q.da + q.rb) * t + (q.ra + q.db) * t == t * q.Sum();
    TruncDivOfMultiple(t, q.Sum());
  }

  lemma TruncDivOfMultiple(t: int, d: int)
    requires d > 0
    ensures TruncDiv(t * d, d) == t
  {
    DivExact(t, d);
    DivExact(-t, d);
    assert -(t * d) == (-t) * d;
    assert t >= 0 ==> t * d >= 0;
    assert t < 0 ==> t * d < 0;
  }

  // ---------------------------------------------------------------- every link, as equations

  /** The tests on the float ratios, with all their special values, are tests on the integers. */
  lemma BranchTests(q: Quad)
    ensures RecurrenceTaken(q) <==> q.ra < q.da || q.rb < q.db
    ensures DaBranch(q) <==> q.ra * q.db < q.rb * q.da
  {
    hide Divide;
    if q.da > 0 { QuotientBelowOne(q.ra, q.da); }
    if q.db > 0 { QuotientBelowOne(q.rb, q.db); }
    if q.da > 0 && q.db > 0 {
      CompareRatios(q.ra, q.da, q.rb, q.db);
    } else if q.da > 0 {
      assert q.rb * q.da > 0 <==> q.rb > 0;
    }
  }

  lemma CompareRatios(a: nat, b: nat, c: nat, d: nat)
    requires b > 0 && d > 0
    ensures Divide(a as real, b as real) < Divide(c as real, d as real) <==> a * d < c * b
  {
    var x, y := Divide(a as real, b as real), Divide(c as real, d as real);
    var p := b as real * d as real;
    assert p > 0.0;
    ScaledBy(x, a as real, b as real, d as real);
    ScaledBy(y, c as real, d as real, b as real);
    assert x * p == a as real * d as real;
    assert y * p == c as real * b as real;
    ProductAsReal(a, d);
    ProductAsReal(c, b);
    ScaledOrder(x, y, p);
  }

  lemma ScaledBy(x: real, n: real, d: real, f: real)
    requires d > 0.0 && x == Divide(n, d)
    ensures x * (d * f) == n * f && x * (f * d) == n * f
  {
    assert x * d == n;
    assert x * (d * f) == (x * d) * f;
    assert f * d == d * f;
  }

  lemma ScaledOrder(x: real, y: real, p: real)
    requires p > 0.0
    ensures x < y <==> x * p < y * p
  {
    assert x < y ==> (y - x) * p > 0.0;
    assert x >= y ==> (x - y) * p >= 0.0;
  }

  /** The halved numerator: Ra Rb - Da Db. */
  function Excess(q: Quad): int { q.ra * q.rb - q.da * q.db }

  /** The estimate for every four intervals and every T12, as the solution of an equation. If one of the ratios is below
      one, T23 solves Ra T12 + Da T23 = Ra Rb - Da Db if Ra / Da is the smaller ratio, and the equation
      Rb T12 + Db T23 = Ra Rb - Da Db otherwise; if none is, T23 is the whole number next to twice the classic estimate
      on the side of zero. */
  lemma EstimateSolves(q: Quad, t12: real)
    ensures var (e, taken, overDa) := (Estimate(q, t12), q.ra < q.da || q.rb < q.db, q.ra * q.db < q.rb * q.da);
            && (taken && overDa ==>
                  e.Some? && q.da > 0 && q.ra as real * t12 + q.da as real * e.value == Excess(q) as real)
            && (taken && !overDa && q.db > 0 ==>
                  e.Some? && q.rb as real * t12 + q.db as real * e.value == Excess(q) as real)
            && (taken && !overDa && q.db == 0 ==> e.None?)
            && (!taken && q.Sum() == 0 ==> e.None?)
            && (!taken && q.Sum() > 0 ==>
                  e.Some? && IsWholePart(e.value, 2 * Excess(q), q.Sum()))
  {
    hide Divide;
    BranchTests(q);
    HalfIsExact(q);
    var half := TruncDiv(q.Numerator(), 2);
    if RecurrenceTaken(q) {
      if DaBranch(q) {
        AdvanceSolves(half as real, q.ra, q.da, t12);
      } else if q.db > 0 {
        AdvanceSolves(half as real, q.rb, q.db, t12);
      }
    } else if q.Sum() > 0 {
      NumeratorIsEven(q);
      TruncDivTowardZero(q.Numerator(), q.Sum());
      assert (TruncDiv(q.Numerator(), q.Sum()) as real).Floor == TruncDiv(q.Numerator(), q.Sum());
    }
  }

  lemma AdvanceSolves(half: real, r: nat, d: nat, t12: real)
    requires d > 0
    ensures r as real * t12 + d as real * Advance(half, r, d, t12) == half
  {
    var x := Advance(half, r, d, t12);
    assert x * d as real == half - r as real * t12;
  }

  /** k is n / d without its fraction. */
  predicate TowardZero(k: int, n: int, d: int) {
    if n >= 0 then 0 <= k * d <= n < (k + 1) * d else (k - 1) * d < n <= k * d <= 0
  }

  predicate IsWholePart(t: real, n: int, d: int) { t == t.Floor as real && TowardZero(t.Floor, n, d) }

  lemma TruncDivTowardZero(n: int, d: int)
    requires d > 0
    ensures TowardZero(TruncDiv(n, d), n, d)
  {
    var k := TruncDiv(n, d);
    OneMore(k, d);
    QuotientSign(if n >= 0 then n else -n, d);
    if n >= 0 {
      assert k == n / d;
    } else {
      assert -k == (-n) / d;
      NegatedFactor(k, d);
    }
  }

  lemma QuotientSign(n: nat, d: nat)
    requires d > 0
    ensures 0 <= (n / d) * d <= n < (n / d) * d + d
  {
    assert n == (n / d) * d + n % d;
    var q := n / d;
    assert q >= 0 && q * d >= 0;
  }

  lemma OneMore(k: int, d: int)
    ensures (k + 1) * d == k * d + d && (k - 1) * d == k * d - d
  {
  }

  lemma NegatedFactor(k: int, d: int)
    ensures (-k) * d == -(k * d)
  {
  }

  /** The classic estimate for every four intervals. */
  lemma ClassicSolves(q: Quad)
    requires q.Sum() > 0
    ensures ClassicTof(q) * q.Sum() as real == Excess(q) as real
    ensures ClassicTof(q) >= 0.0 <==> Excess(q) >= 0
  {
    NumeratorIsEven(q);
    var x := ClassicTof(q);
    assert x * (2 * q.Sum()) as real == q.Numerator() as real;
    assert (2 * q.Sum()) as real == 2.0 * q.Sum() as real;
    assert (2 * Excess(q)) as real == 2.0 * Excess(q) as real;
    assert 2.0 * (x * q.Sum() as real) == 2.0 * Excess(q) as real;
    SignOfFactor(x, q.Sum() as real, Excess(q) as real);
    assert Excess(q) < 0 ==> x != 0.0;
  }

  /** Without clock drift the excess weighs the two true sums. */
  lemma ExcessWeighsSums(q: Quad, true12: int, true23: int)
    requires DriftFree(q, true12, true23)
    ensures 2 * Excess(q) == (q.da + q.rb) * true12 + (q.ra + q.db) * true23
  {
    NumeratorIsEven(q);
    WeightedNumerator(q, true12, true23);
  }
}
