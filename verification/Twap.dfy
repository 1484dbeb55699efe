/**
 The time-weighted average price, over exact reals where the code has 256-bit floats: a power computed by
 squaring, a tick turned into a price, and the average of the ticks in a window.
 */
module Twap {
  import opened Amounts
  import opened Prices

  const TICK_BASE: real := 1.0001

  function Pow(b: real, n: nat): real {
    if n == 0 then 1.0 else b * Pow(b, n - 1)
  }

  lemma Assoc(x: real, y: real, z: real)
    ensures x * (y * z) == (x * y) * z
  {
  }

  lemma {:induction false} PowSquare(b: real, n: nat)
    ensures Pow(b * b, n) == Pow(b, 2 * n)
  {
    if n == 0 {
    } else {
      PowSquare(b, n - 1);
      assert Pow(b, 2 * n) == b * Pow(b, 2 * n - 1) == b * (b * Pow(b, 2 * (n - 1)));
      Assoc(b, b, Pow(b, 2 * (n - 1)));
    }
  }

  /** Exponentiation by squaring computes the plain power. */
  method PowBySquaring(base: real, n: nat) returns (r: real)
    ensures r == Pow(base, n)
  {
    r := 1.0;
    var temp, remaining := base, n;
    while remaining > 0
      invariant r * Pow(temp, remaining) == Pow(base, n)
    {
      PowSquare(temp, remaining / 2);
      if remaining % 2 == 1 {
        assert Pow(temp, remaining) == temp * Pow(temp, 2 * (remaining / 2));
        Assoc(r, temp, Pow(temp, 2 * (remaining / 2)));
        r := r * temp;
      }
      temp := temp * temp;
      remaining := remaining / 2;
    }
  }

  lemma {:induction false} PowAtLeastOne(n: nat)
    ensures Pow(TICK_BASE, n) >= 1.0
  {
    if n == 0 {
    } else {
      PowAtLeastOne(n - 1);
    }
  }

  // ---- Ticks ----

  /** 1.0001 to the power of a tick of either sign. */
  function TickRatio(tick: int): (r: real)
    ensures r > 0.0
  {
    PowAtLeastOne(if tick < 0 then -tick else tick);
    if tick < 0 then 1.0 / Pow(TICK_BASE, -tick) else Pow(TICK_BASE, tick)
  }

  /** Each tick is one factor of 1.0001, through zero and below. */
  lemma TickRatioStep(tick: int)
    ensures TickRatio(tick + 1) == 1.0001 * TickRatio(tick)
  {
    if tick < 0 {
      var p := Pow(TICK_BASE, -tick - 1);
      PowAtLeastOne(-tick - 1);
      assert Pow(TICK_BASE, -tick) == TICK_BASE * p;
      assert TICK_BASE * (1.0 / (TICK_BASE * p)) == 1.0 / p;
    }
  }

  /** Tick zero is a ratio of one, and tick one of 1.0001. */
  lemma TickRatioStarts()
    ensures TickRatio(0) == 1.0 && TickRatio(1) == 1.0001
  {
    assert Pow(TICK_BASE, 0) == 1.0;
    assert Pow(TICK_BASE, 1) == TICK_BASE * 1.0;
  }

  /** Negative ticks are reciprocals. */
  lemma TickRatioReciprocal(tick: int)
    ensures TickRatio(-tick) * TickRatio(tick) == 1.0
  {
  }

  lemma {:induction false} TickRatioMonotone(lo: int, hi: int)
    requires lo <= hi
    ensures TickRatio(lo) <= TickRatio(hi)
    decreases hi - lo
  {
    if lo < hi {
      TickRatioMonotone(lo, hi - 1);
      TickRatioStep(hi - 1);
    }
  }

  // ---- Prices ----

  function Adjust(ratio: real, decimals0: nat, decimals1: nat): (r: real)
    requires ratio > 0.0
    ensures r > 0.0
  {
    ratio * (Pow10(decimals0) as real) / (Pow10(decimals1) as real)
  }

  lemma AdjustMonotone(x: real, y: real, decimals0: nat, decimals1: nat)
    requires 0.0 < x <= y
    ensures Adjust(x, decimals0, decimals1) <= Adjust(y, decimals0, decimals1)
  {
    ScaleMono(x, y, Pow10(decimals0) as real, Pow10(decimals1) as real);
  }

  /** The price of a ratio with 8 decimals, in either orientation; the conversion truncates, and the value is positive. */
  function PriceOf(ratio: real, decimals0: nat, decimals1: nat, token0IsBase: bool): int
    requires ratio > 0.0
  {
    var adjusted := Adjust(ratio, decimals0, decimals1);
    ((if token0IsBase then adjusted else 1.0 / adjusted) * 100_000_000.0).Floor
  }

  function TickPrice(tick: int, decimals0: nat, decimals1: nat, token0IsBase: bool): int {
    PriceOf(TickRatio(tick), decimals0, decimals1, token0IsBase)
  }

  /** The price of a tick with 8 decimals: its ratio with the decimals of the tokens set right, or one over that, rounded down. */
  lemma TickPriceMeans(tick: int, decimals0: nat, decimals1: nat, token0IsBase: bool)
    ensures var adjusted := TickRatio(tick) * (Pow10(decimals0) as real) / (Pow10(decimals1) as real);
      adjusted > 0.0 &&
      var exact := (if token0IsBase then adjusted else 1.0 / adjusted) * 100_000_000.0;
      var p := TickPrice(tick, decimals0, decimals1, token0IsBase);
      p as real <= exact < p as real + 1.0
  {
    hide Pow10, TickRatio, Adjust;
    AdjustIs(TickRatio(tick), decimals0, decimals1);
    var adjusted := Adjust(TickRatio(tick), decimals0, decimals1);
    FloorBrackets((if token0IsBase then adjusted else 1.0 / adjusted) * 100_000_000.0);
  }

  lemma FloorBrackets(x: real)
    ensures x.Floor as real <= x < x.Floor as real + 1.0
  {
  }

  method TickToPrice(tick: int, decimals0: nat, decimals1: nat, token0IsBase: bool) returns (price: int)
    ensures price == TickPrice(tick, decimals0, decimals1, token0IsBase)
  {
    var absTick := if tick < 0 then -tick else tick;
    var ratio := PowBySquaring(TICK_BASE, absTick);
    PowAtLeastOne(absTick);
    if tick < 0 {
      ratio := 1.0 / ratio;
    }
    assert ratio == TickRatio(tick);
    var adjusted := Adjust(ratio, decimals0, decimals1);
    if !token0IsBase {
      if adjusted == 0.0 {
        return 0;
      }
      adjusted := 1.0 / adjusted;
    }
    price := (adjusted * 100_000_000.0).Floor;
  }

  lemma ScaleMono(x: real, y: real, num: real, den: real)
    requires 0.0 < x <= y && num > 0.0 && den > 0.0
    ensures x * num / den <= y * num / den
  {
    assert x * num <= y * num;
  }

  lemma ReciprocalAntitone(x: real, y: real)
    requires 0.0 < x <= y
    ensures 1.0 / y <= 1.0 / x
  {
  }

  lemma FloorOfScaled(x: real, y: real)
    requires x <= y
    ensures (x * 100_000_000.0).Floor <= (y * 100_000_000.0).Floor
  {
  }

  lemma PriceMonotone(x: real, y: real, decimals0: nat, decimals1: nat)
    requires 0.0 < x <= y
    ensures PriceOf(x, decimals0, decimals1, true) <= PriceOf(y, decimals0, decimals1, true)
    ensures PriceOf(y, decimals0, decimals1, false) <= PriceOf(x, decimals0, decimals1, false)
  {
    var a, b := Adjust(x, decimals0, decimals1), Adjust(y, decimals0, decimals1);
    AdjustMonotone(x, y, decimals0, decimals1);
    ReciprocalAntitone(a, b);
    FloorOfScaled(a, b);
    FloorOfScaled(1.0 / b, 1.0 / a);
  }

  /** A higher tick is a higher price in the base orientation and a lower one in the other. */
  lemma TickPriceMonotone(lo: int, hi: int, decimals0: nat, decimals1: nat)
    requires lo <= hi
    ensures TickPrice(lo, decimals0, decimals1, true) <= TickPrice(hi, decimals0, decimals1, true)
    ensures TickPrice(hi, decimals0, decimals1, false) <= TickPrice(lo, decimals0, decimals1, false)
  {
    TickRatioMonotone(lo, hi);
    PriceMonotone(TickRatio(lo), TickRatio(hi), decimals0, decimals1);
  }

  /** The two orientations of one tick are reciprocal at scale 10^8, up to the two floors. */
  lemma TickOrientationsAreReciprocal(tick: int, decimals0: nat, decimals1: nat)
    ensures var x := TickPrice(tick, decimals0, decimals1, true);
      var y := TickPrice(tick, decimals0, decimals1, false);
      0 <= x && 0 <= y && x * y <= 1_0000_0000_0000_0000 < (x + 1) * (y + 1)
  {
    var r := Adjust(TickRatio(tick), decimals0, decimals1);
    var p, q := r * 100_000_000.0, (1.0 / r) * 100_000_000.0;
    assert p * q == (r * (1.0 / r)) * 1_0000_0000_0000_0000.0;
    FloorProduct(p, q);
  }

  lemma BetweenProducts(x: real, p: real, y: real, q: real)
    requires 0.0 <= x <= p < x + 1.0 && 0.0 <= y <= q < y + 1.0
    ensures x * y <= p * q < (x + 1.0) * (y + 1.0)
  {
    RealProduct(x, p, y, q);
    RealProduct(p, x + 1.0, q, y + 1.0);
  }

  lemma RealProduct(a: real, b: real, c: real, d: real)
    requires 0.0 <= a <= b && 0.0 <= c <= d
    ensures a * c <= b * d
    ensures a < b && c < d ==> a * c < b * d
  {
    assert a * c <= a * d;
    assert a * d <= b * d;
    if a < b && c < d { assert a * d < b * d; }
  }

  lemma FloorProduct(p: real, q: real)
    requires p > 0.0 && q > 0.0 && p * q == 1_0000_0000_0000_0000.0
    ensures 0 <= p.Floor && 0 <= q.Floor && p.Floor * q.Floor <= 1_0000_0000_0000_0000 < (p.Floor + 1) * (q.Floor + 1)
  {
    var x, y := p.Floor, q.Floor;
    BetweenProducts(x as real, p, y as real, q);
    ProductAsReal(x, y);
    ProductAsReal(x + 1, y + 1);
  }

  lemma ProductAsReal(x: int, y: int)
    ensures (x * y) as real == (x as real) * (y as real)
  {
  }

  // ---- The spot price ----

  lemma FloorOfQuotient(x: real, num: nat, den: nat)
    requires den > 0 && x * (den as real) == num as real
    ensures x.Floor == num / den
  {
    FloorDiv(num, den);
    FloorBetween(x, num, den, num / den, den * (num / den), den * (num / den + 1));
  }

  lemma FloorBetween(x: real, num: int, den: nat, q: int, low: int, high: int)
    requires den > 0 && x * (den as real) == num as real
    requires low == den * q && high == den * (q + 1) && low <= num < high
    ensures x.Floor == q
  {
    ProductAsReal(den, q);
    ProductAsReal(den, q + 1);
    RealBetween(x, den as real, num as real, q as real, (q + 1) as real);
    FloorIs(x, q);
  }

  lemma RealBetween(x: real, d: real, num: real, low: real, high: real)
    requires d > 0.0 && x * d == num && d * low <= num < d * high
    ensures low <= x < high
  {
    Commutes(x, d);
    CancelReal(low, x, d);
    CancelReal(x, high, d);
  }

  lemma Commutes(x: real, y: real)
    ensures x * y == y * x
  {
  }

  lemma FloorIs(x: real, q: int)
    requires q as real <= x < (q + 1) as real
    ensures x.Floor == q
  {
  }

  lemma CancelReal(x: real, y: real, d: real)
    requires d > 0.0
    ensures d * x <= d * y ==> x <= y
    ensures d * x < d * y ==> x < y
  {
    if x > y { assert d * x > d * y; }
    if x == y { assert d * x == d * y; }
  }

  lemma BaseQuotient(a: real, q: real, d0: real, d1: real, s: real)
    requires q > 0.0 && d1 > 0.0
    ensures (a / q * d0 / d1 * s) * (q * d1) == a * s * d0
  {
    var r := a / q;
    var t := r * d0 / d1;
    assert r * q == a && t * d1 == r * d0;
    assert (t * s) * (q * d1) == (t * d1) * (s * q);
    assert (r * d0) * (s * q) == (r * q) * (s * d0);
    assert a * (s * d0) == a * s * d0;
  }

  lemma InverseQuotient(a: real, q: real, d0: real, d1: real, s: real)
    requires a > 0.0 && q > 0.0 && d0 > 0.0 && d1 > 0.0 && a / q * d0 / d1 > 0.0
    ensures (1.0 / (a / q * d0 / d1) * s) * (a * d0) == q * s * d1
  {
    var t := a / q * d0 / d1;
    BaseQuotient(a, q, d0, d1, 1.0);
    assert t * (q * d1) == a * d0;
    var u := 1.0 / t;
    assert u * t == 1.0;
    assert (u * s) * (t * (q * d1)) == (u * t) * (s * (q * d1));
    assert s * (q * d1) == q * s * d1;
  }

  /**
   The spot reading, in integers, and the tick reading, in reals, are one function of the pool's ratio: at
   a square-root price the spot price is the price of the ratio it stands for.
   */
  lemma SpotAndTickAgree(sqrtPriceX96: nat, decimals0: nat, decimals1: nat, token0IsBase: bool)
    requires sqrtPriceX96 > 0
    ensures var sq, two192 := sqrtPriceX96 * sqrtPriceX96, 0x1_0000_0000_0000_0000_0000_0000 * 0x1_0000_0000_0000_0000_0000_0000;
      sq > 0 && SqrtPriceToPrice(sqrtPriceX96, decimals0, decimals1, token0IsBase)
             == PriceOf((sq as real) / (two192 as real), decimals0, decimals1, token0IsBase)
  {
    hide Adjust, PriceOf;
    var sq := sqrtPriceX96 * sqrtPriceX96;
    assert sq > 0;
    RatioPrice(sq, (sq as real) / (Q192 as real), decimals0, decimals1, token0IsBase);
  }

  predicate IsRatio(ratio: real, sq: nat) {
    ratio == (sq as real) / (Q192 as real)
  }

  lemma RatioPrice(sq: nat, ratio: real, decimals0: nat, decimals1: nat, token0IsBase: bool)
    requires sq > 0 && ratio > 0.0 && IsRatio(ratio, sq)
    ensures Q192 * Pow10(decimals1) > 0 && sq * Pow10(decimals0) > 0
    ensures PriceOf(ratio, decimals0, decimals1, token0IsBase)
      == if token0IsBase then sq * SCALE8 * Pow10(decimals0) / (Q192 * Pow10(decimals1))
         else Q192 * SCALE8 * Pow10(decimals1) / (sq * Pow10(decimals0))
  {
    hide Adjust, Pow10, IsRatio;
    AdjustIs(ratio, decimals0, decimals1);
    SpotQuotient(sq, Pow10(decimals0), Pow10(decimals1), ratio, Adjust(ratio, decimals0, decimals1), token0IsBase);
  }

  lemma AdjustIs(ratio: real, decimals0: nat, decimals1: nat)
    requires ratio > 0.0
    ensures Adjust(ratio, decimals0, decimals1) == ratio * (Pow10(decimals0) as real) / (Pow10(decimals1) as real)
  {
    hide Pow10;
  }

  lemma SpotQuotient(sq: nat, d0: nat, d1: nat, ratio: real, adjusted: real, token0IsBase: bool)
    requires sq > 0 && d0 > 0 && d1 > 0
    requires IsRatio(ratio, sq) && adjusted == ratio * (d0 as real) / (d1 as real) && adjusted > 0.0
    ensures Q192 * d1 > 0 && sq * d0 > 0
    ensures ((if token0IsBase then adjusted else 1.0 / adjusted) * 100_000_000.0).Floor
      == if token0IsBase then sq * SCALE8 * d0 / (Q192 * d1) else Q192 * SCALE8 * d1 / (sq * d0)
  {
    ProductAsReal(Q192, d1);
    ProductAsReal(sq, d0);
    assert Q192 * d1 > 0 && sq * d0 > 0;
    if token0IsBase {
      BaseQuotient(sq as real, Q192 as real, d0 as real, d1 as real, 100_000_000.0);
      ProductAsReal(sq, SCALE8);
      ProductAsReal(sq * SCALE8, d0);
      FloorOfQuotient(adjusted * 100_000_000.0, sq * SCALE8 * d0, Q192 * d1);
    } else {
      InverseQuotient(sq as real, Q192 as real, d0 as real, d1 as real, 100_000_000.0);
      ProductAsReal(Q192, SCALE8);
      ProductAsReal(Q192 * SCALE8, d1);
      FloorOfQuotient(1.0 / adjusted * 100_000_000.0, Q192 * SCALE8 * d1, sq * d0);
    }
  }

  // ---- The average ----

  /** observe's cumulative ticks differ by the sum of the ticks in between; big.Int.Div is Euclidean, as `/` is here. */
  function AverageTick(ticks: seq<int>): int
    requires ticks != []
  {
    Sum(ticks) / |ticks|
  }

  method ReadTWAP(cumulativeBefore: int, cumulativeNow: int, windowSecs: nat, decimals0: nat, decimals1: nat, token0IsBase: bool,
                  ghost ticks: seq<int>) returns (price: int)
    requires windowSecs > 0
    requires |ticks| == windowSecs && cumulativeNow - cumulativeBefore == Sum(ticks)
    ensures price == TickPrice(AverageTick(ticks), decimals0, decimals1, token0IsBase)
  {
    var avgTick := (cumulativeNow - cumulativeBefore) / windowSecs;
    price := TickToPrice(avgTick, decimals0, decimals1, token0IsBase);
  }

  lemma {:induction false} SumWithin(ticks: seq<int>, lo: int, hi: int)
    requires forall i :: 0 <= i < |ticks| ==> lo <= ticks[i] <= hi
    ensures |ticks| * lo <= Sum(ticks) <= |ticks| * hi
  {
    if ticks == [] {
    } else {
      SumWithin(ticks[..|ticks| - 1], lo, hi);
      assert |ticks| * lo == (|ticks| - 1) * lo + lo;
      assert |ticks| * hi == (|ticks| - 1) * hi + hi;
    }
  }

  lemma CancelFactor(n: nat, a: int, b: int)
    requires n > 0 && n * a < n * b + n
    ensures a <= b
  {
    assert n * b + n == n * (b + 1);
    if a > b { MulMono(b + 1, a, n); }
  }

  lemma DivWithin(x: int, n: nat, lo: int, hi: int)
    requires n > 0 && n * lo <= x <= n * hi
    ensures lo <= x / n <= hi
  {
    var q := x / n;
    assert n * q <= x < n * q + n;
    CancelFactor(n, lo, q);
    CancelFactor(n, q, hi);
  }

  /** If every tick of the window is in [lo, hi], so is the average, and its price is between theirs. */
  lemma TwapIsContained(ticks: seq<int>, lo: int, hi: int, decimals0: nat, decimals1: nat)
    requires ticks != [] && forall i :: 0 <= i < |ticks| ==> lo <= ticks[i] <= hi
    ensures lo <= AverageTick(ticks) <= hi
    ensures TickPrice(lo, decimals0, decimals1, true) <= TickPrice(AverageTick(ticks), decimals0, decimals1, true)
            <= TickPrice(hi, decimals0, decimals1, true)
    ensures TickPrice(hi, decimals0, decimals1, false) <= TickPrice(AverageTick(ticks), decimals0, decimals1, false)
            <= TickPrice(lo, decimals0, decimals1, false)
  {
    SumWithin(ticks, lo, hi);
    DivWithin(Sum(ticks), |ticks|, lo, hi);
    TickPriceMonotone(lo, AverageTick(ticks), decimals0, decimals1);
    TickPriceMonotone(AverageTick(ticks), hi, decimals0, decimals1);
  }

  /**
   What the average is for: a price held for one second, however extreme, moves the average tick by
   no more than its own change divided by the window, rounded either way.
   */
  lemma TwapDampens(ticks: seq<int>, k: nat, extreme: int)
    requires k < |ticks|
    ensures var shift := AverageTick(ticks[k := extreme]) - AverageTick(ticks);
      (extreme - ticks[k]) / |ticks| <= shift <= (extreme - ticks[k]) / |ticks| + 1
  {
    var n, d := |ticks|, extreme - ticks[k];
    SumUpdate(ticks, k, extreme);
    DivOfSum(Sum(ticks), d, n);
  }

  lemma DivOfSum(x: int, d: int, n: nat)
    requires n > 0
    ensures x / n + d / n <= (x + d) / n <= x / n + d / n + 1
  {
    var q, r := x / n, d / n;
    assert n * q <= x < n * q + n && n * r <= d < n * r + n;
    assert n * (q + r) == n * q + n * r && n * (q + r + 1) == n * q + n * r + n;
    var s := (x + d) / n;
    assert n * s <= x + d < n * s + n;
    CancelFactor(n, q + r, s);
    CancelFactor(n, s, q + r + 1);
  }
}
