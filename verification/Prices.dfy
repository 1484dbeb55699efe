/** Fixed-point price arithmetic: the minimum output of a swap and the two orientations of a pool price. */
module Prices {
  import opened Types
  import opened Amounts

  function Pow10(n: nat): (r: nat)
    ensures r > 0
  {
    if n == 0 then 1 else 10 * Pow10(n - 1)
  }

  const SCALE8 := 1_0000_0000

  // ---- computeMinAmountOut ----

  /** The output at the trigger price, before slippage; prices carry 8 decimals. */
  function ExpectedOut(price: int, amountIn: int, decimalsIn: nat, decimalsOut: nat): int {
    amountIn * price * Pow10(decimalsOut) / (Pow10(decimalsIn) * SCALE8)
  }

  /** `10000-slippageBps` is computed in uint16 and wraps when the slippage exceeds 10000. */
  function SlippageFactor(slippageBps: uint16): uint16 {
    (BPS - slippageBps) % 0x1_0000
  }

  function MinAmountOut(price: int, amountIn: int, slippageBps: uint16, decimalsIn: nat, decimalsOut: nat): int {
    ExpectedOut(price, amountIn, decimalsIn, decimalsOut) * SlippageFactor(slippageBps) / BPS
  }

  lemma FloorDiv(num: nat, den: nat)
    requires den > 0
    ensures den * (num / den) <= num < den * (num / den + 1)
    ensures num / den >= 0
  {
    assert num == den * (num / den) + num % den;
    if num / den < 0 {
      MulMono(num / den, -1, den);
    }
  }

  lemma FloorAtLeast(num: nat, den: nat, q: int)
    requires den > 0 && den * q <= num
    ensures q <= num / den
  {
    FloorDiv(num, den);
    if num / den + 1 <= q {
      MulMono(num / den + 1, q, den);
    }
  }

  lemma FloorMono(a: nat, b: nat, den: nat)
    requires den > 0 && a <= b
    ensures a / den <= b / den
  {
    FloorDiv(a, den);
    FloorAtLeast(b, den, a / den);
  }

  /** The bound is at most the exact rational value, and less than two units below it. */
  lemma MinAmountOutIsTight(price: nat, amountIn: nat, slippageBps: uint16, decimalsIn: nat, decimalsOut: nat)
    requires slippageBps <= BPS
    ensures var exact, unit := amountIn * price * Pow10(decimalsOut) * (10000 - slippageBps), 10000 * (Pow10(decimalsIn) * 1_0000_0000);
      var m := MinAmountOut(price, amountIn, slippageBps, decimalsIn, decimalsOut);
      0 <= m && m * unit <= exact < (m + 2) * unit
  {
    var num, den := amountIn * price * Pow10(decimalsOut), Pow10(decimalsIn) * SCALE8;
    assert num >= 0 by { assert amountIn * price >= 0; MulMono(0, amountIn * price, Pow10(decimalsOut)); }
    var keep := BPS - slippageBps;
    var e := num / den;
    FloorDiv(num, den);
    assert e * keep >= 0;
    var m := e * keep / BPS;
    FloorDiv(e * keep, BPS);
    TwoFloors(num, den, e, keep, m);
  }

  lemma TwoFloors(num: nat, den: nat, e: nat, keep: nat, m: nat)
    requires den > 0 && keep <= BPS
    requires den * e <= num < den * (e + 1)
    requires BPS * m <= e * keep < BPS * (m + 1)
    ensures m * (BPS * den) <= num * keep < (m + 2) * (BPS * den)
  {
    ScaledFloor(num, den, e, keep);
    assert m * (BPS * den) == den * (BPS * m);
    MulMono(BPS * m, e * keep, den);
    MulMono(e * keep + 1, BPS * (m + 1), den);
    assert den * (e * keep + 1) == den * (e * keep) + den;
    assert (m + 2) * (BPS * den) == den * (BPS * (m + 1)) + BPS * den;
  }

  lemma ScaledFloor(num: nat, den: nat, e: nat, keep: nat)
    requires den > 0 && keep <= BPS
    requires den * e <= num < den * (e + 1)
    ensures den * (e * keep) <= num * keep <= den * (e * keep) + BPS * den
  {
    MulMono(den * e, num, keep);
    MulMono(num, den * e + den, keep);
    assert den * (e * keep) == den * e * keep;
    assert (den * e + den) * keep == den * e * keep + den * keep;
    MulMono(keep, BPS, den);
  }

  /** Larger amounts and prices raise the bound; more slippage lowers it. */
  lemma MinAmountOutMonotone(price: nat, price': nat, amountIn: nat, amountIn': nat, slippageBps: uint16, slippageBps': uint16,
                             decimalsIn: nat, decimalsOut: nat)
    requires price <= price' && amountIn <= amountIn' && slippageBps' <= slippageBps <= BPS
    ensures MinAmountOut(price, amountIn, slippageBps, decimalsIn, decimalsOut)
         <= MinAmountOut(price', amountIn', slippageBps', decimalsIn, decimalsOut)
  {
    hide Pow10, MinAmountOut;
    var d, den := Pow10(decimalsOut), Pow10(decimalsIn) * SCALE8;
    MinimumIs(price, amountIn, slippageBps, decimalsIn, decimalsOut);
    MinimumIs(price', amountIn', slippageBps', decimalsIn, decimalsOut);
    ProductMono(amountIn, price, amountIn', price');
    ProductMono(amountIn * price, d, amountIn' * price', d);
    ExpectedMono(amountIn * price * d, amountIn' * price' * d, den, BPS - slippageBps, BPS - slippageBps');
  }

  lemma MinimumIs(price: int, amountIn: int, slippageBps: uint16, decimalsIn: nat, decimalsOut: nat)
    requires slippageBps <= BPS
    ensures MinAmountOut(price, amountIn, slippageBps, decimalsIn, decimalsOut) ==
      amountIn * price * Pow10(decimalsOut) / (Pow10(decimalsIn) * SCALE8) * (BPS - slippageBps) / BPS
  {
  }

  lemma ExpectedMono(a: nat, b: nat, den: nat, keep: nat, keep': nat)
    requires den > 0 && a <= b && keep <= keep'
    ensures a / den * keep / BPS <= b / den * keep' / BPS
  {
    FloorMono(a, b, den);
    FloorDiv(a, den);
    FloorDiv(b, den);
    ProductMono(a / den, keep, b / den, keep');
    FloorMono(a / den * keep, b / den * keep', BPS);
  }

  lemma ProductMono(x: nat, y: nat, x': nat, y': nat)
    requires x <= x' && y <= y'
    ensures 0 <= x * y <= x' * y'
  {
    MulMono(0, x, y);
    MulMono(x, x', y);
    MulMono(y, y', x');
  }

  lemma FloorSuperadditive(a: nat, b: nat, den: nat)
    requires den > 0
    ensures a / den + b / den <= (a + b) / den
  {
    FloorDiv(a, den);
    FloorDiv(b, den);
    assert den * (a / den + b / den) == den * (a / den) + den * (b / den);
    FloorAtLeast(a + b, den, a / den + b / den);
  }

  /** Splitting an order never raises the total minimum. */
  lemma MinAmountOutSuperadditive(price: nat, a: nat, b: nat, slippageBps: uint16, decimalsIn: nat, decimalsOut: nat)
    requires slippageBps <= BPS
    ensures MinAmountOut(price, a, slippageBps, decimalsIn, decimalsOut) + MinAmountOut(price, b, slippageBps, decimalsIn, decimalsOut)
         <= MinAmountOut(price, a + b, slippageBps, decimalsIn, decimalsOut)
  {
    var d, den := Pow10(decimalsOut), Pow10(decimalsIn) * SCALE8;
    ProductMono(0, 0, a, price);
    ProductMono(0, 0, a * price, d);
    ProductMono(0, 0, b, price);
    ProductMono(0, 0, b * price, d);
    assert (a + b) * price * d == a * price * d + b * price * d by {
      assert (a + b) * price == a * price + b * price;
      assert (a * price + b * price) * d == a * price * d + b * price * d;
    }
    SharesSuperadditive(a * price * d, b * price * d, den, BPS - slippageBps);
  }

  lemma SharesSuperadditive(x: nat, y: nat, den: nat, keep: nat)
    requires den > 0
    ensures x / den * keep / BPS + y / den * keep / BPS <= (x + y) / den * keep / BPS
  {
    FloorSuperadditive(x, y, den);
    FloorDiv(x, den);
    FloorDiv(y, den);
    var e, f, g := x / den, y / den, (x + y) / den;
    ProductMono(0, 0, e, keep);
    ProductMono(0, 0, f, keep);
    FloorSuperadditive(e * keep, f * keep, BPS);
    ProductMono(e + f, keep, g, keep);
    assert (e + f) * keep == e * keep + f * keep;
    FloorMono(e * keep + f * keep, g * keep, BPS);
  }

  /**
   The bound never exceeds the expected output exactly when the slippage is at most 10000, or so
   little is expected that the wrapped factor's excess does not reach one unit.
   */
  lemma MinAmountOutWrapsExactlyWhen(price: nat, amountIn: nat, slippageBps: uint16, decimalsIn: nat, decimalsOut: nat)
    ensures var e := ExpectedOut(price, amountIn, decimalsIn, decimalsOut);
      MinAmountOut(price, amountIn, slippageBps, decimalsIn, decimalsOut) <= e <==>
      slippageBps <= BPS || e * (0x1_0000 - slippageBps) < BPS
  {
    var num, den := amountIn * price * Pow10(decimalsOut), Pow10(decimalsIn) * SCALE8;
    assert num >= 0 by { MulMono(0, amountIn * price, Pow10(decimalsOut)); }
    FloorDiv(num, den);
    var e, f := num / den, SlippageFactor(slippageBps);
    assert e * f >= 0;
    FloorDiv(e * f, BPS);
    if slippageBps <= BPS {
      MulMono(f, BPS, e);
    } else {
      assert f == 0x1_0000 + BPS - slippageBps;
      assert e * f == e * (0x1_0000 - slippageBps) + e * BPS;
    }
  }

  /** One basis point of slippage too many asks for more than six times the 10000 that the trigger price gives. */
  lemma MinAmountOutWrapExample()
    ensures MinAmountOut(SCALE8, 10000, 10001, 0, 0) == 65535
  {
    assert Pow10(0) == 1;
  }

  /**
   Fee and slippage are compatible: the contract swaps only what the fee leaves, yet a pool that
   honours the trigger price on it clears the minimum computed on the whole amount.
   */
  lemma FeeWithinSlippageClears(price: nat, amountIn: nat, feeBps: uint16, slippageBps: uint16,
                                decimalsIn: nat, decimalsOut: nat, paid: int)
    requires feeBps <= slippageBps <= BPS
    requires paid >= ExpectedOut(price, amountIn - MulBps(amountIn, feeBps), decimalsIn, decimalsOut)
    ensures paid >= MinAmountOut(price, amountIn, slippageBps, decimalsIn, decimalsOut)
  {
    var net := amountIn - MulBps(amountIn, feeBps);
    MulBpsWithin(amountIn, feeBps);
    var d, den, keep := Pow10(decimalsOut), Pow10(decimalsIn) * SCALE8, BPS - slippageBps;
    ProductMono(0, 0, amountIn, price);
    ProductMono(0, 0, amountIn * price, d);
    ProductMono(0, 0, net, price);
    ProductMono(0, 0, net * price, d);
    NetKeeps(amountIn, feeBps, slippageBps);
    ScaleUp(amountIn, keep, net, price, d);
    FloorOfShare(amountIn * price * d, den, keep, net * price * d);
  }

  lemma NetKeeps(amountIn: nat, feeBps: uint16, slippageBps: uint16)
    requires feeBps <= slippageBps <= BPS
    ensures amountIn * (BPS - slippageBps) <= BPS * (amountIn - MulBps(amountIn, feeBps))
  {
    MulBpsFloor(amountIn, feeBps);
    MulMono(BPS - slippageBps, BPS - feeBps, amountIn);
    assert amountIn * (BPS - feeBps) == amountIn * BPS - amountIn * feeBps;
  }

  lemma ScaleUp(a: nat, keep: nat, net: nat, p: nat, d: nat)
    requires a * keep <= BPS * net
    ensures a * p * d * keep <= BPS * (net * p * d)
  {
    MulMono(a * keep, BPS * net, p * d);
    Shuffle(a, keep, p, d);
    Shuffle(net, BPS, p, d);
    assert a * keep * (p * d) == a * keep * p * d;
    assert BPS * net * (p * d) == BPS * net * p * d;
  }

  lemma FloorOfShare(x: nat, den: nat, keep: nat, y: nat)
    requires den > 0 && x * keep <= BPS * y
    ensures x / den * keep / BPS <= y / den
  {
    FloorDiv(x, den);
    var e := x / den;
    ProductMono(0, 0, e, keep);
    FloorDiv(e * keep, BPS);
    var m := e * keep / BPS;
    MulMono(BPS * m, e * keep, den);
    MulMono(den * e, x, keep);
    assert den * (e * keep) == den * e * keep;
    assert den * (BPS * m) == BPS * (den * m);
    FloorAtLeast(y, den, m);
  }

  lemma Shuffle(a: int, k: int, p: int, d: int)
    ensures a * k * p * d == a * p * d * k
    ensures k * a * p * d == k * (a * p * d)
  {
    assert a * k * p == a * p * k;
    assert a * p * k * d == a * p * d * k;
    assert k * a * p == k * (a * p);
    assert k * (a * p) * d == k * (a * p * d);
  }

  /** For a pair of settings, that compatibility holds at every price and amount only if fee <= slippage. */
  lemma FeeBeyondSlippageFails(feeBps: uint16, slippageBps: uint16)
    requires slippageBps < feeBps <= BPS
    ensures ExpectedOut(SCALE8, BPS - MulBps(BPS, feeBps), 0, 0) < MinAmountOut(SCALE8, BPS, slippageBps, 0, 0)
  {
    assert Pow10(0) == 1;
    assert MulBps(BPS, feeBps) == feeBps;
    assert (BPS - feeBps) * SCALE8 * 1 / (1 * SCALE8) == BPS - feeBps;
    assert BPS * SCALE8 * 1 / (1 * SCALE8) == BPS;
  }

  // ---- sqrtPriceX96ToPrice ----

  const Q192: nat := 0x1_0000_0000_0000_0000_0000_0000_0000_0000_0000_0000_0000_0000

  function SqrtPriceToPrice(sqrtPriceX96: nat, decimals0: nat, decimals1: nat, token0IsBase: bool): int
    requires sqrtPriceX96 > 0
  {
    var sq := sqrtPriceX96 * sqrtPriceX96;
    assert sq > 0;
    if token0IsBase then sq * SCALE8 * Pow10(decimals0) / (Q192 * Pow10(decimals1))
    else
      assert sq * Pow10(decimals0) > 0;
      Q192 * SCALE8 * Pow10(decimals1) / (sq * Pow10(decimals0))
  }

  /**
   What a spot price is, with 8 decimals: the square of the pool's root over 2^192, with the decimals of the tokens
   set right, rounded down; in the other orientation one over that.
   */
  lemma SpotPriceMeans(sqrtPriceX96: nat, decimals0: nat, decimals1: nat)
    requires sqrtPriceX96 > 0
    ensures var p, sq := SqrtPriceToPrice(sqrtPriceX96, decimals0, decimals1, true), sqrtPriceX96 * sqrtPriceX96;
      var unit := 0x1_0000_0000_0000_0000_0000_0000 * 0x1_0000_0000_0000_0000_0000_0000 * Pow10(decimals1);
      p >= 0 && unit * p <= sq * 100_000_000 * Pow10(decimals0) < unit * (p + 1)
    ensures var p, sq := SqrtPriceToPrice(sqrtPriceX96, decimals0, decimals1, false), sqrtPriceX96 * sqrtPriceX96;
      var unit := sq * Pow10(decimals0);
      p >= 0 && unit * p <= 0x1_0000_0000_0000_0000_0000_0000 * 0x1_0000_0000_0000_0000_0000_0000 * 100_000_000 * Pow10(decimals1)
             < unit * (p + 1)
  {
    var sq := sqrtPriceX96 * sqrtPriceX96;
    assert sq > 0;
    var d0, d1 := Pow10(decimals0), Pow10(decimals1);
    ProductMono(1, 1, sq, d0);
    ProductMono(0, 0, sq * SCALE8, d0);
    FloorDiv(sq * SCALE8 * d0, Q192 * d1);
    FloorDiv(Q192 * SCALE8 * d1, sq * d0);
  }

  /** With equal decimals they cancel, and a root of 2^96 is a price of one. */
  lemma SpotPriceOfEqualDecimals(sqrtPriceX96: nat, decimals: nat)
    requires sqrtPriceX96 > 0
    ensures var p, sq := SqrtPriceToPrice(sqrtPriceX96, decimals, decimals, true), sqrtPriceX96 * sqrtPriceX96;
      var two192 := 0x1_0000_0000_0000_0000_0000_0000 * 0x1_0000_0000_0000_0000_0000_0000;
      p * two192 <= sq * 100_000_000 < (p + 1) * two192
    ensures SqrtPriceToPrice(0x1_0000_0000_0000_0000_0000_0000, decimals, decimals, true) == 100_000_000
  {
    CancelsDecimals(sqrtPriceX96, decimals);
    CancelsDecimals(0x1_0000_0000_0000_0000_0000_0000, decimals);
  }

  lemma CancelsDecimals(sqrtPriceX96: nat, decimals: nat)
    requires sqrtPriceX96 > 0
    ensures var p, sq := SqrtPriceToPrice(sqrtPriceX96, decimals, decimals, true), sqrtPriceX96 * sqrtPriceX96;
      var two192 := 0x1_0000_0000_0000_0000_0000_0000 * 0x1_0000_0000_0000_0000_0000_0000;
      p * two192 <= sq * 100_000_000 < (p + 1) * two192
  {
    hide Pow10, SqrtPriceToPrice;
    SpotPriceMeans(sqrtPriceX96, decimals, decimals);
    var p, sq, d := SqrtPriceToPrice(sqrtPriceX96, decimals, decimals, true), sqrtPriceX96 * sqrtPriceX96, Pow10(decimals);
    var two192 := 0x1_0000_0000_0000_0000_0000_0000 * 0x1_0000_0000_0000_0000_0000_0000;
    assert two192 * d * p == d * (p * two192) && two192 * d * (p + 1) == d * ((p + 1) * two192);
    Cancel(d, p * two192, sq * 100_000_000);
    if sq * 100_000_000 >= (p + 1) * two192 { MulMono((p + 1) * two192, sq * 100_000_000, d); }
  }

  /** Quotes of x per y and y per x at scale S: their product brackets S squared. */
  lemma ReciprocalFloors(a: nat, b: nat, s: nat, x: int, y: int)
    requires a > 0 && b > 0 && a * s >= 0 && b * s >= 0
    requires x == a * s / b && y == b * s / a
    ensures 0 <= x && 0 <= y && x * y <= s * s < (x + 1) * (y + 1)
  {
    FloorDiv(a * s, b);
    FloorDiv(b * s, a);
    ProductBelow(a, b, s, x, y);
    ProductAbove(a, b, s, x + 1, y + 1);
  }

  lemma ProductBelow(a: nat, b: nat, s: nat, x: nat, y: nat)
    requires a > 0 && b > 0
    requires b * x <= a * s && a * y <= b * s
    ensures x * y <= s * s
  {
    ProductMono(b * x, a * y, a * s, b * s);
    Regroup(b, x, a, y);
    Regroup(a, s, b, s);
    ProductMono(1, 1, a, b);
    Cancel(a * b, x * y, s * s);
  }

  lemma Cancel(k: nat, p: int, q: int)
    requires k > 0 && k * p <= k * q
    ensures p <= q
  {
    if q < p { MulMono(q + 1, p, k); }
  }

  lemma ProductAbove(a: nat, b: nat, s: nat, x: nat, y: nat)
    requires a > 0 && b > 0
    requires a * s < b * x && b * s < a * y
    ensures s * s < x * y
  {
    assert 0 <= a * s && 0 <= b * s;
    StrictProduct(a * s, b * s, b * x, a * y);
    Regroup(b, x, a, y);
    Regroup(a, s, b, s);
    assert a * b == b * a > 0;
    if s * s >= x * y { MulMono(x * y, s * s, a * b); }
  }

  lemma StrictProduct(u: nat, v: nat, u': nat, v': nat)
    requires u < u' && v < v'
    ensures u * v < u' * v'
  {
    MulMono(v, v' - 1, u);
    MulMono(u + 1, u', v');
    assert (u + 1) * v' == u * v' + v' && u * (v' - 1) == u * v' - u;
  }

  lemma Regroup(p: int, q: int, r: int, s: int)
    ensures (p * q) * (r * s) == (p * r) * (q * s) == (r * p) * (q * s)
  {
    assert (p * q) * (r * s) == p * (q * (r * s));
    assert q * (r * s) == r * (q * s);
    assert p * (r * (q * s)) == (p * r) * (q * s);
  }

  /** The two orientations of one pool are reciprocal at scale 10^8, up to the two floors. */
  lemma OrientationsAreReciprocal(sqrtPriceX96: nat, decimals0: nat, decimals1: nat)
    requires sqrtPriceX96 > 0
    ensures var x := SqrtPriceToPrice(sqrtPriceX96, decimals0, decimals1, true);
      var y := SqrtPriceToPrice(sqrtPriceX96, decimals0, decimals1, false);
      0 <= x && 0 <= y && x * y <= 1_0000_0000_0000_0000 < (x + 1) * (y + 1)
  {
    var sq := sqrtPriceX96 * sqrtPriceX96;
    assert sq > 0;
    var a, b := sq * Pow10(decimals0), Q192 * Pow10(decimals1);
    assert a > 0 && b > 0;
    assert sq * SCALE8 * Pow10(decimals0) == a * SCALE8;
    assert Q192 * SCALE8 * Pow10(decimals1) == b * SCALE8;
    ReciprocalFloors(a, b, SCALE8, a * SCALE8 / b, b * SCALE8 / a);
  }

  /** One more decimal of token 0 is one more digit of the base price, and one less of the other. */
  lemma DecimalsShift(sqrtPriceX96: nat, decimals0: nat, decimals1: nat)
    requires sqrtPriceX96 > 0
    ensures SqrtPriceToPrice(sqrtPriceX96, decimals0 + 1, decimals1, true) / 10
         == SqrtPriceToPrice(sqrtPriceX96, decimals0, decimals1, true)
    ensures SqrtPriceToPrice(sqrtPriceX96, decimals0, decimals1, false) / 10
         == SqrtPriceToPrice(sqrtPriceX96, decimals0 + 1, decimals1, false)
  {
    var sq, d0, d1 := sqrtPriceX96 * sqrtPriceX96, Pow10(decimals0), Pow10(decimals1);
    assert sq > 0 && Q192 * d1 > 0 && sq * d0 > 0;
    assert sq * SCALE8 * (10 * d0) == 10 * (sq * SCALE8 * d0);
    DigitOff(sq * SCALE8 * d0, Q192 * d1);
    assert sq * (10 * d0) == 10 * (sq * d0);
    DigitMore(Q192 * SCALE8 * d1, sq * d0);
  }

  lemma DigitOff(num: nat, den: nat)
    requires den > 0
    ensures 10 * num / den / 10 == num / den
  {
    var q, r := num / den, 10 * num / den;
    FloorDiv(num, den);
    FloorDiv(10 * num, den);
    FloorAtLeast(10 * num, den, 10 * q);
    if r / 10 > q { MulMono(10 * q + 10, r, den); }
  }

  lemma DigitMore(num: nat, den: nat)
    requires den > 0
    ensures num / den / 10 == num / (10 * den)
  {
    var q, r := num / den, num / (10 * den);
    FloorDiv(num, den);
    FloorDiv(num, 10 * den);
    assert 10 * den * r == den * (10 * r);
    FloorAtLeast(num, den, 10 * r);
    assert den * (10 * (r + 1)) == 10 * den * (r + 1);
    if q >= 10 * (r + 1) { MulMono(10 * (r + 1), q, den); }
  }

  /** The base orientation rises with the pool price and the other falls. */
  lemma OrientationsAreMonotone(p: nat, q: nat, decimals0: nat, decimals1: nat)
    requires 0 < p <= q
    ensures SqrtPriceToPrice(p, decimals0, decimals1, true) <= SqrtPriceToPrice(q, decimals0, decimals1, true)
    ensures SqrtPriceToPrice(q, decimals0, decimals1, false) <= SqrtPriceToPrice(p, decimals0, decimals1, false)
  {
    var d0, d1 := Pow10(decimals0), Pow10(decimals1);
    assert p * p <= q * q by { MulMono(p, q, p); MulMono(p, q, q); }
    assert 0 < p * p;
    MulMono(p * p * SCALE8, q * q * SCALE8, d0);
    assert Q192 * d1 > 0;
    FloorMono(p * p * SCALE8 * d0, q * q * SCALE8 * d0, Q192 * d1);
    MulMono(p * p, q * q, d0);
    assert p * p * d0 > 0;
    FloorAntitone(Q192 * SCALE8 * d1, p * p * d0, q * q * d0);
  }

  lemma FloorAntitone(num: nat, den: nat, den': nat)
    requires 0 < den <= den'
    ensures num / den' <= num / den
  {
    FloorDiv(num, den');
    MulMono(den, den', num / den');
    FloorAtLeast(num, den, num / den');
  }

  /** LookupPool's reading of a pool configured for the opposite pair: decimals and base flag both swapped. */
  function ReversedPoolPrice(sqrtPriceX96: nat, decimals0: nat, decimals1: nat, token0IsBase: bool): int
    requires sqrtPriceX96 > 0
  {
    SqrtPriceToPrice(sqrtPriceX96, decimals1, decimals0, !token0IsBase)
  }

  /**
   The reversed reading is the pool's other orientation at every price exactly when the two tokens
   have equal decimals; otherwise the price 1 (2^96) already tells them apart.
   */
  lemma ReversedPoolIsOtherOrientationExactlyWhen(decimals0: nat, decimals1: nat, token0IsBase: bool)
    ensures (forall p: nat :: p > 0 ==>
              ReversedPoolPrice(p, decimals0, decimals1, token0IsBase) == SqrtPriceToPrice(p, decimals0, decimals1, !token0IsBase))
            <==> decimals0 == decimals1
  {
    if decimals0 != decimals1 {
      var p := 0x1_0000_0000_0000_0000_0000_0000;
      assert p * p == Q192;
      var d0, d1 := Pow10(decimals0), Pow10(decimals1);
      AtOne(d0, d1);
      AtOne(d1, d0);
      if decimals0 < decimals1 { QuotesDiffer(decimals0, decimals1); } else { QuotesDiffer(decimals1, decimals0); }
      assert ReversedPoolPrice(p, decimals0, decimals1, token0IsBase) != SqrtPriceToPrice(p, decimals0, decimals1, !token0IsBase);
    }
  }

  lemma AtOne(m: nat, n: nat)
    requires m > 0 && n > 0
    ensures Q192 * SCALE8 * m / (Q192 * n) == SCALE8 * m / n
  {
    var q := SCALE8 * m / n;
    FloorDiv(SCALE8 * m, n);
    assert Q192 * SCALE8 * m == Q192 * (SCALE8 * m);
    MulMono(n * q, SCALE8 * m, Q192);
    assert Q192 * n * q == Q192 * (n * q);
    FloorAtLeast(Q192 * SCALE8 * m, Q192 * n, q);
    var r := Q192 * SCALE8 * m / (Q192 * n);
    FloorDiv(Q192 * SCALE8 * m, Q192 * n);
    assert Q192 * n * r == Q192 * (n * r);
    assert n * r <= SCALE8 * m;
    FloorAtLeast(SCALE8 * m, n, r);
  }

  lemma QuotesDiffer(m: nat, n: nat)
    requires m < n
    ensures SCALE8 * Pow10(m) / Pow10(n) < SCALE8 * Pow10(n) / Pow10(m)
  {
    var a, b := Pow10(m), Pow10(n);
    PowersGrow(m, n);
    FloorDiv(SCALE8 * a, b);
    if SCALE8 * a / b >= SCALE8 {
      MulMono(SCALE8, SCALE8 * a / b, b);
    }
    assert a * SCALE8 <= SCALE8 * b;
    FloorAtLeast(SCALE8 * b, a, SCALE8);
  }

  lemma {:induction false} PowersGrow(m: nat, n: nat)
    requires m < n
    ensures 10 * Pow10(m) <= Pow10(n)
  {
    if m + 1 < n {
      PowersGrow(m, n - 1);
    }
  }
}
