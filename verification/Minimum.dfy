/**
 What the minimum output of a swap means: whether a pool that honours the trigger price clears it, and how
 it compares with what the trigger price less the slippage gives. The two directions differ: prices are
 quote per base, and a short position sells quote.
 */
module Minimum {
  import opened Types
  import opened Amounts
  import opened Rates
  import opened Lifecycle
  import Prices

  datatype Rate = Rate(num: nat, den: nat)

  /** What the trigger price of level `i` gives: for base its price in quote, for quote one over it. */
  function TriggerRate(p: Position, i: nat): (r: Rate)
    requires i < |p.levels| && p.levels[i].triggerPrice > 0
    ensures r.num > 0 && r.den > 0
  {
    var base, quote := Prices.Pow10(p.decimalsBase), Prices.Pow10(p.decimalsQuote);
    if p.direction == Long
    then Rate(Positive(p.levels[i].triggerPrice, quote), Positive(base, Prices.SCALE8))
    else Rate(Positive(Prices.SCALE8, base), Positive(p.levels[i].triggerPrice, quote))
  }

  /** What computeMinAmountOut multiplies by: the price, whichever token is sold. */
  function CodedRate(p: Position, i: nat): (r: Rate)
    requires i < |p.levels| && p.levels[i].triggerPrice > 0
    ensures r.num > 0 && r.den > 0
  {
    var base, quote := Prices.Pow10(p.decimalsBase), Prices.Pow10(p.decimalsQuote);
    var (sold, bought) := if p.direction == Long then (base, quote) else (quote, base);
    Rate(Positive(p.levels[i].triggerPrice, bought), Positive(sold, Prices.SCALE8))
  }

  function Positive(x: nat, y: nat): (r: nat)
    requires x > 0 && y > 0
    ensures r == x * y && r > 0
  {
    Prices.ProductMono(1, 1, x, y);
    x * y
  }

  /** The output of a pool that honours the trigger price. */
  function AtTrigger(p: Position, i: nat, amount: int): int
    requires i < |p.levels| && p.levels[i].triggerPrice > 0
  {
    amount * TriggerRate(p, i).num / TriggerRate(p, i).den
  }

  function SlippageOf(cfg: Config, p: Position, i: nat): uint16
    requires i < |p.levels| && p.chain in cfg
  {
    if p.levels[i].typ == SL then cfg[p.chain].slSlippageBps else cfg[p.chain].tpSlippageBps
  }

  /** What the slippage leaves, of 10000; the code computes it in uint16. */
  function Kept(cfg: Config, p: Position, i: nat): uint16
    requires i < |p.levels| && p.chain in cfg
  {
    Prices.SlippageFactor(SlippageOf(cfg, p, i))
  }

  /** A pool that honours the trigger price, on what the fee leaves, pays the minimum. */
  predicate Clears(cfg: Config, p: Position, i: nat, feeBps: uint16)
    requires i < |p.levels| && p.chain in cfg && p.levels[i].triggerPrice > 0
  {
    var s := SwapOf(cfg, p, i);
    s.minAmountOut <= AtTrigger(p, i, s.amountIn - MulBps(s.amountIn, feeBps))
  }

  /** The minimum that the trigger price less the slippage would give. */
  function Intended(cfg: Config, p: Position, i: nat): int
    requires i < |p.levels| && p.chain in cfg && p.levels[i].triggerPrice > 0
  {
    AtTrigger(p, i, AmountIn(p, i)) * Kept(cfg, p, i) / BPS
  }

  function OfSize(p: Position, size: nat): Position {
    p.(remainingSize := size)
  }

  // ---- What a swap asks for ----

  /** The same position with tokens, decimals and direction exchanged, and the prices left as they are. */
  function Exchanged(p: Position): Position {
    p.(tokenBase := p.tokenQuote, tokenQuote := p.tokenBase, decimalsBase := p.decimalsQuote, decimalsQuote := p.decimalsBase,
       direction := if p.direction == Long then Short else Long)
  }

  /**
   The code makes no other difference between the directions: a short position swaps as the long one does
   that has the tokens exchanged. A price is not the same price then, but one over it.
   */
  lemma SwapIsExchanged(cfg: Config, p: Position, i: nat)
    requires i < |p.levels| && p.chain in cfg && p.levels[i].triggerPrice > 0
    ensures SwapOf(cfg, Exchanged(p), i) == SwapOf(cfg, p, i) && CodedRate(Exchanged(p), i) == CodedRate(p, i)
  {
  }

  /**
   A swap sells base for a long position and quote for a short one, no more than there is, and asks for the
   amount times the price less the slippage of the level's type: at most two units below that, never above.
   */
  lemma SwapIsBounded(cfg: Config, p: Position, i: nat)
    requires i < |p.levels| && p.chain in cfg && p.remainingSize >= 0
    requires p.levels[i].triggerPrice >= 0 && p.levels[i].portionBps <= BPS
    requires SlippageOf(cfg, p, i) <= BPS
    ensures var s, l, long := SwapOf(cfg, p, i), p.levels[i], p.direction == Long;
      var sold, bought := if long then p.decimalsBase else p.decimalsQuote, if long then p.decimalsQuote else p.decimalsBase;
      var exact := s.amountIn * l.triggerPrice * Prices.Pow10(bought) * (BPS - SlippageOf(cfg, p, i));
      var unit := BPS * (Prices.Pow10(sold) * Prices.SCALE8);
      s.tokenIn == (if long then p.tokenBase else p.tokenQuote) && s.tokenOut == (if long then p.tokenQuote else p.tokenBase) &&
      0 <= s.amountIn <= p.remainingSize && 0 <= s.minAmountOut && s.minAmountOut * unit <= exact < (s.minAmountOut + 2) * unit
  {
    var l, long := p.levels[i], p.direction == Long;
    MulBpsWithin(p.remainingSize, l.portionBps);
    Prices.MinAmountOutIsTight(l.triggerPrice, AmountIn(p, i), SlippageOf(cfg, p, i),
                               if long then p.decimalsBase else p.decimalsQuote, if long then p.decimalsQuote else p.decimalsBase);
  }

  // ---- The swap in terms of rates ----

  lemma SwapAsks(cfg: Config, p: Position, i: nat)
    requires i < |p.levels| && p.chain in cfg && p.levels[i].triggerPrice > 0 && p.remainingSize >= 0
    ensures var s, t, c := SwapOf(cfg, p, i), TriggerRate(p, i), CodedRate(p, i);
      0 <= s.amountIn == AmountIn(p, i) &&
      s.minAmountOut == Asked(s.amountIn, c.num, c.den, Kept(cfg, p, i)) &&
      Intended(cfg, p, i) == Asked(s.amountIn, t.num, t.den, Kept(cfg, p, i))
  {
    hide Prices.Pow10, Prices.SlippageFactor;
    var a, price := AmountIn(p, i), p.levels[i].triggerPrice;
    MulBpsFloor(p.remainingSize, p.levels[i].portionBps);
    var bought := if p.direction == Long then Prices.Pow10(p.decimalsQuote) else Prices.Pow10(p.decimalsBase);
    assert a * price * bought == a * (price * bought);
  }

  /** Any multiple of the portion is the amount of some size. */
  lemma SizeFor(p: Position, i: nat, y: nat)
    requires i < |p.levels|
    ensures BPS * y >= 0 && AmountIn(OfSize(p, BPS * y), i) == p.levels[i].portionBps * y
  {
    var b := p.levels[i].portionBps;
    assert BPS * y * b == BPS * (b * y);
    ExactQuotient(Times(b, y), BPS);
  }

  /** The condition on the rates, in terms of the price alone. */
  lemma RatesMeet(p: Position, i: nat, keep: nat, left: nat)
    requires i < |p.levels| && p.levels[i].triggerPrice > 0
    ensures var t, c, price := TriggerRate(p, i), CodedRate(p, i), p.levels[i].triggerPrice;
      if p.direction == Long then t == c && (RatesAllow(p, i, keep, left) <==> keep <= left)
      else RatesAllow(p, i, keep, left) <==> price * price * keep <= Prices.SCALE8 * Prices.SCALE8 * left
  {
    hide Prices.Pow10;
    var t, c, price := TriggerRate(p, i), CodedRate(p, i), p.levels[i].triggerPrice;
    var base, quote := Prices.Pow10(p.decimalsBase), Prices.Pow10(p.decimalsQuote);
    if p.direction == Long {
      Scaled(Positive(c.num, c.den), keep, left);
    } else {
      var k := Positive(base, quote);
      assert c.num * t.den * keep == k * (price * price * keep);
      assert t.num * c.den * left == k * (Prices.SCALE8 * Prices.SCALE8 * left);
      Scaled(k, price * price * keep, Prices.SCALE8 * Prices.SCALE8 * left);
    }
  }

  lemma Scaled(k: nat, x: int, y: int)
    requires k > 0
    ensures k * x <= k * y <==> x <= y
  {
    if x <= y { MulMono(x, y, k); } else { MulMono(y + 1, x, k); }
  }

  // ---- Clearing the minimum ----

  /** The rate asked, less the slippage, is at most the trigger rate, less the fee. */
  predicate RatesAllow(p: Position, i: nat, keep: nat, left: nat)
    requires i < |p.levels| && p.levels[i].triggerPrice > 0
  {
    CodedRate(p, i).num * TriggerRate(p, i).den * keep <= TriggerRate(p, i).num * CodedRate(p, i).den * left
  }

  lemma EachClears(cfg: Config, p: Position, i: nat, feeBps: uint16, size: nat)
    requires i < |p.levels| && p.chain in cfg && p.levels[i].triggerPrice > 0 && feeBps <= BPS
    requires RatesAllow(p, i, Kept(cfg, p, i), BPS - feeBps)
    ensures Clears(cfg, OfSize(p, size), i, feeBps)
  {
    var t, c, q := TriggerRate(p, i), CodedRate(p, i), OfSize(p, size);
    hide TriggerRate, CodedRate, Kept, SwapOf, Asked, MulBps, AmountIn;
    SwapAsks(cfg, q, i);
    SameRates(cfg, p, size, i);
    ClearsWhen(SwapOf(cfg, q, i).amountIn, c.num, c.den, t.num, t.den, Kept(cfg, p, i), feeBps);
  }

  lemma SomeMisses(cfg: Config, p: Position, i: nat, feeBps: uint16) returns (size: nat)
    requires i < |p.levels| && p.chain in cfg && p.levels[i].triggerPrice > 0 && p.levels[i].portionBps > 0 && feeBps <= BPS
    requires !RatesAllow(p, i, Kept(cfg, p, i), BPS - feeBps)
    ensures !Clears(cfg, OfSize(p, size), i, feeBps)
  {
    var t, c, b := TriggerRate(p, i), CodedRate(p, i), p.levels[i].portionBps;
    hide TriggerRate, CodedRate, Kept, SwapOf, Asked, MulBps;
    size := Witness(p, i, c.den, t.den);
    SwapAsks(cfg, OfSize(p, size), i);
    SameRates(cfg, p, size, i);
    MissesAt(b, c.num, c.den, t.num, t.den, Kept(cfg, p, i), feeBps);
  }

  /** A size whose portion is a multiple at which nothing is rounded. */
  lemma Witness(p: Position, i: nat, d1: nat, d2: nat) returns (size: nat)
    requires i < |p.levels|
    ensures AmountIn(OfSize(p, size), i) == Times(BPS * d1, p.levels[i].portionBps * d2)
  {
    var y, b := Times(Times(BPS, d1), d2), p.levels[i].portionBps;
    size := Times(BPS, y);
    SizeFor(p, i, y);
    assert b * y == BPS * d1 * (b * d2);
  }

  lemma ClearsExactlyWhenRatesAllow(cfg: Config, p: Position, i: nat, feeBps: uint16)
    requires i < |p.levels| && p.chain in cfg && p.levels[i].triggerPrice > 0 && p.levels[i].portionBps > 0 && feeBps <= BPS
    ensures (forall size: nat :: Clears(cfg, OfSize(p, size), i, feeBps)) <==> RatesAllow(p, i, Kept(cfg, p, i), BPS - feeBps)
  {
    hide Clears, RatesAllow;
    if RatesAllow(p, i, Kept(cfg, p, i), BPS - feeBps) {
      forall size: nat
        ensures Clears(cfg, OfSize(p, size), i, feeBps)
      {
        EachClears(cfg, p, i, feeBps, size);
      }
    } else {
      var size := SomeMisses(cfg, p, i, feeBps);
    }
  }

  lemma SameRates(cfg: Config, p: Position, size: nat, i: nat)
    requires i < |p.levels| && p.chain in cfg && p.levels[i].triggerPrice > 0
    ensures var q := OfSize(p, size);
      TriggerRate(q, i) == TriggerRate(p, i) && CodedRate(q, i) == CodedRate(p, i) && Kept(cfg, q, i) == Kept(cfg, p, i)
  {
  }

  /** A long position's level can be executed at its trigger price, whatever its size, exactly when fee and slippage allow for it. */
  lemma LongClearsExactlyWhen(cfg: Config, p: Position, i: nat, feeBps: uint16)
    requires i < |p.levels| && p.chain in cfg && p.levels[i].triggerPrice > 0 && p.levels[i].portionBps > 0 && feeBps <= BPS
    requires p.direction == Long
    ensures (forall size: nat :: Clears(cfg, OfSize(p, size), i, feeBps)) <==> Kept(cfg, p, i) + feeBps <= BPS
  {
    hide TriggerRate, CodedRate, Kept;
    ClearsExactlyWhenRatesAllow(cfg, p, i, feeBps);
    RatesMeet(p, i, Kept(cfg, p, i), BPS - feeBps);
  }

  /**
   A short position's only if moreover its price is low: the code multiplies quote by the price where base is
   quote over the price, so that the minimum is off by the price squared.
   */
  lemma ShortClearsExactlyWhen(cfg: Config, p: Position, i: nat, feeBps: uint16)
    requires i < |p.levels| && p.chain in cfg && p.levels[i].triggerPrice > 0 && p.levels[i].portionBps > 0 && feeBps <= BPS
    requires p.direction == Short
    ensures var price := p.levels[i].triggerPrice;
      (forall size: nat :: Clears(cfg, OfSize(p, size), i, feeBps)) <==>
      price * price * Kept(cfg, p, i) <= Prices.SCALE8 * Prices.SCALE8 * (BPS - feeBps)
  {
    hide TriggerRate, CodedRate, Kept;
    ClearsExactlyWhenRatesAllow(cfg, p, i, feeBps);
    RatesMeet(p, i, Kept(cfg, p, i), BPS - feeBps);
  }

  // ---- What the minimum should be ----

  /** A long position's minimum is what its trigger price less the slippage gives. */
  lemma LongMinimumIsIntended(cfg: Config, p: Position, i: nat)
    requires i < |p.levels| && p.chain in cfg && p.levels[i].triggerPrice > 0 && p.remainingSize >= 0 && p.direction == Long
    ensures SwapOf(cfg, p, i).minAmountOut == Intended(cfg, p, i)
  {
    SwapAsks(cfg, p, i);
    RatesMeet(p, i, 0, 0);
  }

  /**
   A short position's is never below that exactly when the price is at least one, and never above it exactly
   when the price is at most one; below, the slippage limit is no limit.
   */
  lemma ShortMinimumIsIntendedExactlyWhen(cfg: Config, p: Position, i: nat)
    requires i < |p.levels| && p.chain in cfg && p.levels[i].triggerPrice > 0 && p.levels[i].portionBps > 0 && p.direction == Short
    ensures var price, keep := p.levels[i].triggerPrice, Kept(cfg, p, i);
      ((forall size: nat :: Intended(cfg, OfSize(p, size), i) <= SwapOf(cfg, OfSize(p, size), i).minAmountOut) <==>
        keep == 0 || price >= Prices.SCALE8) &&
      ((forall size: nat :: SwapOf(cfg, OfSize(p, size), i).minAmountOut <= Intended(cfg, OfSize(p, size), i)) <==>
        keep == 0 || price <= Prices.SCALE8)
  {
    var price, keep := p.levels[i].triggerPrice, Kept(cfg, p, i);
    hide SwapOf, Intended, Kept;
    if keep == 0 || price >= Prices.SCALE8 {
      forall size: nat
        ensures Intended(cfg, OfSize(p, size), i) <= SwapOf(cfg, OfSize(p, size), i).minAmountOut
      {
        Compare(cfg, p, i, size);
      }
    } else {
      var size := Differs(cfg, p, i);
    }
    if keep == 0 || price <= Prices.SCALE8 {
      forall size: nat
        ensures SwapOf(cfg, OfSize(p, size), i).minAmountOut <= Intended(cfg, OfSize(p, size), i)
      {
        Compare(cfg, p, i, size);
      }
    } else {
      var size := Differs(cfg, p, i);
    }
  }

  /** The coded rate against the trigger rate of a short position. */
  lemma RatesCompare(p: Position, i: nat)
    requires i < |p.levels| && p.levels[i].triggerPrice > 0 && p.direction == Short
    ensures var t, c, price := TriggerRate(p, i), CodedRate(p, i), p.levels[i].triggerPrice;
      (c.num * t.den <= t.num * c.den <==> price <= Prices.SCALE8) && (t.num * c.den <= c.num * t.den <==> Prices.SCALE8 <= price)
  {
    hide Prices.Pow10;
    var t, c, price := TriggerRate(p, i), CodedRate(p, i), p.levels[i].triggerPrice;
    var base, quote := Prices.Pow10(p.decimalsBase), Prices.Pow10(p.decimalsQuote);
    var k := Positive(base, quote);
    assert c.num * t.den == k * (price * price);
    assert t.num * c.den == k * (Prices.SCALE8 * Prices.SCALE8);
    Scaled(k, price * price, Prices.SCALE8 * Prices.SCALE8);
    Scaled(k, Prices.SCALE8 * Prices.SCALE8, price * price);
    Squares(price, Prices.SCALE8);
  }

  lemma Squares(x: nat, y: nat)
    ensures (x * x <= y * y <==> x <= y) && (y * y <= x * x <==> y <= x)
  {
    if x < y { Prices.StrictProduct(x, x, y, y); }
    if y < x { Prices.StrictProduct(y, y, x, x); }
  }

  lemma Compare(cfg: Config, p: Position, i: nat, size: nat)
    requires i < |p.levels| && p.chain in cfg && p.levels[i].triggerPrice > 0 && p.direction == Short
    ensures var price, keep, q := p.levels[i].triggerPrice, Kept(cfg, p, i), OfSize(p, size);
      (keep == 0 || price >= Prices.SCALE8 ==> Intended(cfg, q, i) <= SwapOf(cfg, q, i).minAmountOut) &&
      (keep == 0 || price <= Prices.SCALE8 ==> SwapOf(cfg, q, i).minAmountOut <= Intended(cfg, q, i))
  {
    var t, c, keep, q := TriggerRate(p, i), CodedRate(p, i), Kept(cfg, p, i), OfSize(p, size);
    SwapAsks(cfg, q, i);
    SameRates(cfg, p, size, i);
    RatesCompare(p, i);
    hide TriggerRate, CodedRate, Kept, SwapOf, Intended;
    var a := SwapOf(cfg, q, i).amountIn;
    if keep == 0 {
      NothingAsked(a, c.num, c.den);
      NothingAsked(a, t.num, t.den);
    } else {
      if p.levels[i].triggerPrice >= Prices.SCALE8 { AskedMono(a, t.num, t.den, c.num, c.den, keep); }
      if p.levels[i].triggerPrice <= Prices.SCALE8 { AskedMono(a, c.num, c.den, t.num, t.den, keep); }
    }
  }

  lemma NothingAsked(a: nat, n: nat, d: nat)
    requires d > 0
    ensures Asked(a, n, d, 0) == 0
  {
    assert a * n / d * 0 == 0;
  }

  /** Away from a price of one the two differ at some size, unless nothing is asked. */
  lemma Differs(cfg: Config, p: Position, i: nat) returns (size: nat)
    requires i < |p.levels| && p.chain in cfg && p.levels[i].triggerPrice > 0 && p.levels[i].portionBps > 0
    requires p.direction == Short && Kept(cfg, p, i) > 0 && p.levels[i].triggerPrice != Prices.SCALE8
    ensures var q := OfSize(p, size);
      if p.levels[i].triggerPrice < Prices.SCALE8
      then SwapOf(cfg, q, i).minAmountOut < Intended(cfg, q, i)
      else Intended(cfg, q, i) < SwapOf(cfg, q, i).minAmountOut
  {
    var t, c, b := TriggerRate(p, i), CodedRate(p, i), p.levels[i].portionBps;
    RatesCompare(p, i);
    hide TriggerRate, CodedRate, Kept, SwapOf, Intended, Asked;
    if p.levels[i].triggerPrice < Prices.SCALE8 {
      size := Witness(p, i, t.den, c.den);
      AskedMoreAt(b, t.num, t.den, c.num, c.den, Kept(cfg, p, i));
    } else {
      size := Witness(p, i, c.den, t.den);
      AskedMoreAt(b, c.num, c.den, t.num, t.den, Kept(cfg, p, i));
    }
    SwapAsks(cfg, OfSize(p, size), i);
    SameRates(cfg, p, size, i);
  }

  // ---- Two short positions that OpenPosition accepts ----

  /** 2000 quote of 6 decimals against a base of 18, to be sold in one level. */
  function ShortOf(chain: ChainId, typ: LevelType, price: int): OpenParams {
    OpenParams(1, 2, 3, Short, 2_000_000_000, chain, 18, 6, [LevelParams(typ, price, 10000, None, [])], None)
  }

  lemma ShortOpens(cfg: Config, chain: ChainId, id: PosId, typ: LevelType, price: int)
    requires chain in cfg && price > 0
    ensures ValidOpen(cfg, ShortOf(chain, typ, price), 0)
    ensures var p := NewPosition(id, ShortOf(chain, typ, price));
      |p.levels| == 1 && p.chain == chain && p.levels[0].triggerPrice == price && AmountIn(p, 0) == 2_000_000_000
  {
    var q := ShortOf(chain, typ, price);
    var bps := BpsOfParams(q.levels);
    assert bps[..0] == [] && Sum(bps) == 10000;
    assert ValidParams(q.levels, 0);
  }

  lemma Tens()
    ensures Prices.Pow10(6) == 1_000_000 && Prices.Pow10(18) == 1_000_000_000_000_000_000
  {
    assert Prices.Pow10(6) == 1_000_000;
    assert Prices.Pow10(12) == 1_000_000_000_000;
  }

  /**
   At a price of 2000 they are worth one unit of base, and the minimum is four million units less the
   slippage: whatever slippage and fee are configured, short of all of it, the level cannot be executed.
   */
  lemma ShortAtTwoThousand(cfg: Config, chain: ChainId, id: PosId, typ: LevelType, feeBps: uint16)
    requires chain in cfg && feeBps <= BPS
    ensures var q := ShortOf(chain, typ, 2000_0000_0000);
      var p := NewPosition(id, q);
      ValidOpen(cfg, q, 0) && |p.levels| == 1 && p.chain == chain && p.levels[0].triggerPrice > 0 &&
      AtTrigger(p, 0, 2_000_000_000) == 1_000_000_000_000_000_000 &&
      SwapOf(cfg, p, 0).minAmountOut == 4_000_000_000_000_000_000_000_000 * Kept(cfg, p, 0) / BPS &&
      (Clears(cfg, p, 0, feeBps) <==> Kept(cfg, p, 0) == 0)
  {
    ShortOpens(cfg, chain, id, typ, 2000_0000_0000);
    Tens();
  }

  /** At a price of a half they are worth 4000, and the minimum is 1000 less the slippage: a quarter of what was meant. */
  lemma ShortAtOneHalf(cfg: Config, chain: ChainId, id: PosId, typ: LevelType)
    requires chain in cfg
    ensures var q := ShortOf(chain, typ, 5000_0000);
      var p := NewPosition(id, q);
      ValidOpen(cfg, q, 0) && |p.levels| == 1 && p.chain == chain && p.levels[0].triggerPrice > 0 &&
      AtTrigger(p, 0, 2_000_000_000) == 4_000_000_000_000_000_000_000 &&
      SwapOf(cfg, p, 0).minAmountOut == 1_000_000_000_000_000_000_000 * Kept(cfg, p, 0) / BPS
  {
    ShortOpens(cfg, chain, id, typ, 5000_0000);
    Tens();
  }
}
