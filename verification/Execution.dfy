/** When an execution swaps, what it swaps, and when it ends the process, from the guards of the code alone. */
module Execution {
  import opened Types
  import opened TriggerIndex
  import opened Lifecycle
  import opened SwapOnce

  const TWO_160: int := 0x1_0000_0000_0000_0000_0000_0000_0000_0000_0000_0000
  const TWO_64: int := 0x1_0000_0000_0000_0000
  const TWO_48: int := 0x1_0000_0000_0000

  /** The level of the event is active in a live position on a configured chain, and nothing refuses to answer. */
  predicate Ready(cfg: Config, st: State, ev: Event, env: Env) {
    && env.getOk && ev.pos in st.store && env.feeOk && env.breakerOk
    && var p := st.store[ev.pos];
       p.state != StateClosed && p.state != StateCancelled && p.chain in cfg &&
       ev.level < |p.levels| && p.levels[ev.level].status == LevelActive
  }

  /** The permit fits the types of the call that activates it, once its fields are cut to 64 bits. */
  predicate FitsCall(p: Permit) {
    && (p.amount.Some? ==> p.amount.value < TWO_160)
    && p.deadline % TWO_64 < TWO_48
    && p.nonce.Some? && (if p.nonce.value < 0 then -p.nonce.value else p.nonce.value) % TWO_64 < TWO_48
  }

  lemma BoundsAre(p: Permit)
    ensures WithinPermit2Bounds(p) <==> FitsCall(p)
  {
  }

  /** A field is missing that the code goes on to dereference. */
  predicate Misses(p: Permit) {
    p.nonce.None? || (FitsCall(p) && p.amount.None?)
  }

  /** A debit of 160 bits that the allowance pays, or that it does not limit. */
  predicate Affords(allowance: int, amount: int) {
    amount < TWO_160 && (allowance == TWO_160 - 1 || amount <= allowance)
  }

  /** The amount of the level: its part of what remains. */
  function Part(p: Position, i: nat): int
    requires i < |p.levels|
  {
    p.remainingSize * p.levels[i].portionBps / 10000
  }

  /** The permit is not expired, is active or becomes so, and the allowance for the token that is sold pays. */
  predicate PermitPays(st: State, p: Position, i: nat, env: Env)
    requires i < |p.levels|
  {
    var sold := if p.direction == Long then p.tokenBase else p.tokenQuote;
    var key := Grantee(p.chain, sold, p.owner);
    var current := if key in st.grants then st.grants[key] else 0;
    && !(0 < p.permit.deadline <= env.now)
    && (p.permit.activated ||
        (!Misses(p.permit) && FitsCall(p.permit) && p.permit.amount.value >= 0 && env.activate == Confirmed))
    && Affords(if !p.permit.activated && p.permit.token == sold then p.permit.amount.value else current, Part(p, i))
  }

  /** The execution gets past an activation of the permit that the chain confirms. */
  predicate Confirms(cfg: Config, st: State, ev: Event, env: Env) {
    && Ready(cfg, st, ev, env)
    && var permit := st.store[ev.pos].permit;
       permit.signed && !permit.activated && !(0 < permit.deadline <= env.now) && !Misses(permit) && FitsCall(permit) &&
       permit.amount.value >= 0 && env.activate == Confirmed
  }

  /** Such an activation is stored at once, if that write succeeds, whatever becomes of the swap; nothing else is, without a confirmed swap. */
  lemma ActivationIsStored(cfg: Config, st: State, ev: Event, env: Env)
    requires ev in st.inflight && OutcomeOf(cfg, st, ev, env) in {Requeued, Unconfirmed, SwapPanicked, Unrecorded}
    requires ev.pos in st.store && st.store[ev.pos].id == ev.pos
    ensures ExecuteStep(cfg, st, ev, env).store ==
      if Confirms(cfg, st, ev, env) && env.updateOk
      then st.store[ev.pos := st.store[ev.pos].(permit := st.store[ev.pos].permit.(activated := true))] else st.store
  {
    ConfirmsIs(cfg, st, ev, env);
    SettleStores(cfg, ActivateStep(cfg, st, ev, env), AtSwap(cfg, st, ev, env), ev, OutcomeOf(cfg, st, ev, env));
    hide Confirms, Activates, OutcomeOf, SettleStep, GrantsAt;
  }

  lemma ConfirmsIs(cfg: Config, st: State, ev: Event, env: Env)
    ensures Activates(cfg, st, ev, env) <==> Confirms(cfg, st, ev, env)
  {
    if ev.pos in st.store { BoundsAre(st.store[ev.pos].permit); }
    hide WithinPermit2Bounds, FitsCall;
  }

  lemma SettleStores(cfg: Config, st: State, p: Position, ev: Event, out: Outcome)
    requires p.chain in cfg && ev.level < |p.levels| && (out.Swaps() ==> Covers(st.grants, p, ev.level)) && out != Recorded
    ensures SettleStep(cfg, st, p, ev, out).store == st.store
  {
    hide Register, Debit, SwapOf, Covers;
  }

  /** An execution swaps exactly when nothing stands in its way, and a signed position's permit pays. */
  lemma SwapsExactlyWhen(cfg: Config, st: State, ev: Event, env: Env)
    ensures OutcomeOf(cfg, st, ev, env).Swaps() <==>
      Ready(cfg, st, ev, env) && env.swap != Failed &&
      (st.store[ev.pos].permit.signed ==> PermitPays(st, st.store[ev.pos], ev.level, env))
  {
    if ev.pos in st.store { BoundsAre(st.store[ev.pos].permit); }
    hide WithinPermit2Bounds, FitsCall, HasNegativeIndex;
  }

  /** It ends the process exactly at a permit field that is missing, or at a negative CancelOnFire index after a confirmed swap. */
  lemma EndsExactlyWhen(cfg: Config, st: State, ev: Event, env: Env)
    ensures OutcomeOf(cfg, st, ev, env) in {Panicked, SwapPanicked} <==>
      Ready(cfg, st, ev, env) &&
      var p := st.store[ev.pos];
      (p.permit.signed && !p.permit.activated && !(0 < p.permit.deadline <= env.now) && Misses(p.permit)) ||
      (OutcomeOf(cfg, st, ev, env).Swaps() && env.swap == Confirmed && p.levels[ev.level].typ == TP &&
       exists k :: 0 <= k < |p.levels[ev.level].cancelOnFire| && p.levels[ev.level].cancelOnFire[k] < 0)
  {
    if ev.pos in st.store { BoundsAre(st.store[ev.pos].permit); }
    hide WithinPermit2Bounds, FitsCall, Covers, GrantsAt;
  }

  /** What the log then shows: the level's part, sold for the other token, for at least the code's minimum. */
  lemma LoggedSwapMeans(cfg: Config, st: State, ev: Event, env: Env)
    requires StoreOk(cfg, st) && ev in st.inflight
    ensures var st' := ExecuteStep(cfg, st, ev, env);
      if OutcomeOf(cfg, st, ev, env).Swaps() then
        Ready(cfg, st, ev, env) && |st'.swaps| == |st.swaps| + 1 && st'.swaps[..|st.swaps|] == st.swaps &&
        SwapMeant(cfg[st.store[ev.pos].chain], st.store[ev.pos], ev.level, st'.swaps[|st.swaps|])
      else st'.swaps == st.swaps
  {
    SwapsExactlyWhen(cfg, st, ev, env);
    ExecuteSwaps(cfg, st, ev, env);
    if OutcomeOf(cfg, st, ev, env).Swaps() {
      assert st.store[ev.pos].id == ev.pos by { assert WellFormed(cfg, ev.pos, st.store[ev.pos]); }
      SwappedIsLogged(cfg, st, ev, env);
      SwapOfMeans(cfg, st.store[ev.pos], ev.level);
    }
    hide ExecuteStep, OutcomeOf, SwapOf, SwapMeant, StoreOk, PermitPays;
  }

  lemma SwappedIsLogged(cfg: Config, st: State, ev: Event, env: Env)
    requires StoreOk(cfg, st) && ev in st.inflight && OutcomeOf(cfg, st, ev, env).Swaps()
    ensures ev.pos in st.store && ev.level < |st.store[ev.pos].levels| && st.store[ev.pos].chain in cfg
    ensures ExecuteStep(cfg, st, ev, env).swaps == st.swaps + [SwapOf(cfg, st.store[ev.pos], ev.level)]
  {
    if OutcomeOf(cfg, st, ev, env) == Recorded {
      RecordedState(cfg, st, ev, env);
    } else {
      UnstoredState(cfg, st, ev, env);
    }
    hide ExecuteStep, Prices.MinAmountOut;
  }

  ghost predicate SwapMeant(c: ChainConfig, p: Position, i: nat, s: Swap)
    requires i < |p.levels|
  {
    var l, long := p.levels[i], p.direction == Long;
    var sold, bought := if long then p.decimalsBase else p.decimalsQuote, if long then p.decimalsQuote else p.decimalsBase;
    var slippage := if l.typ == SL then c.slSlippageBps else c.tpSlippageBps;
    var expected := Part(p, i) * l.triggerPrice * Prices.Pow10(bought) / (Prices.Pow10(sold) * 1_0000_0000);
    && s.pos == p.id && s.level == i && s.portionBps == l.portionBps
    && s.tokenIn == (if long then p.tokenBase else p.tokenQuote) && s.tokenOut == (if long then p.tokenQuote else p.tokenBase)
    && s.amountIn == Part(p, i) && (s.mode == ExecPermit2Allowance <==> p.permit.signed)
    && (slippage <= 10000 ==> s.minAmountOut == expected * (10000 - slippage) / 10000)
  }

  lemma SwapOfMeans(cfg: Config, p: Position, i: nat)
    requires i < |p.levels| && p.chain in cfg
    ensures SwapMeant(cfg[p.chain], p, i, SwapOf(cfg, p, i))
  {
    hide Prices.Pow10;
  }
}
