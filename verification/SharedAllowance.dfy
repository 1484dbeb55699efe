/**
 Two positions of one owner in one token share an allowance. What activating the second one asks for, exactly,
 and what happens to the first one otherwise.
 */
module SharedAllowance {
  import opened Types
  import opened TriggerIndex
  import opened Amounts
  import opened Lifecycle
  import opened SwapOnce
  import opened Accounting
  import opened Permit2
  import opened Coverage
  import opened NoLostTrigger
  import opened Demand
  import opened Solvency
  import opened Insolvency

  // ---- What an activation asks for ----

  lemma ActivationKeepsAccounts(cfg: Config, st: State, ev: Event, env: Env)
    requires Accounts(cfg, st) && Activates(cfg, st, ev, env)
    ensures Accounts(cfg, ActivateStep(cfg, st, ev, env))
  {
    var p, st' := st.store[ev.pos], ActivateStep(cfg, st, ev, env);
    assert WellFormed(cfg, ev.pos, p);
    ActivatedEvolves(cfg, p);
    hide Activates;
    assert st'.store == st.store || st'.store == st.store[ev.pos := Activated(p)];
    QuietStep(cfg, st, st', Activated(p));
  }

  /**
   An activation covers whatever fires until the next one exactly when its amount is at least the remaining
   sizes of all live positions that draw on the allowance, its own included. That is a sum over the store
   which could be checked before the call, and which nothing checks.
   */
  lemma ActivationCoversExactlyWhen(cfg: Config, st: State, ev: Event, env: Env)
    requires Accounts(cfg, st) && GrantsOk(st.grants) && Activates(cfg, st, ev, env) && env.updateOk
    requires st.store[ev.pos].permit.token == st.store[ev.pos].TokenIn() && st.store[ev.pos].permit.amount.value != MAX_UINT160
    ensures var p, st' := st.store[ev.pos], ActivateStep(cfg, st, ev, env);
      (forall trace: seq<State>, ops: seq<Op> ::
         IsRun(cfg, trace, ops, PlainIn(cfg)) && trace[0] == st' ==> !FallsShort(cfg, trace[|ops|], p.DrawsOn())) <==>
      DemandOn(st.store, p.DrawsOn()) + p.remainingSize <= p.permit.amount.value
  {
    var p, st' := st.store[ev.pos], ActivateStep(cfg, st, ev, env);
    var k := p.DrawsOn();
    assert WellFormed(cfg, ev.pos, p);
    ActivationKeepsAccounts(cfg, st, ev, env);
    GrantsAtOk(cfg, st, ev, env);
    CoveredExactlyWhen(cfg, st, ev, env);
    assert st'.store == Joined(cfg, st, ev, env) && st'.grants == GrantsAt(cfg, st, ev, env);
    assert SolventAt(st', k) <==> CoveredAt(cfg, st, ev, env, k);
    hide ActivateStep, Accounts, GrantsOk, SolventAt, CoveredAt, Activates;
    SolventExactlyWhenNothingFallsShort(cfg, st', k);
  }

  /** With nobody else drawing, a permit that was accepted at the opening, and not renewed since, is enough. */
  lemma UnsharedActivationCovers(cfg: Config, st: State, ev: Event, env: Env)
    requires TakesEffect(cfg, st, ev, env) && st.store[ev.pos].permit.token == st.store[ev.pos].TokenIn()
    requires st.store[ev.pos].remainingSize <= st.store[ev.pos].permit.amount.value
    requires DemandOn(st.store, st.store[ev.pos].DrawsOn()) == 0
    requires forall id :: id in st.store && Draws(st.store[id], st.store[ev.pos].DrawsOn()) ==> st.store[id].remainingSize <= MAX_UINT160
    ensures forall k :: CoveredAt(cfg, st, ev, env, k)
  {
    var p := st.store[ev.pos];
    DemandReplaced(st.store, ev.pos, Activated(p), p.DrawsOn());
  }

  // ---- Two positions on one allowance ----

  /** A long position of 100 with levels for 30 and for 70% of the rest, and a permit for 100. */
  function First(chain: ChainId): OpenParams {
    OpenParams(1, 2, 3, Long, 100, chain, 18, 6,
               [LevelParams(TP, 5, 3000, None, []), LevelParams(TP, 9, 7000, None, [])],
               Some(PermitParams(Some(0), 1_000_000_000, Some(100), Some(1))))
  }

  /** Another of the same owner in the same token: 50, with a permit for 50. */
  function Second(chain: ChainId): OpenParams {
    OpenParams(1, 2, 3, Long, 50, chain, 18, 6, [LevelParams(TP, 6, 10000, None, [])],
               Some(PermitParams(Some(1), 1_000_000_000, Some(50), Some(1))))
  }

  const WILLING := Env(0, true, true, true, Confirmed, true, Confirmed, true)

  lemma SumOfTwo(s: seq<int>)
    requires 1 <= |s| <= 2
    ensures Sum(s) == if |s| == 1 then s[0] else s[0] + s[1]
  {
    if |s| == 2 {
      SumOfTwo(s[..1]);
    } else {
      assert s[..0] == [];
    }
  }

  lemma FirstLevelsAreValid(chain: ChainId)
    ensures ValidLevels(First(chain).levels)
  {
    var lps := First(chain).levels;
    assert ValidParams(lps, 0) && ValidParams(lps, 1);
    SumOfTwo(BpsOfParams(lps));
    hide Sum;
  }

  lemma SecondLevelsAreValid(chain: ChainId)
    ensures ValidLevels(Second(chain).levels)
  {
    var lps := Second(chain).levels;
    assert ValidParams(lps, 0);
    SumOfTwo(BpsOfParams(lps));
    hide Sum;
  }

  lemma BothAreValid(cfg: Config, chain: ChainId)
    requires chain in cfg && cfg[chain].minPermitLifetime <= 1_000_000_000_000_000_000
    ensures ValidOpen(cfg, First(chain), 0) && ValidOpen(cfg, Second(chain), 0)
  {
    FirstLevelsAreValid(chain);
    SecondLevelsAreValid(chain);
    assert LifetimeNanos(1_000_000_000, 0) == 1_000_000_000_000_000_000;
    hide ValidLevels, LifetimeNanos;
  }

  /** In a watched state, the trigger price of an active level puts it in flight. */
  lemma WatchedFires(cfg: Config, st: State, id: PosId, i: nat) returns (ev: Event)
    requires Watched(cfg, st) && Live(st, id, true) && i < |st.store[id].levels| && st.store[id].levels[i].status == LevelActive
    ensures var st' := PriceStep(st, st.store[id].Pair(), st.store[id].levels[i].triggerPrice);
      ev in st'.inflight && ev.pos == id && ev.level == i && Watched(cfg, st') &&
      st'.store == st.store && st'.swaps == st.swaps && st'.grants == st.grants
  {
    var p := st.store[id];
    var pair, price := p.Pair(), p.levels[i].triggerPrice;
    assert WellFormed(cfg, id, p);
    StepKeepsWatchExactlyWhen(cfg, st, Price(pair, price));
    assert Watched(cfg, PriceStep(st, pair, price));
    hide Step, Safe, OnPrice, StoreOk, ExecuteStep;
    PriceKeepsRest(st, pair, price);
    assert Coverage.Covered(p, st.index, st.inflight);
    assert Tracked(p, st.index, st.inflight, i);
    if Has(st.index, pair, p.Up(i), p.EntryOf(i)) {
      CrossedFires(st.index, pair, price, p.Up(i), p.EntryOf(i));
      ev := EventOf(p.EntryOf(i), price, pair.chain);
    } else {
      ev :| ev in st.inflight && ev.pos == id && ev.level == i;
    }
  }

  /** What is known of the manager between the steps of the run below. */
  ghost predicate Steady(cfg: Config, trace: seq<State>, ops: seq<Op>) {
    IsRun(cfg, trace, ops, RegularIn(cfg)) && trace[0] == EMPTY && Watched(cfg, trace[|ops|])
  }

  lemma SteadyExtends(cfg: Config, trace: seq<State>, ops: seq<Op>, op: Op)
    requires Steady(cfg, trace, ops) && Regular(cfg, trace[|ops|], op) && Safe(cfg, trace[|ops|], op)
    ensures Steady(cfg, trace + [Step(cfg, trace[|ops|], op)], ops + [op])
  {
    hide Step, Watched, Regular, Safe;
    RunExtends(cfg, trace, ops, RegularIn(cfg), op);
    StepKeepsWatchExactlyWhen(cfg, trace[|ops|], op);
  }

  /** A level's price, and the execution of its event. */
  lemma SteadyFires(cfg: Config, trace: seq<State>, ops: seq<Op>, id: PosId, i: nat, env: Env)
    returns (trace': seq<State>, ops': seq<Op>, st: State, ev: Event)
    requires Steady(cfg, trace, ops) && Live(trace[|ops|], id, true) && i < |trace[|ops|].store[id].levels|
    requires trace[|ops|].store[id].levels[i].status == LevelActive && !HasNegativeIndex(trace[|ops|].store[id].levels[i])
    requires env.getOk && env.feeOk && env.breakerOk && env.persistOk && env.swap != Unseen
    requires !PermitExpired(trace[|ops|].store[id].permit, env.now) && !NilField(trace[|ops|].store[id].permit)
    ensures Steady(cfg, trace', ops') && st.store == trace[|ops|].store && st.grants == trace[|ops|].grants
    ensures ev in st.inflight && ev.pos == id && ev.level == i && trace'[|ops'|] == ExecuteStep(cfg, st, ev, env)
  {
    hide Step, ExecuteStep, Watched;
    var last := trace[|ops|];
    ev := WatchedFires(cfg, last, id, i);
    var price, exec := Price(last.store[id].Pair(), last.store[id].levels[i].triggerPrice), Execute(ev, env);
    st := Step(cfg, last, price);
    StepIsPrice(cfg, last, last.store[id].Pair(), last.store[id].levels[i].triggerPrice);
    SteadyExtends(cfg, trace, ops, price);
    SafeAndRegular(cfg, st, ev, env);
    StepExecutes(cfg, st, ev, env);
    SteadyExtends(cfg, trace + [st], ops + [price], exec);
    trace', ops' := trace + [st] + [Step(cfg, st, exec)], ops + [price] + [exec];
  }

  lemma StepIsPrice(cfg: Config, st: State, pair: TokenPair, price: int)
    ensures Step(cfg, st, Price(pair, price)) == PriceStep(st, pair, price)
  {
    hide PriceStep;
  }

  lemma SafeAndRegular(cfg: Config, st: State, ev: Event, env: Env)
    requires Live(st, ev.pos, true) && ev.level < |st.store[ev.pos].levels| && !HasNegativeIndex(st.store[ev.pos].levels[ev.level])
    requires env.getOk && env.feeOk && env.breakerOk && env.persistOk && env.swap != Unseen
    requires !PermitExpired(st.store[ev.pos].permit, env.now) && !NilField(st.store[ev.pos].permit)
    ensures Safe(cfg, st, Execute(ev, env)) && Regular(cfg, st, Execute(ev, env))
  {
  }

  /** The first position's level for 30 fires: its permit is activated, and 70 are left of both. */
  lemma FirstOutcome(cfg: Config, st: State, ev: Event, p: Position)
    requires ev.pos == 1 && ev.level == 0 && 1 in st.store && st.store[1] == p
    requires p.chain in cfg && p == NewPosition(1, First(p.chain))
    ensures OutcomeOf(cfg, st, ev, WILLING) == Recorded && AtSwap(cfg, st, ev, WILLING) == Activated(p)
    ensures GrantsAt(cfg, st, ev, WILLING) == st.grants[p.DrawsOn() := 100] && AmountIn(p, 0) == 30
  {
    assert Activates(cfg, st, ev, WILLING);
    assert GrantsAt(cfg, st, ev, WILLING) == st.grants[p.DrawsOn() := 100];
    assert AmountIn(p, 0) == 30;
  }

  lemma FirstFires(cfg: Config, st: State, ev: Event, p: Position)
    requires StoreOk(cfg, st) && ev in st.inflight && ev.pos == 1 && ev.level == 0 && 1 in st.store && st.store[1] == p
    requires p.chain in cfg && p == NewPosition(1, First(p.chain))
    ensures var st' := ExecuteStep(cfg, st, ev, WILLING);
      1 in st'.store && st'.store == st.store[1 := st'.store[1]] && Draws(st'.store[1], p.DrawsOn()) && st'.store[1].remainingSize == 70 &&
      st'.grants == st.grants[p.DrawsOn() := 70]
  {
    hide ExecuteStep, OutcomeOf, GrantsAt, AtSwap, Activates, StoreOk, Fired, FiredIndex;
    FirstOutcome(cfg, st, ev, p);
    RecordedState(cfg, st, ev, WILLING);
    FirstStaysOpen(Activated(p), ev.price);
    assert st.grants[p.DrawsOn() := 100][p.DrawsOn() := 70] == st.grants[p.DrawsOn() := 70];
  }

  lemma FirstStaysOpen(p: Position, price: int)
    requires |p.levels| == 2 && p.levels[0].typ == TP && p.levels[0].cancelOnFire == [] && p.levels[0].moveSLTo == None
    requires p.levels[0].portionBps == 3000 && p.levels[1].status == LevelActive && p.remainingSize == 100
    ensures var p' := Fired(p, 0, price);
      p'.state == StatePartialClosed && p'.remainingSize == 70 && p'.permit == p.permit && p'.DrawsOn() == p.DrawsOn()
  {
    assert TakenDown(p, 0) == {};
    assert Fired(p, 0, price).levels[1].status == LevelActive;
  }

  /** The second one's permit is activated, and its swap fails: the allowance is 50. */
  lemma SecondActivates(cfg: Config, st: State, ev: Event, p: Position)
    requires StoreOk(cfg, st) && ev in st.inflight && ev.pos == 2 && ev.level == 0 && 2 in st.store && st.store[2] == p
    requires p.chain in cfg && p == NewPosition(2, Second(p.chain))
    ensures var st' := ExecuteStep(cfg, st, ev, WILLING.(swap := Failed));
      st'.store == st.store[2 := Activated(p)] && st'.grants == st.grants[p.DrawsOn() := 50]
  {
    var env := WILLING.(swap := Failed);
    assert Activates(cfg, st, ev, env);
    assert OutcomeOf(cfg, st, ev, env) == Requeued;
    assert GrantsAt(cfg, st, ev, env) == st.grants[p.DrawsOn() := 50];
    hide Register, Covers;
  }

  lemma TwoOpened(cfg: Config, chain: ChainId) returns (trace: seq<State>, ops: seq<Op>)
    requires chain in cfg && cfg[chain].minPermitLifetime <= 1_000_000_000_000_000_000
    ensures Steady(cfg, trace, ops)
    ensures trace[|ops|].store == map[1 := NewPosition(1, First(chain)), 2 := NewPosition(2, Second(chain))] && trace[|ops|].grants == map[]
  {
    BothAreValid(cfg, chain);
    var a, b := Open(1, First(chain), 0, true, true), Open(2, Second(chain), 0, true, true);
    var s1 := Step(cfg, EMPTY, a);
    var s2 := Step(cfg, s1, b);
    assert s1.store == map[1 := NewPosition(1, First(chain))] && s1.grants == map[];
    assert s2.store == s1.store[2 := NewPosition(2, Second(chain))] && s2.grants == map[];
    hide Step, NewPosition, ValidOpen, First, Second;
    assert IsRun(cfg, [EMPTY], [], RegularIn(cfg)) && Watched(cfg, EMPTY);
    SteadyExtends(cfg, [EMPTY], [], a);
    SteadyExtends(cfg, [EMPTY] + [s1], [] + [a], b);
    trace, ops := [EMPTY] + [s1] + [s2], [] + [a] + [b];
  }

  /** The allowance of the state is 50, and 120 are still to be drawn on it. */
  ghost predicate TwoShare(st: State, k: Grantee) {
    && 1 in st.store && 2 in st.store && Draws(st.store[1], k) && Draws(st.store[2], k)
    && st.store[1].remainingSize == 70 && st.store[2].remainingSize == 50 && Allowance(st.grants, k) == 50
  }

  lemma TwoComeToShare(cfg: Config, chain: ChainId) returns (trace: seq<State>, ops: seq<Op>)
    requires chain in cfg && cfg[chain].minPermitLifetime <= 1_000_000_000_000_000_000
    ensures Steady(cfg, trace, ops) && TwoShare(trace[|ops|], Grantee(chain, 2, 1))
  {
    var p, q := NewPosition(1, First(chain)), NewPosition(2, Second(chain));
    trace, ops := TwoOpened(cfg, chain);
    PositionsAre(chain);
    var st, ev;
    trace, ops, st, ev := SteadyFires(cfg, trace, ops, 1, 0, WILLING);
    assert StoreOk(cfg, st) by { assert WellFormed(cfg, 1, p) && WellFormed(cfg, 2, q); }
    hide NewPosition, First, Second, ExecuteStep, Step;
    FirstFires(cfg, st, ev, p);
    trace, ops, st, ev := SteadyFires(cfg, trace, ops, 2, 0, WILLING.(swap := Failed));
    SecondActivates(cfg, st, ev, q);
  }

  lemma PositionsAre(chain: ChainId)
    ensures var p, q := NewPosition(1, First(chain)), NewPosition(2, Second(chain));
      p.id == 1 && q.id == 2 && p.chain == q.chain == chain && p.DrawsOn() == q.DrawsOn() == Grantee(chain, 2, 1) &&
      |p.levels| == 2 && |q.levels| == 1 && !p.state.IsTerminal() && !q.state.IsTerminal() &&
      p.levels[0].status == LevelActive && q.levels[0].status == LevelActive &&
      !HasNegativeIndex(p.levels[0]) && !HasNegativeIndex(q.levels[0]) && p.levels[0].index == 0 && p.levels[1].index == 1 && q.levels[0].index == 0 &&
      !PermitExpired(p.permit, 0) && !NilField(p.permit) && !PermitExpired(q.permit, 0) && !NilField(q.permit) &&
      q.permit.signed && q.remainingSize == 50
  {
  }

  /**
   So the allowance does fall short, though each position stays within the permit signed for it. From the
   empty manager: one position with a permit for 100 has swapped 30, the second one's permit for 50 is
   activated, and then the first one's swap of the 70 it has left is refused.
   */
  lemma SharedAllowanceFallsShort(cfg: Config, chain: ChainId)
    requires chain in cfg && cfg[chain].minPermitLifetime <= 1_000_000_000_000_000_000
    ensures exists trace: seq<State>, ops: seq<Op>, ev: Event, env: Env ::
      IsRun(cfg, trace, ops, RegularIn(cfg)) && trace[0] == EMPTY && RefusesSeventy(cfg, trace[|ops|], ev, env)
  {
    var trace, ops := TwoComeToShare(cfg, chain);
    var st := trace[|ops|];
    var ev := FirstIsRefused(cfg, st, Grantee(chain, 2, 1));
    hide TwoShare, Prepare, Step, Watched, RefusesSeventy;
    var trace', ops' := RunPrepares(cfg, trace, ops, RegularIn(cfg), 1);
    assert RefusesSeventy(cfg, trace'[|ops'|], ev, Willing(st.store[1]));
  }

  lemma FirstIsRefused(cfg: Config, st: State, k: Grantee) returns (ev: Event)
    requires StoreOk(cfg, st) && TwoShare(st, k)
    ensures 1 in st.store && RefusesSeventy(cfg, Prepare(st, 1), ev, Willing(st.store[1]))
  {
    ev := Prepared(cfg, st, 1, k);
    hide Prepare, Attempts;
  }

  predicate RefusesSeventy(cfg: Config, st: State, ev: Event, env: Env) {
    && Attempts(cfg, st, ev, env) && AmountIn(st.store[ev.pos], ev.level) == 70
    && Allowance(st.grants, st.store[ev.pos].DrawsOn()) == 50 && !Covers(st.grants, st.store[ev.pos], ev.level)
  }
}
