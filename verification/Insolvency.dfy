/**
 The other half of `Solvency`: an allowance that does not cover the demand is felt. Some run of ordinary
 operations, with no activation in it, ends in a swap that the allowance does not pay.
 */
module Insolvency {
  import opened Types
  import opened TriggerIndex
  import opened Amounts
  import opened Lifecycle
  import opened SwapOnce
  import opened Accounting
  import opened Permit2
  import opened Coverage
  import opened FailedWrites
  import opened Demand
  import opened Solvency

  /** Accounted for, and nothing is activated. */
  predicate Plain(cfg: Config, st: State, op: Op) {
    Regular(cfg, st, op) && (op.Execute? && op.event in st.inflight ==> !TakesEffect(cfg, st, op.event, op.env))
  }

  function PlainIn(cfg: Config): (State, Op) -> bool {
    (st, op) => Plain(cfg, st, op)
  }

  function RegularIn(cfg: Config): (State, Op) -> bool {
    (st, op) => Regular(cfg, st, op)
  }

  /** A position that draws on the allowance gets to a swap that it does not pay. */
  predicate ShortOf(cfg: Config, st: State, k: Grantee, ev: Event, env: Env) {
    && Attempts(cfg, st, ev, env) && Draws(st.store[ev.pos], k)
    && !Covers(st.grants, st.store[ev.pos], ev.level)
  }

  ghost predicate FallsShort(cfg: Config, st: State, k: Grantee) {
    exists ev: Event, env: Env :: ShortOf(cfg, st, k, ev, env)
  }

  // ---- Getting one position to swap everything it has ----

  const ALL := LevelParams(SL, 1, 10000, None, [])

  /** Everything answers, at a time when the permit is good. */
  function Willing(p: Position): Env {
    Env(if p.permit.deadline > 0 then p.permit.deadline - 1 else 0, true, true, true, Confirmed, true, Confirmed, true)
  }

  function Prepare(st: State, id: PosId): State
    requires id in st.store
  {
    PriceStep(AddStep(st, id, ALL, true, true), st.store[id].Pair(), 1)
  }

  /** A stop-loss for everything is added to a position, and its price comes. */
  lemma Prepared(cfg: Config, st: State, id: PosId, k: Grantee) returns (ev: Event)
    requires StoreOk(cfg, st) && id in st.store && Draws(st.store[id], k)
    ensures var p, p', st' := st.store[id], Extended(st.store[id], ALL), Prepare(st, id);
      st'.store == st.store[id := p'] && st'.grants == st.grants && Draws(p', k) && p'.remainingSize == p.remainingSize &&
      ev.pos == id && ev.level == |p.levels| && p'.levels[ev.level] == NewLevel(|p.levels|, ALL) &&
      Attempts(cfg, st', ev, Willing(p)) && AmountIn(p', ev.level) == p.remainingSize
  {
    hide AddStep, PriceStep, Has, MulBps, FiresAbove, Attempts;
    var p, p', n := st.store[id], Extended(st.store[id], ALL), |st.store[id].levels|;
    var st1 := AddStep(st, id, ALL, true, true);
    assert WellFormed(cfg, id, p);
    AddedIsRegistered(st, id);
    ev := EventOf(p'.EntryOf(n), 1, p'.chain);
    EntryReaches(st1, p'.Pair(), p'.Up(n), p'.EntryOf(n));
    PriceKeepsRest(st1, p'.Pair(), 1);
    MulBpsAll(p.remainingSize);
    PreparedAttempts(cfg, Prepare(st, id), p, k, ev);
  }

  lemma PriceKeepsRest(st: State, pair: TokenPair, price: int)
    ensures var st' := PriceStep(st, pair, price);
      st'.store == st.store && st'.swaps == st.swaps && st'.grants == st.grants && st.inflight <= st'.inflight
  {
  }

  lemma PreparedAttempts(cfg: Config, st: State, p: Position, k: Grantee, ev: Event)
    requires Draws(p, k) && p.chain in cfg && ev in st.inflight && ev.level == |p.levels|
    requires ev.pos in st.store && st.store[ev.pos] == Extended(p, ALL)
    ensures Attempts(cfg, st, ev, Willing(p))
  {
  }

  lemma AddedIsRegistered(st: State, id: PosId)
    requires id in st.store && !st.store[id].state.IsTerminal() && st.store[id].id == id
    ensures var p', n, st1 := Extended(st.store[id], ALL), |st.store[id].levels|, AddStep(st, id, ALL, true, true);
      st1.store == st.store[id := p'] && st1.grants == st.grants && Has(st1.index, p'.Pair(), p'.Up(n), p'.EntryOf(n))
  {
    var p', n := Extended(st.store[id], ALL), |st.store[id].levels|;
    RegisterHas(st.index, p'.Pair(), p'.Up(n), p'.EntryOf(n), p'.Pair(), p'.Up(n), p'.EntryOf(n));
    hide Register;
  }

  /** When the allowance pays it, the position is closed and the allowance is down by all it had. */
  lemma Drained(cfg: Config, st: State, k: Grantee, ev: Event, env: Env)
    requires Accounts(cfg, st) && GrantsOk(st.grants) && Attempts(cfg, st, ev, env)
    requires env.activate == env.swap == Confirmed && env.persistOk && Draws(st.store[ev.pos], k)
    requires ev.level < |st.store[ev.pos].levels| && st.store[ev.pos].levels[ev.level] == NewLevel(ev.level, ALL)
    requires Covers(st.grants, st.store[ev.pos], ev.level) && Allowance(st.grants, k) != MAX_UINT160
    ensures Plain(cfg, st, Execute(ev, env)) && OutcomeOf(cfg, st, ev, env) == Recorded
    ensures var p, st' := st.store[ev.pos], ExecuteStep(cfg, st, ev, env);
      ev.pos in st'.store && !Draws(st'.store[ev.pos], k) && st'.store == st.store[ev.pos := st'.store[ev.pos]] &&
      Allowance(st'.grants, k) == Allowance(st.grants, k) - p.remainingSize
  {
    assert OutcomeOf(cfg, st, ev, env) == Recorded;
    RecordedState(cfg, st, ev, env);
    MulBpsAll(st.store[ev.pos].remainingSize);
  }

  lemma MulBpsAll(x: int)
    ensures MulBps(x, 10000) == x
  {
  }

  function Drawers(store: map<PosId, Position>, k: Grantee): set<PosId> {
    set id | id in store && Draws(store[id], k)
  }

  // ---- Insolvency is felt ----

  /** An allowance without limit falls short of a position larger than it can count. */
  lemma UnlimitedFallsShort(cfg: Config, st: State, k: Grantee) returns (id: PosId)
    requires StoreOk(cfg, st) && Allowance(st.grants, k) == MAX_UINT160 && !SolventAt(st, k)
    ensures id in st.store && Draws(st.store[id], k) && FallsShort(cfg, Prepare(st, id), k)
  {
    id :| id in st.store && Draws(st.store[id], k) && st.store[id].remainingSize > MAX_UINT160;
    var ev := Prepared(cfg, st, id, k);
    assert ShortOf(cfg, Prepare(st, id), k, ev, Willing(st.store[id]));
  }

  lemma PreparesPlainly(cfg: Config, st: State, id: PosId)
    requires id in st.store
    ensures var add, price := AddLevel(id, ALL, true, true), Price(st.store[id].Pair(), 1);
      Plain(cfg, st, add) && Plain(cfg, Step(cfg, st, add), price) &&
      Step(cfg, Step(cfg, st, add), price) == Prepare(st, id)
  {
  }

  /** A run that prepares a position. */
  lemma RunPrepares(cfg: Config, trace: seq<State>, ops: seq<Op>, ok: (State, Op) -> bool, id: PosId)
    returns (trace': seq<State>, ops': seq<Op>)
    requires IsRun(cfg, trace, ops, ok) && id in trace[|ops|].store
    requires forall s, op :: Plain(cfg, s, op) ==> ok(s, op)
    ensures IsRun(cfg, trace', ops', ok) && trace <= trace'
    ensures trace'[|ops'|] == Prepare(trace[|ops|], id)
  {
    hide Step, Prepare, Plain;
    var st := trace[|ops|];
    var add, price := AddLevel(id, ALL, true, true), Price(st.store[id].Pair(), 1);
    PreparesPlainly(cfg, st, id);
    RunExtends(cfg, trace, ops, ok, add);
    RunExtends(cfg, trace + [Step(cfg, st, add)], ops + [add], ok, price);
    trace' := trace + [Step(cfg, st, add)] + [Step(cfg, Step(cfg, st, add), price)];
    ops' := ops + [add] + [price];
  }

  /** Draining one of those who draw leaves the allowance as short as it was, of fewer. */
  lemma DrainedStaysShort(st: State, st': State, id: PosId, k: Grantee)
    requires id in st.store && Draws(st.store[id], k) && id in st'.store && !Draws(st'.store[id], k)
    requires st'.store == st.store[id := st'.store[id]]
    requires Allowance(st'.grants, k) == Allowance(st.grants, k) - st.store[id].remainingSize
    requires 0 < st.store[id].remainingSize && Allowance(st.grants, k) < MAX_UINT160 && !SolventAt(st, k)
    ensures !SolventAt(st', k) && |Drawers(st'.store, k)| < |Drawers(st.store, k)|
  {
    DemandReplaced(st.store, id, st'.store[id], k);
    assert Drawers(st'.store, k) == Drawers(st.store, k) - {id};
  }

  lemma PreparedStaysShort(st: State, st': State, id: PosId, p': Position, k: Grantee)
    requires id in st.store && Draws(st.store[id], k) && Draws(p', k) && p'.remainingSize == st.store[id].remainingSize
    requires st'.store == st.store[id := p'] && st'.grants == st.grants && !SolventAt(st, k) && Allowance(st.grants, k) != MAX_UINT160
    ensures !SolventAt(st', k) && Drawers(st'.store, k) == Drawers(st.store, k)
  {
    DemandReplaced(st.store, id, p', k);
  }

  lemma {:induction false} InsolvencyIsFelt(cfg: Config, trace: seq<State>, ops: seq<Op>, k: Grantee)
    returns (trace': seq<State>, ops': seq<Op>)
    requires IsRun(cfg, trace, ops, PlainIn(cfg)) && Accounts(cfg, trace[|ops|]) && GrantsOk(trace[|ops|].grants)
    requires !SolventAt(trace[|ops|], k)
    ensures IsRun(cfg, trace', ops', PlainIn(cfg)) && trace <= trace' && FallsShort(cfg, trace'[|ops'|], k)
    decreases |Drawers(trace[|ops|].store, k)|
  {
    var st := trace[|ops|];
    if Allowance(st.grants, k) == MAX_UINT160 {
      var id := UnlimitedFallsShort(cfg, st, k);
      trace', ops' := RunPrepares(cfg, trace, ops, PlainIn(cfg), id);
    } else {
      var id := SomebodyShort(cfg, st, k);
      var ev := Prepared(cfg, st, id, k);
      var trace1, ops1 := RunPrepares(cfg, trace, ops, PlainIn(cfg), id);
      var st1, env := trace1[|ops1|], Willing(st.store[id]);
      if !Covers(st1.grants, st1.store[id], ev.level) {
        assert ShortOf(cfg, st1, k, ev, env);
        trace', ops' := trace1, ops1;
      } else {
        PreparedKeepsAccounts(cfg, st, id);
        PreparedStaysShort(st, st1, id, Extended(st.store[id], ALL), k);
        var trace2, ops2 := RunDrains(cfg, trace1, ops1, k, ev, env);
        trace', ops' := InsolvencyIsFelt(cfg, trace2, ops2, k);
      }
    }
  }

  lemma SomebodyShort(cfg: Config, st: State, k: Grantee) returns (id: PosId)
    requires GrantsOk(st.grants) && !SolventAt(st, k) && Allowance(st.grants, k) != MAX_UINT160
    ensures id in st.store && Draws(st.store[id], k) && st.store[id].remainingSize > 0
  {
    id := SomebodyDraws(st.store, st.store.Keys, k);
  }

  lemma PreparedKeepsAccounts(cfg: Config, st: State, id: PosId)
    requires Accounts(cfg, st) && id in st.store
    ensures Accounts(cfg, Prepare(st, id))
  {
    PreparesPlainly(cfg, st, id);
    var add, price := AddLevel(id, ALL, true, true), Price(st.store[id].Pair(), 1);
    hide Step, Prepare;
    StepKeepsAccounts(cfg, st, add);
    StepKeepsAccounts(cfg, Step(cfg, st, add), price);
  }

  lemma RunDrains(cfg: Config, trace: seq<State>, ops: seq<Op>, k: Grantee, ev: Event, env: Env)
    returns (trace': seq<State>, ops': seq<Op>)
    requires IsRun(cfg, trace, ops, PlainIn(cfg)) && Accounts(cfg, trace[|ops|]) && GrantsOk(trace[|ops|].grants)
    requires Attempts(cfg, trace[|ops|], ev, env) && env.activate == env.swap == Confirmed && env.persistOk
    requires var st := trace[|ops|];
      Draws(st.store[ev.pos], k) && ev.level < |st.store[ev.pos].levels| &&
      st.store[ev.pos].levels[ev.level] == NewLevel(ev.level, ALL) && Covers(st.grants, st.store[ev.pos], ev.level) &&
      Allowance(st.grants, k) != MAX_UINT160 && !SolventAt(st, k) && st.store[ev.pos].remainingSize > 0
    ensures IsRun(cfg, trace', ops', PlainIn(cfg)) && trace <= trace'
    ensures Accounts(cfg, trace'[|ops'|]) && GrantsOk(trace'[|ops'|].grants) && !SolventAt(trace'[|ops'|], k)
    ensures |Drawers(trace'[|ops'|].store, k)| < |Drawers(trace[|ops|].store, k)|
  {
    hide Step, ExecuteStep, Plain, SolventAt, Accounts, GrantsOk, Drawers, Attempts, Draws, Covers, Allowance;
    var st, op := trace[|ops|], Execute(ev, env);
    var st' := Step(cfg, st, op);
    DrainsOne(cfg, st, k, ev, env);
    PlainInIs(cfg, st, op);
    RunExtends(cfg, trace, ops, PlainIn(cfg), op);
    trace', ops' := trace + [st'], ops + [op];
  }

  lemma PlainInIs(cfg: Config, st: State, op: Op)
    ensures PlainIn(cfg)(st, op) == Plain(cfg, st, op)
  {
  }

  lemma DrainsOne(cfg: Config, st: State, k: Grantee, ev: Event, env: Env)
    requires Accounts(cfg, st) && GrantsOk(st.grants)
    requires Attempts(cfg, st, ev, env) && env.activate == env.swap == Confirmed && env.persistOk
    requires Draws(st.store[ev.pos], k) && ev.level < |st.store[ev.pos].levels|
    requires st.store[ev.pos].levels[ev.level] == NewLevel(ev.level, ALL) && Covers(st.grants, st.store[ev.pos], ev.level)
    requires Allowance(st.grants, k) != MAX_UINT160 && !SolventAt(st, k) && st.store[ev.pos].remainingSize > 0
    ensures Plain(cfg, st, Execute(ev, env))
    ensures var st' := Step(cfg, st, Execute(ev, env));
      Accounts(cfg, st') && GrantsOk(st'.grants) && !SolventAt(st', k) && |Drawers(st'.store, k)| < |Drawers(st.store, k)|
  {
    Drained(cfg, st, k, ev, env);
    StepExecutes(cfg, st, ev, env);
    hide Step, ExecuteStep, SolventAt, Accounts, Drawers, Covers;
    StepKeepsAccounts(cfg, st, Execute(ev, env));
    ExecuteKeepsGrantsOk(cfg, st, ev, env);
    AllowanceOk(st.grants, k);
    DrainedStaysShort(st, ExecuteStep(cfg, st, ev, env), ev.pos, k);
  }

  lemma AllowanceOk(grants: map<Grantee, int>, k: Grantee)
    requires GrantsOk(grants)
    ensures 0 <= Allowance(grants, k) <= MAX_UINT160
  {
  }

  lemma ExecuteKeepsGrantsOk(cfg: Config, st: State, ev: Event, env: Env)
    requires Accounts(cfg, st) && GrantsOk(st.grants) && ev in st.inflight && OutcomeOf(cfg, st, ev, env) == Recorded
    ensures GrantsOk(ExecuteStep(cfg, st, ev, env).grants)
  {
    AccountsAreSized(cfg, st);
    var p := AtSwap(cfg, st, ev, env);
    RecordedState(cfg, st, ev, env);
    GrantsAtOk(cfg, st, ev, env);
    MulBpsWithin(p.remainingSize, p.levels[ev.level].portionBps);
    DebitOk(GrantsAt(cfg, st, ev, env), p, ev.level);
  }

  /** Without activations a solvent allowance stays so. */
  lemma {:induction false} PlainRunStaysSolvent(cfg: Config, trace: seq<State>, ops: seq<Op>, n: nat, k: Grantee)
    requires IsRun(cfg, trace, ops, PlainIn(cfg)) && n <= |ops|
    requires Accounts(cfg, trace[0]) && GrantsOk(trace[0].grants) && SolventAt(trace[0], k)
    ensures Accounts(cfg, trace[n]) && GrantsOk(trace[n].grants) && SolventAt(trace[n], k)
  {
    hide Step, SolventAt, Accounts, GrantsOk;
    if n > 0 {
      PlainRunStaysSolvent(cfg, trace, ops, n - 1, k);
      assert Plain(cfg, trace[n - 1], ops[n - 1]);
      StepKeepsAccounts(cfg, trace[n - 1], ops[n - 1]);
      StepKeepsSolvent(cfg, trace[n - 1], ops[n - 1], k);
    }
  }

  /**
   An allowance covers whatever follows, until the next activation, exactly when it is solvent: when it is at
   least the sum of the remaining sizes of those who draw on it.
   */
  lemma SolventExactlyWhenNothingFallsShort(cfg: Config, st: State, k: Grantee)
    requires Accounts(cfg, st) && GrantsOk(st.grants)
    ensures SolventAt(st, k) <==>
      forall trace: seq<State>, ops: seq<Op> ::
        IsRun(cfg, trace, ops, PlainIn(cfg)) && trace[0] == st ==> !FallsShort(cfg, trace[|ops|], k)
  {
    if SolventAt(st, k) {
      forall trace: seq<State>, ops: seq<Op> | IsRun(cfg, trace, ops, PlainIn(cfg)) && trace[0] == st
        ensures !FallsShort(cfg, trace[|ops|], k)
      {
        PlainRunStaysSolvent(cfg, trace, ops, |ops|, k);
        SolventNeverShort(cfg, trace[|ops|], k);
      }
    } else {
      assert IsRun(cfg, [st], [], PlainIn(cfg));
      var trace, ops := InsolvencyIsFelt(cfg, [st], [], k);
      assert trace[0] == [st][0];
    }
  }

  lemma SolventNeverShort(cfg: Config, st: State, k: Grantee)
    requires Accounts(cfg, st) && GrantsOk(st.grants) && SolventAt(st, k)
    ensures !FallsShort(cfg, st, k)
  {
    AccountsAreSized(cfg, st);
    forall ev: Event, env: Env | Attempts(cfg, st, ev, env) && Draws(st.store[ev.pos], k)
      ensures Covers(st.grants, st.store[ev.pos], ev.level)
    {
      SolventPays(st, ev.pos, ev.level);
    }
  }
}
