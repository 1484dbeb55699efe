/**
 The Permit2 allowance that positions of one owner share. It is solvent when it covers everything that those
 who draw on it may still swap; an activation replaces it, and keeps it solvent exactly when the new amount
 is at least the sum of their remaining sizes.
 */
module Solvency {
  import opened Types
  import opened TriggerIndex
  import opened Amounts
  import opened Lifecycle
  import opened SwapOnce
  import opened Accounting
  import opened Permit2
  import opened Demand

  /** Without a limit, the allowance pays for any amount of 160 bits; otherwise it has to cover the demand. */
  ghost predicate Enough(store: map<PosId, Position>, k: Grantee, allowance: int) {
    if allowance == MAX_UINT160
    then forall id :: id in store && Draws(store[id], k) ==> store[id].remainingSize <= MAX_UINT160
    else DemandOn(store, k) <= allowance
  }

  ghost predicate SolventAt(st: State, k: Grantee) {
    Enough(st.store, k, Allowance(st.grants, k))
  }

  /** Allowances are numbers of 160 bits. */
  ghost predicate GrantsOk(grants: map<Grantee, int>) {
    forall k :: k in grants ==> 0 <= grants[k] <= MAX_UINT160
  }

  ghost predicate Sized(store: map<PosId, Position>) {
    forall id :: id in store ==> Balanced(store[id]) && store[id].id == id
  }

  lemma AccountsAreSized(cfg: Config, st: State)
    requires Accounts(cfg, st)
    ensures Sized(st.store)
  {
    forall id | id in st.store
      ensures Balanced(st.store[id]) && st.store[id].id == id
    {
      assert AccountOf(st.store, SwapsOf(st.swaps, id), id) && WellFormed(cfg, id, st.store[id]);
    }
  }

  // ---- Solvency pays ----

  /** Where the allowance is solvent, whatever fires next of those who draw on it is paid. */
  lemma SolventPays(st: State, id: PosId, i: nat)
    requires Sized(st.store) && GrantsOk(st.grants) && id in st.store && i < |st.store[id].levels|
    requires Draws(st.store[id], st.store[id].DrawsOn()) && SolventAt(st, st.store[id].DrawsOn())
    ensures Covers(st.grants, st.store[id], i)
  {
    var p := st.store[id];
    MulBpsWithin(p.remainingSize, p.levels[i].portionBps);
    WeightWithin(st.store, id, p.DrawsOn());
  }

  // ---- One position changes ----

  /** The position draws on nothing it did not draw on before, for the same size. */
  predicate Eases(p: Position, p': Position) {
    && p'.remainingSize == p.remainingSize && p'.DrawsOn() == p.DrawsOn()
    && (p'.permit.signed && p'.permit.activated && !p'.state.IsTerminal() ==>
          p.permit.signed && p.permit.activated && !p.state.IsTerminal())
  }

  lemma EasedIsEnough(store: map<PosId, Position>, id: PosId, p': Position, k: Grantee, allowance: int)
    requires id in store && store[id].remainingSize >= 0 && Eases(store[id], p') && Enough(store, k, allowance)
    ensures Enough(store[id := p'], k, allowance)
  {
    DemandReplaced(store, id, p', k);
  }

  lemma OpenedIsEnough(store: map<PosId, Position>, id: PosId, p: Position, k: Grantee, allowance: int)
    requires id !in store && !Draws(p, k) && Enough(store, k, allowance)
    ensures Enough(store[id := p], k, allowance)
  {
    DemandOpened(store, id, p, k);
  }

  /** A swap takes from the allowance what it takes from the position. */
  lemma FiredIsEnough(store: map<PosId, Position>, p: Position, i: nat, price: int, grants: map<Grantee, int>, k: Grantee)
    requires p.id in store && store[p.id] == p && i < |p.levels| && p.levels[i].status == LevelActive
    requires Balanced(p) && !p.state.IsTerminal() && (p.permit.signed ==> p.permit.activated)
    requires Covers(grants, p, i) && Enough(store, k, Allowance(grants, k)) && GrantsOk(grants)
    ensures Enough(store[p.id := Fired(p, i, price)], k, Allowance(Debit(grants, p, i), k))
  {
    var p' := Fired(p, i, price);
    FiredBalanced(p, i, price);
    MulBpsWithin(p.remainingSize, p.levels[i].portionBps);
    assert p'.permit == p.permit && p'.DrawsOn() == p.DrawsOn();
    hide Fired, MulBps;
    ShrunkIsEnough(store, p, p', AmountIn(p, i), k, Allowance(grants, k), Allowance(Debit(grants, p, i), k));
  }

  lemma ShrunkIsEnough(store: map<PosId, Position>, p: Position, p': Position, amount: nat, k: Grantee, before: int, after: int)
    requires p.id in store && store[p.id] == p && !p.state.IsTerminal() && (p.permit.signed ==> p.permit.activated)
    requires p'.permit == p.permit && p'.DrawsOn() == p.DrawsOn() && 0 <= p'.remainingSize == p.remainingSize - amount
    requires Enough(store, k, before)
    requires if Draws(p, k) && before != MAX_UINT160 then after == before - amount && amount <= before <= MAX_UINT160 else after == before
    ensures Enough(store[p.id := p'], k, after)
  {
    DemandReplaced(store, p.id, p', k);
  }

  // ---- Activation ----

  /** The activation of `p` takes effect in this step. */
  predicate TakesEffect(cfg: Config, st: State, ev: Event, env: Env) {
    SendsActivation(cfg, st, ev, env) && env.activate != Failed
  }

  /** The store with the position that activates counted among those who draw. */
  function Joined(cfg: Config, st: State, ev: Event, env: Env): map<PosId, Position> {
    if TakesEffect(cfg, st, ev, env) then st.store[ev.pos := Activated(st.store[ev.pos])] else st.store
  }

  /** An activation that touches the allowance leaves enough on it for all who draw, the newcomer included. */
  ghost predicate CoveredAt(cfg: Config, st: State, ev: Event, env: Env, k: Grantee) {
    TakesEffect(cfg, st, ev, env) && (st.store[ev.pos].Grants() == k || st.store[ev.pos].DrawsOn() == k) ==>
      Enough(Joined(cfg, st, ev, env), k, Allowance(GrantsAt(cfg, st, ev, env), k))
  }

  /**
   What that asks for, in numbers: a permit for the token the position swaps, with a limit, has to be for at
   least the remaining sizes of those who already draw on the allowance and its own.
   */
  lemma CoveredExactlyWhen(cfg: Config, st: State, ev: Event, env: Env)
    requires TakesEffect(cfg, st, ev, env) && st.store[ev.pos].Grants() == st.store[ev.pos].DrawsOn()
    requires st.store[ev.pos].permit.amount.value != MAX_UINT160
    ensures var p := st.store[ev.pos];
      CoveredAt(cfg, st, ev, env, p.DrawsOn()) <==> DemandOn(st.store, p.DrawsOn()) + p.remainingSize <= p.permit.amount.value
  {
    var p := st.store[ev.pos];
    DemandReplaced(st.store, ev.pos, Activated(p), p.DrawsOn());
  }

  lemma JoinedIsEnough(cfg: Config, st: State, ev: Event, env: Env, k: Grantee)
    requires SolventAt(st, k) && CoveredAt(cfg, st, ev, env, k)
    ensures Enough(Joined(cfg, st, ev, env), k, Allowance(GrantsAt(cfg, st, ev, env), k))
  {
    if TakesEffect(cfg, st, ev, env) && st.store[ev.pos].Grants() != k && st.store[ev.pos].DrawsOn() != k {
      DemandReplaced(st.store, ev.pos, Activated(st.store[ev.pos]), k);
    }
  }

  lemma GrantsAtOk(cfg: Config, st: State, ev: Event, env: Env)
    requires GrantsOk(st.grants)
    ensures GrantsOk(GrantsAt(cfg, st, ev, env))
  {
  }

  lemma DebitOk(grants: map<Grantee, int>, p: Position, i: nat)
    requires GrantsOk(grants) && i < |p.levels| && Covers(grants, p, i) && AmountIn(p, i) >= 0
    ensures GrantsOk(Debit(grants, p, i))
  {
  }

  // ---- Every step ----

  ghost predicate Covered(cfg: Config, st: State, op: Op, k: Grantee) {
    op.Execute? && op.event in st.inflight ==> CoveredAt(cfg, st, op.event, op.env, k)
  }

  lemma ExecuteKeepsSolvent(cfg: Config, st: State, ev: Event, env: Env, k: Grantee)
    requires Accounts(cfg, st) && Accounted(cfg, st, Execute(ev, env)) && GrantsOk(st.grants)
    requires SolventAt(st, k) && Covered(cfg, st, Execute(ev, env), k)
    ensures SolventAt(ExecuteStep(cfg, st, ev, env), k) && GrantsOk(ExecuteStep(cfg, st, ev, env).grants)
  {
    var out, st' := OutcomeOf(cfg, st, ev, env), ExecuteStep(cfg, st, ev, env);
    if ev !in st.inflight || out == Skipped || out == Panicked {
      QuietState(cfg, st, ev, env);
    } else {
      AccountsAreSized(cfg, st);
      var p0 := st.store[ev.pos];
      if out == Suspended {
        EasedIsEnough(st.store, ev.pos, p0.(levels := SetStatus(p0.levels, p0.Those(LevelActive), LevelSuspended)), k,
                      Allowance(st.grants, k));
      } else {
        JoinedIsEnough(cfg, st, ev, env, k);
        GrantsAtOk(cfg, st, ev, env);
        if out == Requeued {
          RequeuedState(cfg, st, ev, env);
          UnjoinedIsEnough(cfg, st, ev, env, st', k);
        } else {
          RecordedKeepsSolvent(cfg, st, ev, env, k);
        }
      }
    }
  }

  lemma UnjoinedIsEnough(cfg: Config, st: State, ev: Event, env: Env, st': State, k: Grantee)
    requires ev.pos in st.store && st.store[ev.pos].remainingSize >= 0
    requires Enough(Joined(cfg, st, ev, env), k, Allowance(GrantsAt(cfg, st, ev, env), k))
    requires st'.grants == GrantsAt(cfg, st, ev, env)
    requires st'.store == st.store || (Activates(cfg, st, ev, env) && st'.store == st.store[ev.pos := AtSwap(cfg, st, ev, env)])
    ensures SolventAt(st', k)
  {
    var joined := Joined(cfg, st, ev, env);
    EasedIsEnough(joined, ev.pos, st'.store[ev.pos], k, Allowance(st'.grants, k));
    assert joined[ev.pos := st'.store[ev.pos]] == st'.store;
  }

  /** A position is swapped as it stands among those who draw. */
  lemma SwappedIsJoined(cfg: Config, st: State, ev: Event, env: Env)
    requires OutcomeOf(cfg, st, ev, env) == Recorded
    ensures var p, joined := AtSwap(cfg, st, ev, env), Joined(cfg, st, ev, env);
      ev.pos in joined && joined[ev.pos] == p && joined[ev.pos := p] == joined && joined.Keys == st.store.Keys &&
      (forall id :: id in st.store && id != ev.pos ==> joined[id] == st.store[id]) &&
      !p.state.IsTerminal() && (p.permit.signed ==> p.permit.activated) && ev.level < |p.levels| &&
      p.levels[ev.level].status == LevelActive && Covers(GrantsAt(cfg, st, ev, env), p, ev.level)
  {
  }

  lemma AtSwapIsSized(cfg: Config, st: State, ev: Event, env: Env)
    requires Sized(st.store) && ev.pos in st.store
    ensures var p := AtSwap(cfg, st, ev, env);
      Balanced(p) && p.id == ev.pos && p.remainingSize >= 0 && forall i :: 0 <= i < |p.levels| ==> p.levels[i].portionBps <= BPS
  {
    assert ExecAmounts(AtSwap(cfg, st, ev, env).levels) == ExecAmounts(st.store[ev.pos].levels);
  }

  lemma RecordedKeepsSolvent(cfg: Config, st: State, ev: Event, env: Env, k: Grantee)
    requires StoreOk(cfg, st) && Sized(st.store) && ev in st.inflight && OutcomeOf(cfg, st, ev, env) == Recorded
    requires GrantsOk(GrantsAt(cfg, st, ev, env))
    requires Enough(Joined(cfg, st, ev, env), k, Allowance(GrantsAt(cfg, st, ev, env), k))
    ensures SolventAt(ExecuteStep(cfg, st, ev, env), k) && GrantsOk(ExecuteStep(cfg, st, ev, env).grants)
  {
    hide *;
    SwappedIsJoined(cfg, st, ev, env);
    var p, joined := AtSwap(cfg, st, ev, env), Joined(cfg, st, ev, env);
    RecordedState(cfg, st, ev, env);
    AtSwapIsSized(cfg, st, ev, env);
    var p' := Fired(p, ev.level, ev.price);
    assert joined[ev.pos := p'] == st.store[ev.pos := p'];
    SettledKeepsSolvent(joined, GrantsAt(cfg, st, ev, env), p, ev, ExecuteStep(cfg, st, ev, env), k);
  }

  lemma SettledKeepsSolvent(store: map<PosId, Position>, grants: map<Grantee, int>, p: Position, ev: Event, st': State, k: Grantee)
    requires p.id in store && store[p.id] == p && ev.level < |p.levels| && p.levels[ev.level].status == LevelActive
    requires Balanced(p) && !p.state.IsTerminal() && (p.permit.signed ==> p.permit.activated)
    requires GrantsOk(grants) && Covers(grants, p, ev.level) && Enough(store, k, Allowance(grants, k))
    requires st'.store == store[p.id := Fired(p, ev.level, ev.price)] && st'.grants == Debit(grants, p, ev.level)
    ensures SolventAt(st', k) && GrantsOk(st'.grants)
  {
    FiredIsEnough(store, p, ev.level, ev.price, grants, k);
    MulBpsWithin(p.remainingSize, p.levels[ev.level].portionBps);
    DebitOk(grants, p, ev.level);
  }

  /** What the other operations do to the store: nothing, one position eased, or one opened that draws on nothing. */
  lemma OthersEase(cfg: Config, st: State, op: Op)
    requires StoreOk(cfg, st) && !op.Execute?
    ensures var st' := Step(cfg, st, op);
      st'.grants == st.grants &&
      (st'.store == st.store ||
       (exists id :: id in st.store && id in st'.store && st'.store == st.store[id := st'.store[id]] && Eases(st.store[id], st'.store[id])) ||
       (exists id :: id !in st.store && id in st'.store && st'.store == st.store[id := st'.store[id]] && !st'.store[id].permit.activated))
  {
    hide RestartStep, Register, RegisterAll, Remove, UpdateTriggerPrice, SetStatus;
    var st' := Step(cfg, st, op);
    if op.Restart? {
      RestartKeepsRest(st, op.ids);
    } else if op.Open? {
      if st'.store != st.store { assert st'.store == st.store[op.id := st'.store[op.id]]; }
    } else if op.UpdateLevel? || op.AddLevel? || op.RemoveLevel? || op.Cancel? || op.Renew? || op.Expire? {
      if st'.store != st.store {
        assert WellFormed(cfg, op.id, st.store[op.id]);
        assert st'.store == st.store[op.id := st'.store[op.id]] && Eases(st.store[op.id], st'.store[op.id]);
      }
    }
  }

  lemma StepKeepsSolvent(cfg: Config, st: State, op: Op, k: Grantee)
    requires Accounts(cfg, st) && Regular(cfg, st, op) && GrantsOk(st.grants)
    requires SolventAt(st, k) && Covered(cfg, st, op, k)
    ensures SolventAt(Step(cfg, st, op), k) && GrantsOk(Step(cfg, st, op).grants)
  {
    if op.Execute? {
      ExecuteKeepsSolvent(cfg, st, op.event, op.env, k);
    } else {
      OthersEase(cfg, st, op);
      AccountsAreSized(cfg, st);
      EaseKeepsSolvent(st, Step(cfg, st, op), k);
    }
  }

  lemma EaseKeepsSolvent(st: State, st': State, k: Grantee)
    requires Sized(st.store) && SolventAt(st, k) && st'.grants == st.grants
    requires st'.store == st.store ||
       (exists id :: id in st.store && id in st'.store && st'.store == st.store[id := st'.store[id]] && Eases(st.store[id], st'.store[id])) ||
       (exists id :: id !in st.store && id in st'.store && st'.store == st.store[id := st'.store[id]] && !st'.store[id].permit.activated)
    ensures SolventAt(st', k)
  {
    if st'.store != st.store {
      if id :| id in st.store && id in st'.store && st'.store == st.store[id := st'.store[id]] && Eases(st.store[id], st'.store[id]) {
        EasedIsEnough(st.store, id, st'.store[id], k, Allowance(st.grants, k));
      } else {
        var id :| id !in st.store && id in st'.store && st'.store == st.store[id := st'.store[id]] && !st'.store[id].permit.activated;
        OpenedIsEnough(st.store, id, st'.store[id], k, Allowance(st.grants, k));
      }
    }
  }

  // ---- Every run ----

  /** Every activation covers everybody it concerns. */
  ghost predicate Careful(cfg: Config, st: State, op: Op) {
    Regular(cfg, st, op) && forall k :: Covered(cfg, st, op, k)
  }

  ghost predicate Solvent(cfg: Config, st: State) {
    Accounts(cfg, st) && GrantsOk(st.grants) && forall k :: SolventAt(st, k)
  }

  lemma StepKeepsAllSolvent(cfg: Config, st: State, op: Op)
    requires Solvent(cfg, st) && Careful(cfg, st, op)
    ensures Solvent(cfg, Step(cfg, st, op))
  {
    hide Step;
    StepKeepsAccounts(cfg, st, op);
    forall k
      ensures SolventAt(Step(cfg, st, op), k) && GrantsOk(Step(cfg, st, op).grants)
    {
      assert Covered(cfg, st, op, k) && SolventAt(st, k);
      StepKeepsSolvent(cfg, st, op, k);
    }
    StepKeepsSolvent(cfg, st, op, Grantee(0, 0, 0));
  }

  lemma {:induction false} RunKeepsSolvent(cfg: Config, trace: seq<State>, ops: seq<Op>, n: nat)
    requires IsRun(cfg, trace, ops, (s, op) => Careful(cfg, s, op)) && n <= |ops| && Solvent(cfg, trace[0])
    ensures Solvent(cfg, trace[n])
  {
    hide Step;
    if n > 0 {
      RunKeepsSolvent(cfg, trace, ops, n - 1);
      assert Careful(cfg, trace[n - 1], ops[n - 1]);
      StepKeepsAllSolvent(cfg, trace[n - 1], ops[n - 1]);
    }
  }

  /** A signed position gets to its swap: the level is active, everything before the swap succeeds, the permit is active. */
  predicate Attempts(cfg: Config, st: State, ev: Event, env: Env) {
    && ev in st.inflight && Eligible(cfg, st, ev, env)
    && var permit := st.store[ev.pos].permit;
       permit.signed && !PermitExpired(permit, env.now) && (permit.activated || Activates(cfg, st, ev, env))
  }

  lemma EmptyIsSolvent(cfg: Config)
    ensures Solvent(cfg, EMPTY)
  {
    forall k
      ensures SolventAt(EMPTY, k)
    {
      assert DemandOn(EMPTY.store, k) == 0;
    }
  }

  /**
   No debit falls short, in every run whose activations are all covered, renewals and restarts included:
   each time a signed position gets to its swap, the allowance it shares pays the amount in full.
   */
  lemma NoDebitFallsShort(cfg: Config, trace: seq<State>, ops: seq<Op>, n: nat, ev: Event, env: Env)
    requires IsRun(cfg, trace, ops, (s, op) => Careful(cfg, s, op)) && trace[0] == EMPTY
    requires n < |ops| && ops[n] == Execute(ev, env) && Attempts(cfg, trace[n], ev, env)
    ensures Covers(GrantsAt(cfg, trace[n], ev, env), trace[n].store[ev.pos], ev.level)
  {
    hide Step;
    EmptyIsSolvent(cfg);
    RunKeepsSolvent(cfg, trace, ops, n);
    assert Careful(cfg, trace[n], ops[n]) && Covered(cfg, trace[n], ops[n], trace[n].store[ev.pos].DrawsOn());
    AttemptIsPaid(cfg, trace[n], ev, env);
  }

  lemma AttemptIsPaid(cfg: Config, st: State, ev: Event, env: Env)
    requires Accounts(cfg, st) && GrantsOk(st.grants) && Attempts(cfg, st, ev, env)
    requires var k := st.store[ev.pos].DrawsOn(); SolventAt(st, k) && CoveredAt(cfg, st, ev, env, k)
    ensures Covers(GrantsAt(cfg, st, ev, env), st.store[ev.pos], ev.level)
  {
    var p0, p, k := st.store[ev.pos], AtSwap(cfg, st, ev, env), st.store[ev.pos].DrawsOn();
    AccountsAreSized(cfg, st);
    JoinedIsEnough(cfg, st, ev, env, k);
    GrantsAtOk(cfg, st, ev, env);
    var joined := st.(store := Joined(cfg, st, ev, env), grants := GrantsAt(cfg, st, ev, env));
    assert joined.store[ev.pos] == p && ExecAmounts(p.levels) == ExecAmounts(p0.levels);
    SolventPays(joined, ev.pos, ev.level);
  }
}
