/** What RenewPermit stores, and what it is for: until the new deadline nothing suspends the position's levels. */
module Revival {
  import opened Types
  import opened TriggerIndex
  import opened Lifecycle
  import opened SwapOnce
  import opened Coverage
  import opened Identity
  import PermitBudget
  import Opening

  /** The permit that is given, with the old nonce and amount where none is; it has to be activated anew. */
  predicate RenewedPermit(op: Op, was: Permit, p: Permit)
    requires op.Renew?
  {
    && p.signed == op.signed && p.deadline == op.deadline && !p.activated && p.token == was.token
    && p.nonce == (if op.nonce.Some? then op.nonce else was.nonce)
    && p.amount == (if op.amount.Some? then op.amount else was.amount)
  }

  /** Suspended levels are active again; nothing else about any level changes. */
  predicate RevivedLevel(was: Level, l: Level) {
    l == was.(status := l.status) && l.status == if was.status == LevelSuspended then LevelActive else was.status
  }

  ghost predicate RenewedAs(op: Op, was: Position, p: Position)
    requires op.Renew?
  {
    && p == was.(levels := p.levels, permit := p.permit) && RenewedPermit(op, was.permit, p.permit)
    && |p.levels| == |was.levels| && forall i :: 0 <= i < |was.levels| ==> RevivedLevel(was.levels[i], p.levels[i])
  }

  /** The entry of a level that was suspended. */
  predicate RevivedEntry(was: Position, up: bool, x: Entry) {
    && x.pos == was.id && x.level < |was.levels| && was.levels[x.level].status == LevelSuspended
    && x.price == was.levels[x.level].triggerPrice && x.typ == was.levels[x.level].typ
    && up == ((x.typ == TP) == (was.direction == Long))
  }

  /** Only the owner renews, and only a position that is neither closed nor cancelled. */
  predicate MayRenew(st: State, op: Op)
    requires op.Renew?
  {
    op.getOk && op.id in st.store && st.store[op.id].owner == op.owner &&
    st.store[op.id].state != StateClosed && st.store[op.id].state != StateCancelled
  }

  lemma RenewMeans(cfg: Config, st: State, op: Op)
    requires op.Renew? && StoreOk(cfg, st)
    ensures var st' := Step(cfg, st, op);
      if MayRenew(st, op) then
        st' == st.(store := st'.store, index := st'.index) &&
        (if op.updateOk
         then op.id in st'.store && RenewedAs(op, st.store[op.id], st'.store[op.id]) && st'.store == st.store[op.id := st'.store[op.id]]
         else st'.store == st.store) &&
        forall pair: TokenPair, up: bool, x: Entry :: Has(st'.index, pair, up, x) <==>
          Has(st.index, pair, up, x) || (pair == st.store[op.id].Pair() && RevivedEntry(st.store[op.id], up, x))
      else st' == st
  {
    OwnId(cfg, st, op.id);
    if MayRenew(st, op) {
      RenewIndexMeans(st, op);
      RenewPositionMeans(st, op);
    }
    hide Has, RevivedEntry, RenewedAs, StoreOk, RegisterAll, SetStatus, ExecuteStep, RestartStep;
  }

  lemma RenewIndexMeans(st: State, op: Op)
    requires op.Renew? && MayRenew(st, op) && st.store[op.id].id == op.id
    ensures var p := st.store[op.id];
      var p' := Renewed(p, op.signed, op.nonce, op.deadline, op.amount);
      |p'.levels| == |p.levels| &&
      forall pair: TokenPair, up: bool, x: Entry :: Has(RegisterAll(st.index, p', p.Those(LevelSuspended), |p'.levels|), pair, up, x) <==>
        Has(st.index, pair, up, x) || (pair == p.Pair() && RevivedEntry(p, up, x))
  {
    var p := st.store[op.id];
    var p' := Renewed(p, op.signed, op.nonce, op.deadline, op.amount);
    forall pair: TokenPair, up: bool, x: Entry
      ensures Has(RegisterAll(st.index, p', p.Those(LevelSuspended), |p'.levels|), pair, up, x) <==>
        Has(st.index, pair, up, x) || (pair == p.Pair() && RevivedEntry(p, up, x))
    {
      RegisterAllHas(st.index, p', p.Those(LevelSuspended), |p'.levels|, pair, up, x);
      hide Has, RegisterAll;
    }
  }

  lemma RenewPositionMeans(st: State, op: Op)
    requires op.Renew? && op.id in st.store
    ensures RenewedAs(op, st.store[op.id], Renewed(st.store[op.id], op.signed, op.nonce, op.deadline, op.amount))
  {
  }

  // ---- What suspends ----

  /** An execution ends in a suspension exactly when it gets as far as a permit that has a deadline, and that is past. */
  lemma SuspendsExactlyWhen(cfg: Config, st: State, ev: Event, env: Env)
    ensures OutcomeOf(cfg, st, ev, env) == Suspended <==>
      env.getOk && ev.pos in st.store &&
      var p := st.store[ev.pos];
      p.state != StateClosed && p.state != StateCancelled && ev.level < |p.levels| && p.levels[ev.level].status == LevelActive &&
      p.chain in cfg && env.feeOk && env.breakerOk && p.permit.signed && 0 < p.permit.deadline <= env.now
  {
    hide Activates, GrantsAt, Covers, HasNegativeIndex, NilField;
  }

  /** The monitor finds a position due, less than 2^63 nanoseconds either side of its deadline, exactly when that is past. */
  lemma DueExactlyWhen(st: State, id: PosId, now: int)
    requires id in st.store
    requires -0x8000_0000_0000_0000 <= (st.store[id].permit.deadline - now) * 1_000_000_000 < 0x8000_0000_0000_0000
    ensures ExpiryDue(st, id, now) <==>
      var p := st.store[id];
      p.state != StateClosed && p.state != StateCancelled && p.permit.signed && p.permit.deadline != 0 && p.permit.deadline <= now &&
      exists i: nat :: i < |p.levels| && p.levels[i].status == LevelActive
  {
    var p := st.store[id];
    PermitBudget.MonitorIsRightWithinRange(p.permit.deadline, now);
    if i: nat :| i < |p.levels| && p.levels[i].status == LevelActive {
      assert i in p.Those(LevelActive);
    }
    hide LifetimeNanos;
  }

  /** A warning is given exactly for a signed live position whose deadline is ahead, within 48 hours unless configured otherwise. */
  lemma WarnsExactlyWhen(cfg: Config, st: State, id: PosId, now: int)
    requires id in st.store && st.store[id].chain in cfg
    requires -0x8000_0000_0000_0000 <= (st.store[id].permit.deadline - now) * 1_000_000_000 < 0x8000_0000_0000_0000
    ensures var p, w := st.store[id], cfg[st.store[id].chain].permitExpiryWarning;
      var active := set i: nat | i < |p.levels| && p.levels[i].status == LevelActive;
      WarningOf(cfg, st, id, now) ==
        if p.state != StateClosed && p.state != StateCancelled && p.permit.signed && p.permit.deadline != 0 &&
           0 < (p.permit.deadline - now) * 1_000_000_000 <= (if w == 0 then 48 * 3600 * 1_000_000_000 else w)
        then [Warning(id, p.owner, p.permit.deadline, |active|)]
        else []
  {
    assert LifetimeNanos(st.store[id].permit.deadline, now) == (st.store[id].permit.deadline - now) * 1_000_000_000 by {
      InRange(st.store[id].permit.deadline - now);
    }
    hide LifetimeNanos;
  }

  lemma InRange(s: int)
    requires -0x8000_0000_0000_0000 <= s * 1_000_000_000 < 0x8000_0000_0000_0000
    ensures Wrap64(s) == s && Wrap64(s * 1_000_000_000) == s * 1_000_000_000
  {
  }

  /**
   The law of renewal, over every run: from a renewal that was stored until the next one, no execution before the
   new deadline ends in a suspension, and the monitor leaves the position alone.
   */
  lemma RenewalHolds(cfg: Config, trace: seq<State>, ops: seq<Op>, ok: (State, Op) -> bool, m: nat, n: nat, ev: Event, env: Env, now: int)
    requires IsRun(cfg, trace, ops, ok) && trace[0] == EMPTY && m < n <= |ops|
    requires ops[m].Renew? && MayRenew(trace[m], ops[m]) && ops[m].updateOk && ev.pos == ops[m].id
    requires forall i :: m < i < n ==> !Opening.RenewsIt(ops[i], ev.pos)
    ensures ev.pos in trace[n].store && trace[n].store[ev.pos].permit.deadline == ops[m].deadline
    ensures env.now < ops[m].deadline ==> OutcomeOf(cfg, trace[n], ev, env) != Suspended
    ensures now < ops[m].deadline && (ops[m].deadline - now) * 1_000_000_000 < 0x8000_0000_0000_0000 ==> !ExpiryDue(trace[n], ev.pos, now)
  {
    hide Step, StoreOk, LifetimeNanos;
    KeepsDeadline(cfg, trace, ops, ok, m, n, ev.pos);
    SuspendsExactlyWhen(cfg, trace[n], ev, env);
    if now < ops[m].deadline && (ops[m].deadline - now) * 1_000_000_000 < 0x8000_0000_0000_0000 {
      DueExactlyWhen(trace[n], ev.pos, now);
    }
  }

  lemma {:induction false} KeepsDeadline(cfg: Config, trace: seq<State>, ops: seq<Op>, ok: (State, Op) -> bool, m: nat, n: nat, id: PosId)
    requires IsRun(cfg, trace, ops, ok) && trace[0] == EMPTY && m < n <= |ops|
    requires ops[m].Renew? && MayRenew(trace[m], ops[m]) && ops[m].updateOk && id == ops[m].id
    requires forall i :: m < i < n ==> !Opening.RenewsIt(ops[i], id)
    ensures id in trace[n].store && trace[n].store[id].permit.deadline == ops[m].deadline
  {
    hide Step, StoreOk;
    EmptyStoreOk(cfg);
    RunKeepsStoreOk(cfg, trace, ops, ok, n - 1);
    if m == n - 1 {
      RenewMeans(cfg, trace[m], ops[m]);
    } else {
      KeepsDeadline(cfg, trace, ops, ok, m, n - 1, id);
      PermitBudget.StepKeepsPermit(cfg, trace[n - 1], ops[n - 1], id);
    }
  }

  // ---- A permit that comes later ----

  /** The token a permit is for is set when the position is opened, and never again. */
  lemma {:induction false} TokenIsFinal(cfg: Config, trace: seq<State>, ops: seq<Op>, ok: (State, Op) -> bool, m: nat, n: nat, id: PosId)
    requires IsRun(cfg, trace, ops, ok) && trace[0] == EMPTY && m <= n <= |ops| && id in trace[m].store
    ensures id in trace[n].store && trace[n].store[id].permit.token == trace[m].store[id].permit.token
  {
    hide Step, StoreOk;
    if m < n {
      TokenIsFinal(cfg, trace, ops, ok, m, n - 1, id);
      EmptyStoreOk(cfg);
      RunKeepsStoreOk(cfg, trace, ops, ok, n - 1);
      if Opening.RenewsIt(ops[n - 1], id) {
        RenewMeans(cfg, trace[n - 1], ops[n - 1]);
      } else {
        PermitBudget.StepKeepsPermit(cfg, trace[n - 1], ops[n - 1], id);
      }
    }
  }

  /**
   A position that was opened without a permit can be renewed into one, but RenewPermit sets no token: whatever
   permit it gets, its activation replaces the allowance for address zero, and not the one its swaps draw on.
   */
  lemma LatePermitGrantsNothing(cfg: Config, trace: seq<State>, ops: seq<Op>, ok: (State, Op) -> bool, k: nat, n: nat, id: PosId)
    requires IsRun(cfg, trace, ops, ok) && trace[0] == EMPTY && k < n <= |ops|
    requires Opening.OpenedAt(cfg, trace, ops, k, id) && ops[k].params.permit.None?
    ensures id in trace[n].store && trace[n].store[id].permit.token == 0
    ensures trace[n].store[id].TokenIn() != 0 ==> trace[n].store[id].Grants() != trace[n].store[id].DrawsOn()
  {
    hide Step, StoreOk;
    TokenIsFinal(cfg, trace, ops, ok, k + 1, n, id);
  }
}
