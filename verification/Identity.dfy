/** What no operation ever changes: whose a position is, what it trades, and what its levels were set up to do. */
module Identity {
  import opened Types
  import opened TriggerIndex
  import opened Lifecycle
  import opened SwapOnce

  /** What a level was set up to do; its price, its status and its record may change. */
  predicate SameSetup(l: Level, l': Level) {
    && l'.index == l.index && l'.typ == l.typ && l'.portionBps == l.portionBps
    && l'.moveSLTo == l.moveSLTo && l'.cancelOnFire == l.cancelOnFire
  }

  /** Only levels, size left, state and permit may differ, and of the levels there may be more. */
  ghost predicate SameIdentity(p: Position, p': Position) {
    && p' == p.(levels := p'.levels, remainingSize := p'.remainingSize, state := p'.state, permit := p'.permit)
    && |p.levels| <= |p'.levels| && forall i :: 0 <= i < |p.levels| ==> SameSetup(p.levels[i], p'.levels[i])
  }

  /** What has been recorded of executions is what it was. */
  ghost predicate SameRecords(p: Position, p': Position) {
    && |p.levels| <= |p'.levels|
    && forall i :: 0 <= i < |p.levels| ==>
         p'.levels[i].execPrice == p.levels[i].execPrice && p'.levels[i].execAmount == p.levels[i].execAmount
  }

  lemma FiredIdentity(p: Position, i: nat, price: int)
    requires i < |p.levels|
    ensures SameIdentity(p, Fired(p, i, price))
  {
    var p' := Fired(p, i, price);
    forall j | 0 <= j < |p.levels|
      ensures SameSetup(p.levels[j], p'.levels[j])
    {
      hide MovedSL, TakenDown;
    }
    hide FiredLevels, MovedSL;
  }

  lemma IdentityTwice(a: Position, b: Position, c: Position)
    requires SameIdentity(a, b) && SameIdentity(b, c)
    ensures SameIdentity(a, c)
  {
  }

  lemma ExecuteKeepsIdentity(cfg: Config, st: State, ev: Event, env: Env, id: PosId)
    requires StoreOk(cfg, st) && id in st.store
    ensures id in ExecuteStep(cfg, st, ev, env).store && SameIdentity(st.store[id], ExecuteStep(cfg, st, ev, env).store[id])
  {
    hide ExecuteStep, OutcomeOf, SameIdentity;
    NothingChanged(st.store[id]);
    StoresItsOwn(cfg, st, ev, env);
    if id == ev.pos && ExecuteStep(cfg, st, ev, env).store != st.store {
      OwnExecution(cfg, st, ev, env);
    }
  }

  lemma OwnExecution(cfg: Config, st: State, ev: Event, env: Env)
    requires StoreOk(cfg, st) && ev.pos in st.store
    requires ExecuteStep(cfg, st, ev, env).store != st.store
    ensures ev.pos in ExecuteStep(cfg, st, ev, env).store
    ensures SameIdentity(st.store[ev.pos], ExecuteStep(cfg, st, ev, env).store[ev.pos])
  {
    var out := OutcomeOf(cfg, st, ev, env);
    OwnId(cfg, st, ev.pos);
    if ev !in st.inflight || out == Skipped || out == Panicked {
      QuietState(cfg, st, ev, env);
    } else if out == Suspended {
      SuspendedIdentity(cfg, st, ev, env);
    } else if out == Recorded {
      RecordedIdentity(cfg, st, ev, env);
    } else if out == Requeued {
      RequeuedState(cfg, st, ev, env);
    } else {
      UnstoredState(cfg, st, ev, env);
    }
    hide ExecuteStep, OutcomeOf, Fired, FiredIndex, SwapOf, Debit, GrantsAt, Covers, Activates, StoreOk, Register;
  }

  lemma RecordedIdentity(cfg: Config, st: State, ev: Event, env: Env)
    requires StoreOk(cfg, st) && ev in st.inflight && OutcomeOf(cfg, st, ev, env) == Recorded
    ensures ev.pos in st.store && ev.pos in ExecuteStep(cfg, st, ev, env).store
    ensures SameIdentity(st.store[ev.pos], ExecuteStep(cfg, st, ev, env).store[ev.pos])
  {
    RecordedState(cfg, st, ev, env);
    FiredIdentity(AtSwap(cfg, st, ev, env), ev.level, ev.price);
    hide ExecuteStep, OutcomeOf, Fired, FiredIndex, SwapOf, Debit, GrantsAt, Covers, Activates, StoreOk;
  }

  lemma SuspendedIdentity(cfg: Config, st: State, ev: Event, env: Env)
    requires ev in st.inflight && OutcomeOf(cfg, st, ev, env) == Suspended && st.store[ev.pos].id == ev.pos
    ensures ev.pos in st.store && ev.pos in ExecuteStep(cfg, st, ev, env).store
    ensures SameIdentity(st.store[ev.pos], ExecuteStep(cfg, st, ev, env).store[ev.pos])
  {
    hide Remove;
  }

  predicate IsEdit(op: Op) {
    op.UpdateLevel? || op.AddLevel? || op.RemoveLevel?
  }

  predicate IsSweep(op: Op) {
    op.Cancel? || op.Renew? || op.Expire?
  }

  lemma EditKeepsIdentity(cfg: Config, st: State, op: Op, id: PosId)
    requires IsEdit(op) && id in st.store && (op.id in st.store ==> st.store[op.id].id == op.id)
    ensures id in Step(cfg, st, op).store && SameIdentity(st.store[id], Step(cfg, st, op).store[id])
    ensures SameRecords(st.store[id], Step(cfg, st, op).store[id])
  {
    hide Register, Remove, UpdateTriggerPrice, FiresAbove, SameIdentity, SameRecords, OpenStep, CancelStep, RenewStep, ExpireStep,
         LoadStep, RestartStep, PriceStep, CutPriceStep, ExecuteStep;
    NothingChanged(st.store[id]);
    if op.id in st.store {
      var p := st.store[op.id];
      if op.UpdateLevel? && 0 <= op.level < |p.levels| {
        LevelIdentity(p, op.level, p.levels[op.level].(triggerPrice := op.price));
        PutIdentity(st, Repriced(p, op.level, op.price), Step(cfg, st, op).index, op.updateOk, id);
      } else if op.AddLevel? {
        ExtendedIdentity(p, op.params');
        PutIdentity(st, Extended(p, op.params'), Step(cfg, st, op).index, op.updateOk, id);
      } else if op.RemoveLevel? && 0 <= op.level < |p.levels| {
        LevelIdentity(p, op.level, p.levels[op.level].(status := LevelCancelled));
        PutIdentity(st, p.(levels := p.levels[op.level := p.levels[op.level].(status := LevelCancelled)]),
                    Step(cfg, st, op).index, op.updateOk, id);
      }
    }
  }

  lemma LevelIdentity(p: Position, i: nat, l: Level)
    requires i < |p.levels| && SameSetup(p.levels[i], l) && l.execPrice == p.levels[i].execPrice && l.execAmount == p.levels[i].execAmount
    ensures SameIdentity(p, p.(levels := p.levels[i := l])) && SameRecords(p, p.(levels := p.levels[i := l]))
  {
  }

  lemma ExtendedIdentity(p: Position, lp: LevelParams)
    ensures SameIdentity(p, Extended(p, lp)) && SameRecords(p, Extended(p, lp))
  {
  }

  lemma SetIdentity(p: Position, those: set<nat>, to: LevelStatus, p': Position)
    requires p' == p.(levels := SetStatus(p.levels, those, to), state := p'.state, permit := p'.permit)
    ensures SameIdentity(p, p') && SameRecords(p, p')
  {
  }

  lemma PutIdentity(st: State, p: Position, ix: Index, ok: bool, id: PosId)
    requires id in st.store && p.id in st.store && SameIdentity(st.store[p.id], p) && SameRecords(st.store[p.id], p)
    ensures var st' := Put(st, p, ix, ok);
      id in st'.store && SameIdentity(st.store[id], st'.store[id]) && SameRecords(st.store[id], st'.store[id])
  {
  }

  lemma SweepKeepsIdentity(cfg: Config, st: State, op: Op, id: PosId)
    requires IsSweep(op) && id in st.store && (op.id in st.store ==> st.store[op.id].id == op.id)
    ensures id in Step(cfg, st, op).store && SameIdentity(st.store[id], Step(cfg, st, op).store[id])
    ensures SameRecords(st.store[id], Step(cfg, st, op).store[id])
  {
    hide Remove, RegisterAll, SetStatus, SameIdentity, SameRecords, OpenStep, UpdateStep, AddStep, RemoveStep, LoadStep, RestartStep,
         PriceStep, CutPriceStep, ExecuteStep;
    NothingChanged(st.store[id]);
    if op.id in st.store {
      var p := st.store[op.id];
      var q := if op.Cancel? then p.(levels := SetStatus(p.levels, p.Those(LevelActive), LevelCancelled), state := StateCancelled)
               else if op.Renew? then Renewed(p, op.signed, op.nonce, op.deadline, op.amount)
               else p.(levels := SetStatus(p.levels, p.Those(LevelActive), LevelSuspended));
      SetIdentity(p, if op.Renew? then p.Those(LevelSuspended) else p.Those(LevelActive),
                  if op.Cancel? then LevelCancelled else if op.Renew? then LevelActive else LevelSuspended, q);
      PutIdentity(st, q, Step(cfg, st, op).index, op.updateOk, id);
    }
  }

  lemma NothingChanged(p: Position)
    ensures SameIdentity(p, p) && SameRecords(p, p)
  {
  }

  lemma OthersKeepStore(cfg: Config, st: State, op: Op)
    requires op.Load? || op.Restart? || op.Price? || op.CutPrice?
    ensures Step(cfg, st, op).store == st.store
  {
    hide RegisterAll, OnPrice, RestartStep, ExecuteStep;
    if op.Restart? {
      RestartKeepsRest(st, op.ids);
    }
  }

  /** Every operation leaves every position's identity as it was. */
  lemma StepKeepsIdentity(cfg: Config, st: State, op: Op, id: PosId)
    requires StoreOk(cfg, st) && id in st.store
    ensures id in Step(cfg, st, op).store && SameIdentity(st.store[id], Step(cfg, st, op).store[id])
  {
    if op.Execute? {
      ExecuteKeepsIdentity(cfg, st, op.event, op.env, id);
      StepExecutes(cfg, st, op.event, op.env);
    } else if IsEdit(op) {
      OwnId(cfg, st, op.id);
      EditKeepsIdentity(cfg, st, op, id);
    } else if IsSweep(op) {
      OwnId(cfg, st, op.id);
      SweepKeepsIdentity(cfg, st, op, id);
    } else if !op.Open? {
      OthersKeepStore(cfg, st, op);
    }
    hide ExecuteStep, UpdateStep, AddStep, RemoveStep, CancelStep, RenewStep, ExpireStep, RestartStep, PriceStep, CutPriceStep, StoreOk;
  }

  lemma OwnId(cfg: Config, st: State, id: PosId)
    requires StoreOk(cfg, st)
    ensures id in st.store ==> st.store[id].id == id
  {
    if id in st.store { assert WellFormed(cfg, id, st.store[id]); }
  }

  /** Only executions add to the records. */
  lemma OthersKeepRecords(cfg: Config, st: State, op: Op, id: PosId)
    requires StoreOk(cfg, st) && id in st.store && !op.Execute?
    ensures id in Step(cfg, st, op).store && SameRecords(st.store[id], Step(cfg, st, op).store[id])
  {
    if IsEdit(op) {
      OwnId(cfg, st, op.id);
      EditKeepsIdentity(cfg, st, op, id);
    } else if IsSweep(op) {
      OwnId(cfg, st, op.id);
      SweepKeepsIdentity(cfg, st, op, id);
    } else if !op.Open? {
      OthersKeepStore(cfg, st, op);
    }
    hide ExecuteStep, UpdateStep, AddStep, RemoveStep, CancelStep, RenewStep, ExpireStep, RestartStep, PriceStep, CutPriceStep, StoreOk;
  }

  /** Over every run, whatever happens. */
  lemma {:induction false} RunKeepsIdentity(cfg: Config, trace: seq<State>, ops: seq<Op>, ok: (State, Op) -> bool, m: nat, n: nat, id: PosId)
    requires IsRun(cfg, trace, ops, ok) && trace[0] == EMPTY && m <= n <= |ops| && id in trace[m].store
    ensures id in trace[n].store && SameIdentity(trace[m].store[id], trace[n].store[id])
  {
    hide Step, StoreOk;
    if m < n {
      RunKeepsIdentity(cfg, trace, ops, ok, m, n - 1, id);
      EmptyStoreOk(cfg);
      RunKeepsStoreOk(cfg, trace, ops, ok, n - 1);
      StepKeepsIdentity(cfg, trace[n - 1], ops[n - 1], id);
      IdentityTwice(trace[m].store[id], trace[n - 1].store[id], trace[n].store[id]);
    }
  }

  lemma EmptyStoreOk(cfg: Config)
    ensures StoreOk(cfg, EMPTY)
  {
  }
}
