/**
 At-most-once execution: over every run in which a swap that happened is also stored, no level is
 swapped twice, and a terminal position never changes again.
 */
module SwapOnce {
  import opened Types
  import opened TriggerIndex
  import opened Lifecycle

  predicate Done(s: LevelStatus) {
    s == LevelTriggered || s == LevelCancelled
  }

  /** What every step does to every stored position: levels are never dropped and a done level stays done. */
  ghost predicate Evolves(p: Position, p': Position) {
    && |p.levels| <= |p'.levels|
    && (forall i :: 0 <= i < |p.levels| && Done(p.levels[i].status) ==> Done(p'.levels[i].status))
    && (p.state.IsTerminal() ==> p' == p)
  }

  ghost predicate StoreEvolves(st: State, st': State) {
    forall id :: id in st.store ==> id in st'.store && Evolves(st.store[id], st'.store[id])
  }

  lemma FiredEvolves(cfg: Config, p: Position, i: nat, price: int)
    requires i < |p.levels| && p.levels[i].status == LevelActive && !p.state.IsTerminal()
    ensures Evolves(p, Fired(p, i, price)) && Fired(p, i, price).levels[i].status == LevelTriggered
    ensures WellFormed(cfg, p.id, p) ==> WellFormed(cfg, p.id, Fired(p, i, price))
  {
    hide MovedSL, ActiveSL;
    assert forall j :: 0 <= j < |p.levels| && Done(p.levels[j].status) ==> j !in TakenDown(p, i);
  }

  /** Marking levels that are not done, and nothing but statuses, is an evolution. */
  lemma SweepEvolves(cfg: Config, p: Position, those: set<nat>, to: LevelStatus, p': Position)
    requires forall i :: 0 <= i < |p.levels| && i in those ==> !Done(p.levels[i].status)
    requires p'.levels == SetStatus(p.levels, those, to) && p'.id == p.id && p'.chain == p.chain
    requires !p.state.IsTerminal() && WellFormed(cfg, p.id, p)
    ensures Evolves(p, p') && WellFormed(cfg, p.id, p')
  {
  }

  lemma PutEvolves(cfg: Config, st: State, p': Position, index: Index, ok: bool)
    requires StoreOk(cfg, st) && p'.id in st.store
    requires Evolves(st.store[p'.id], p') && WellFormed(cfg, p'.id, p')
    ensures StoreOk(cfg, Put(st, p', index, ok)) && StoreEvolves(st, Put(st, p', index, ok))
  {
  }

  lemma SuspendEvolves(cfg: Config, st: State, p: Position, ok: bool)
    requires StoreOk(cfg, st) && p.id in st.store && st.store[p.id] == p && !p.state.IsTerminal()
    ensures StoreOk(cfg, SuspendStep(st, p, ok)) && StoreEvolves(st, SuspendStep(st, p, ok))
  {
    var those := p.Those(LevelActive);
    var p' := p.(levels := SetStatus(p.levels, those, LevelSuspended));
    SweepEvolves(cfg, p, those, LevelSuspended, p');
    PutEvolves(cfg, st, p', Remove(st.index, p.Pair(), OfLevels(p.id, those)), ok);
  }

  lemma CancelEvolves(cfg: Config, st: State, id: PosId, getOk: bool, ok: bool)
    requires StoreOk(cfg, st) && Live(st, id, getOk)
    ensures StoreOk(cfg, CancelStep(st, id, getOk, ok)) && StoreEvolves(st, CancelStep(st, id, getOk, ok))
  {
    var p := st.store[id];
    var those := p.Those(LevelActive);
    var p' := p.(levels := SetStatus(p.levels, those, LevelCancelled), state := StateCancelled);
    SweepEvolves(cfg, p, those, LevelCancelled, p');
    PutEvolves(cfg, st, p', Remove(st.index, p.Pair(), OfLevels(p.id, those)), ok);
  }

  lemma RenewEvolves(cfg: Config, st: State, id: PosId, signed: bool, nonce: Option<int>, deadline: int, amount: Option<int>,
                     index: Index, ok: bool)
    requires StoreOk(cfg, st) && Live(st, id, true)
    ensures var st' := Put(st, Renewed(st.store[id], signed, nonce, deadline, amount), index, ok);
      StoreOk(cfg, st') && StoreEvolves(st, st')
  {
    var p := st.store[id];
    SweepEvolves(cfg, p, p.Those(LevelSuspended), LevelActive, Renewed(p, signed, nonce, deadline, amount));
    PutEvolves(cfg, st, Renewed(p, signed, nonce, deadline, amount), index, ok);
  }

  lemma EditEvolves(cfg: Config, st: State, op: Op)
    requires StoreOk(cfg, st) && (op.UpdateLevel? || op.AddLevel? || op.RemoveLevel?)
    ensures StoreOk(cfg, Step(cfg, st, op)) && StoreEvolves(st, Step(cfg, st, op))
  {
    if op.UpdateLevel? && UpdateAccepted(st, op.id, op.level, op.price, op.getOk) {
      PutEvolves(cfg, st, Repriced(st.store[op.id], op.level, op.price), Step(cfg, st, op).index, op.updateOk);
    } else if op.AddLevel? && Live(st, op.id, op.getOk) {
      PutEvolves(cfg, st, Extended(st.store[op.id], op.params'), Step(cfg, st, op).index, op.updateOk);
    } else if op.RemoveLevel? && RemoveAccepted(st, op.id, op.level, op.getOk) {
      var p := st.store[op.id];
      PutEvolves(cfg, st, p.(levels := p.levels[op.level := p.levels[op.level].(status := LevelCancelled)]),
                 Step(cfg, st, op).index, op.updateOk);
    }
  }

  /** All that a recorded execution does. */
  lemma RecordedState(cfg: Config, st: State, ev: Event, env: Env)
    requires StoreOk(cfg, st) && ev in st.inflight && OutcomeOf(cfg, st, ev, env) == Recorded
    ensures var p := AtSwap(cfg, st, ev, env);
      var p' := Fired(p, ev.level, ev.price);
      p.id == ev.pos && WellFormed(cfg, ev.pos, p') &&
      ExecuteStep(cfg, st, ev, env) ==
        State(st.store[ev.pos := p'], FiredIndex(st.index, p, ev.level, ev.price), st.inflight - multiset{ev},
              st.swaps + [SwapOf(cfg, p, ev.level)], Debit(GrantsAt(cfg, st, ev, env), p, ev.level))
  {
    var p := AtSwap(cfg, st, ev, env);
    assert WellFormed(cfg, ev.pos, st.store[ev.pos]) && WellFormed(cfg, ev.pos, p);
    FiredEvolves(cfg, p, ev.level, ev.price);
    RecordedPut(cfg, st, ev, env);
  }

  /** Past the permit, a step settles what its outcome says. */
  lemma StepSettles(cfg: Config, st: State, ev: Event, env: Env)
    requires ev in st.inflight && (OutcomeOf(cfg, st, ev, env) == Requeued || OutcomeOf(cfg, st, ev, env).Swaps())
    ensures var p, out := AtSwap(cfg, st, ev, env), OutcomeOf(cfg, st, ev, env);
      p.chain in cfg && ev.level < |p.levels| && (out.Swaps() ==> Covers(GrantsAt(cfg, st, ev, env), p, ev.level)) &&
      ExecuteStep(cfg, st, ev, env) == SettleStep(cfg, ActivateStep(cfg, st, ev, env), p, ev, out)
  {
    hide SettleStep;
  }

  lemma RecordedPut(cfg: Config, st: State, ev: Event, env: Env)
    requires ev in st.inflight && OutcomeOf(cfg, st, ev, env) == Recorded && st.store[ev.pos].id == ev.pos
    ensures var p := AtSwap(cfg, st, ev, env);
      ExecuteStep(cfg, st, ev, env) ==
        State(st.store[ev.pos := Fired(p, ev.level, ev.price)], FiredIndex(st.index, p, ev.level, ev.price),
              st.inflight - multiset{ev}, st.swaps + [SwapOf(cfg, p, ev.level)],
              Debit(GrantsAt(cfg, st, ev, env), p, ev.level))
  {
    StepSettles(cfg, st, ev, env);
    var p := AtSwap(cfg, st, ev, env);
    assert Fired(p, ev.level, ev.price).id == ev.pos;
    hide ExecuteStep, OutcomeOf, Fired, FiredIndex, SwapOf, Debit, GrantsAt, Activates;
  }

  /** What a swap does that is not stored: it is logged and debited, and at most the permit's activation is stored. */
  lemma UnstoredState(cfg: Config, st: State, ev: Event, env: Env)
    requires StoreOk(cfg, st) && ev in st.inflight
    requires OutcomeOf(cfg, st, ev, env).Swaps() && OutcomeOf(cfg, st, ev, env) != Recorded
    ensures var p, st' := AtSwap(cfg, st, ev, env), ExecuteStep(cfg, st, ev, env);
      (st'.store == st.store || st'.store == st.store[ev.pos := p]) &&
      st'.swaps == st.swaps + [SwapOf(cfg, p, ev.level)] && st'.grants == Debit(GrantsAt(cfg, st, ev, env), p, ev.level) &&
      match OutcomeOf(cfg, st, ev, env)
      case Unconfirmed =>
        st'.index == Register(st.index, p.Pair(), p.Up(ev.level), p.EntryOf(ev.level)) && st'.inflight == st.inflight - multiset{ev}
      case SwapPanicked => st'.index == map[] && st'.inflight == multiset{}
      case _ => st'.index == st.index && st'.inflight == st.inflight - multiset{ev}
  {
    StepSettles(cfg, st, ev, env);
    hide ExecuteStep, OutcomeOf, SwapOf, Debit, GrantsAt, Activates, Register;
  }

  /** What a failure before the swap does: at most an activation, and the trigger is registered again. */
  lemma RequeuedState(cfg: Config, st: State, ev: Event, env: Env)
    requires ev in st.inflight && OutcomeOf(cfg, st, ev, env) == Requeued && st.store[ev.pos].id == ev.pos
    ensures var p, st' := AtSwap(cfg, st, ev, env), ExecuteStep(cfg, st, ev, env);
      (st'.store == st.store || (Activates(cfg, st, ev, env) && st'.store == st.store[ev.pos := p])) &&
      st' == State(st'.store, Register(st.index, p.Pair(), p.Up(ev.level), p.EntryOf(ev.level)), st.inflight - multiset{ev},
                   st.swaps, GrantsAt(cfg, st, ev, env))
  {
    hide Register;
  }

  /** A dropped trigger, or the end of the process before the swap, changes neither store nor chain. */
  lemma QuietState(cfg: Config, st: State, ev: Event, env: Env)
    requires ev !in st.inflight || OutcomeOf(cfg, st, ev, env) in {Skipped, Panicked}
    ensures var st' := ExecuteStep(cfg, st, ev, env);
      st'.store == st.store && st'.swaps == st.swaps && st'.grants == st.grants
  {
  }

  /** An execution stores at most its own position. */
  lemma StoresItsOwn(cfg: Config, st: State, ev: Event, env: Env)
    requires StoreOk(cfg, st)
    ensures var st' := ExecuteStep(cfg, st, ev, env);
      st'.store == st.store || (ev.pos in st.store && ev.pos in st'.store && st'.store == st.store[ev.pos := st'.store[ev.pos]])
  {
    var out := OutcomeOf(cfg, st, ev, env);
    if ev !in st.inflight || out == Skipped || out == Panicked {
      QuietState(cfg, st, ev, env);
    } else {
      assert WellFormed(cfg, ev.pos, st.store[ev.pos]);
      if out == Requeued {
        RequeuedState(cfg, st, ev, env);
      } else if out == Recorded {
        RecordedState(cfg, st, ev, env);
      } else if out != Suspended {
        UnstoredState(cfg, st, ev, env);
      }
    }
  }

  lemma ActivatedEvolves(cfg: Config, p: Position)
    requires WellFormed(cfg, p.id, p) && !p.state.IsTerminal()
    ensures WellFormed(cfg, p.id, Activated(p)) && Evolves(p, Activated(p)) && Evolves(p, p)
  {
  }

  lemma ExecuteEvolves(cfg: Config, st: State, ev: Event, env: Env)
    requires StoreOk(cfg, st)
    ensures StoreOk(cfg, ExecuteStep(cfg, st, ev, env))
    ensures StoreEvolves(st, ExecuteStep(cfg, st, ev, env))
  {
    var out := OutcomeOf(cfg, st, ev, env);
    if ev !in st.inflight || out == Skipped || out == Panicked {
      QuietState(cfg, st, ev, env);
    } else {
      var p0 := st.store[ev.pos];
      assert WellFormed(cfg, ev.pos, p0) && !p0.state.IsTerminal();
      if out == Suspended {
        SuspendEvolves(cfg, st.(inflight := st.inflight - multiset{ev}), p0, env.updateOk);
      } else {
        StoresOne(cfg, st, ev, env);
      }
    }
  }

  lemma StoresOne(cfg: Config, st: State, ev: Event, env: Env)
    requires StoreOk(cfg, st) && ev in st.inflight
    requires OutcomeOf(cfg, st, ev, env) == Requeued || OutcomeOf(cfg, st, ev, env).Swaps()
    ensures var st' := ExecuteStep(cfg, st, ev, env);
      StoreOk(cfg, st') && StoreEvolves(st, st')
  {
    var p0, out := st.store[ev.pos], OutcomeOf(cfg, st, ev, env);
    assert WellFormed(cfg, ev.pos, p0) && !p0.state.IsTerminal() && ev.level < |p0.levels| && p0.levels[ev.level].status == LevelActive;
    if out == Requeued {
      RequeuedState(cfg, st, ev, env);
    } else if out == Recorded {
      RecordedState(cfg, st, ev, env);
    } else {
      UnstoredState(cfg, st, ev, env);
    }
    hide ExecuteStep, OutcomeOf, Fired, Activates, StoreOk, StoreEvolves, Evolves;
    var p := AtSwap(cfg, st, ev, env);
    ActivatedEvolves(cfg, p0);
    FiredEvolves(cfg, p, ev.level, ev.price);
    EvolvesTwice(p0, p, Fired(p, ev.level, ev.price));
    ReplacedEvolves(cfg, st, ExecuteStep(cfg, st, ev, env), if out == Recorded then Fired(p, ev.level, ev.price) else p);
  }

  lemma EvolvesTwice(a: Position, b: Position, c: Position)
    requires Evolves(a, b) && Evolves(b, c)
    ensures Evolves(a, c)
  {
  }

  lemma ReplacedEvolves(cfg: Config, st: State, st': State, q: Position)
    requires StoreOk(cfg, st) && q.id in st.store && Evolves(st.store[q.id], q) && WellFormed(cfg, q.id, q)
    requires st'.store == st.store || st'.store == st.store[q.id := q]
    ensures StoreOk(cfg, st') && StoreEvolves(st, st')
  {
  }

  /** Well-formedness holds in every state, and every step only evolves what is stored. */
  lemma StepEvolves(cfg: Config, st: State, op: Op)
    requires StoreOk(cfg, st)
    ensures StoreOk(cfg, Step(cfg, st, op)) && StoreEvolves(st, Step(cfg, st, op))
  {
    if op.Execute? {
      ExecuteEvolves(cfg, st, op.event, op.env);
    } else if op.UpdateLevel? || op.AddLevel? || op.RemoveLevel? {
      EditEvolves(cfg, st, op);
    } else if op.Cancel? {
      if Live(st, op.id, op.getOk) { CancelEvolves(cfg, st, op.id, op.getOk, op.updateOk); }
    } else if op.Renew? {
      if RenewAccepted(st, op.id, op.owner, op.getOk) {
        RenewEvolves(cfg, st, op.id, op.signed, op.nonce, op.deadline, op.amount, Step(cfg, st, op).index, op.updateOk);
      }
    } else if op.Expire? {
      if ExpiryDue(st, op.id, op.now) { SuspendEvolves(cfg, st, st.store[op.id], op.updateOk); }
    } else if op.Restart? {
      RestartKeepsRest(st, op.ids);
    }
  }

  lemma StepExecutes(cfg: Config, st: State, ev: Event, env: Env)
    ensures Step(cfg, st, Execute(ev, env)) == ExecuteStep(cfg, st, ev, env)
  {
    hide ExecuteStep;
  }

  lemma {:induction false} LoadingKeepsRest(st: State, ids: seq<PosId>)
    ensures LoadAll(st, ids) == st.(index := LoadAll(st, ids).index)
  {
    if ids != [] {
      LoadingKeepsRest(st, ids[..|ids| - 1]);
    }
  }

  lemma RestartKeepsRest(st: State, ids: seq<PosId>)
    ensures RestartStep(st, ids) == State(st.store, RestartStep(st, ids).index, multiset{}, st.swaps, st.grants)
  {
    LoadingKeepsRest(Crash(st), ids);
  }

  lemma {:induction false} RunKeepsStoreOk(cfg: Config, trace: seq<State>, ops: seq<Op>, ok: (State, Op) -> bool, n: nat)
    requires IsRun(cfg, trace, ops, ok) && n <= |ops| && StoreOk(cfg, trace[0])
    ensures StoreOk(cfg, trace[n])
  {
    if n > 0 {
      RunKeepsStoreOk(cfg, trace, ops, ok, n - 1);
      StepEvolves(cfg, trace[n - 1], ops[n - 1]);
    }
  }

  /** The swaps of a position, in order. */
  function SwapsOf(swaps: seq<Swap>, id: PosId): seq<Swap> {
    if swaps == [] then []
    else
      var r, last := SwapsOf(swaps[..|swaps| - 1], id), swaps[|swaps| - 1];
      if last.pos == id then r + [last] else r
  }

  lemma SwapsOfSnoc(swaps: seq<Swap>, s: Swap, id: PosId)
    ensures SwapsOf(swaps + [s], id) == if s.pos == id then SwapsOf(swaps, id) + [s] else SwapsOf(swaps, id)
  {
    assert (swaps + [s])[..|swaps + [s]| - 1] == swaps;
  }

  /** What one step appends to the log. */
  lemma StepSwaps(cfg: Config, st: State, op: Op)
    requires StoreOk(cfg, st)
    ensures var st' := Step(cfg, st, op);
      st'.swaps == st.swaps ||
      (op.Execute? && op.event in st.inflight && Live(st, op.event.pos, true) && op.event.level < |st.store[op.event.pos].levels| &&
       st.store[op.event.pos].levels[op.event.level].status == LevelActive && st.store[op.event.pos].chain in cfg &&
       OutcomeOf(cfg, st, op.event, op.env).Swaps() &&
       st'.swaps == st.swaps + [SwapOf(cfg, st.store[op.event.pos], op.event.level)])
  {
    if op.Execute? {
      ExecuteSwaps(cfg, st, op.event, op.env);
    } else if op.Restart? {
      RestartKeepsRest(st, op.ids);
    }
  }

  lemma ExecuteSwaps(cfg: Config, st: State, ev: Event, env: Env)
    requires StoreOk(cfg, st)
    ensures var st' := ExecuteStep(cfg, st, ev, env);
      st'.swaps == st.swaps ||
      (ev in st.inflight && OutcomeOf(cfg, st, ev, env).Swaps() && Eligible(cfg, st, ev, env) &&
       st'.swaps == st.swaps + [SwapOf(cfg, st.store[ev.pos], ev.level)])
  {
    var out := OutcomeOf(cfg, st, ev, env);
    if ev !in st.inflight || out == Skipped || out == Panicked {
      QuietState(cfg, st, ev, env);
    } else if out == Suspended {
    } else if out == Requeued {
      assert WellFormed(cfg, ev.pos, st.store[ev.pos]);
      RequeuedState(cfg, st, ev, env);
    } else if out == Recorded {
      RecordedState(cfg, st, ev, env);
    } else {
      UnstoredState(cfg, st, ev, env);
    }
  }


  /** A terminal position is frozen: whatever happens later, it is stored unchanged and never swapped again. */
  lemma {:induction false} TerminalIsFinal(cfg: Config, trace: seq<State>, ops: seq<Op>, ok: (State, Op) -> bool,
                                           m: nat, n: nat, id: PosId)
    requires IsRun(cfg, trace, ops, ok) && trace[0] == EMPTY && m <= n <= |ops|
    requires id in trace[m].store && trace[m].store[id].state.IsTerminal()
    ensures id in trace[n].store && trace[n].store[id] == trace[m].store[id]
    ensures SwapsOf(trace[n].swaps, id) == SwapsOf(trace[m].swaps, id)
  {
    hide Step;
    if m < n {
      TerminalIsFinal(cfg, trace, ops, ok, m, n - 1, id);
      RunKeepsStoreOk(cfg, trace, ops, ok, n - 1);
      StepLeavesTerminal(cfg, trace[n - 1], ops[n - 1], id);
    }
  }

  lemma StepLeavesTerminal(cfg: Config, st: State, op: Op, id: PosId)
    requires StoreOk(cfg, st) && id in st.store && st.store[id].state.IsTerminal()
    ensures id in Step(cfg, st, op).store && Step(cfg, st, op).store[id] == st.store[id]
    ensures SwapsOf(Step(cfg, st, op).swaps, id) == SwapsOf(st.swaps, id)
  {
    StepEvolves(cfg, st, op);
    StepSwaps(cfg, st, op);
    if Step(cfg, st, op).swaps != st.swaps {
      SwapsOfSnoc(st.swaps, SwapOf(cfg, st.store[op.event.pos], op.event.level), id);
    }
  }

  // ---- At most once ----

  /** A swap of a level that is done in the store. */
  predicate SwapDone(store: map<PosId, Position>, s: Swap) {
    s.pos in store && s.level < |store[s.pos].levels| && Done(store[s.pos].levels[s.level].status)
  }

  /** Every swap is of a level that is done, and no two swaps are of the same level. */
  ghost predicate Once(st: State) {
    && (forall s :: s in st.swaps ==> SwapDone(st.store, s))
    && (forall j, k :: 0 <= j < k < |st.swaps| ==>
          st.swaps[j].pos != st.swaps[k].pos || st.swaps[j].level != st.swaps[k].level)
  }

  /** The step does not swap without storing the result. */
  predicate Accounted(cfg: Config, st: State, op: Op) {
    op.Execute? && op.event in st.inflight && OutcomeOf(cfg, st, op.event, op.env).Swaps() ==>
      OutcomeOf(cfg, st, op.event, op.env) == Recorded
  }

  /** The log grows by at most one swap, of a level that was not done and now is. */
  ghost predicate LogGrows(st: State, st': State) {
    st'.swaps == st.swaps ||
    (st'.swaps != [] && st'.swaps[..|st'.swaps| - 1] == st.swaps &&
     SwapDone(st'.store, st'.swaps[|st'.swaps| - 1]) && !SwapDone(st.store, st'.swaps[|st'.swaps| - 1]))
  }

  lemma GrowthKeepsOnce(st: State, st': State)
    requires Once(st) && StoreEvolves(st, st') && LogGrows(st, st')
    ensures Once(st')
  {
    forall s | s in st.swaps
      ensures SwapDone(st'.store, s)
    {
      assert Evolves(st.store[s.pos], st'.store[s.pos]);
    }
    if st'.swaps != st.swaps {
      var n := |st.swaps|;
      assert st'.swaps == st.swaps + [st'.swaps[n]];
      assert forall j :: 0 <= j < n ==> st.swaps[j] in st.swaps;
    }
  }

  lemma StepLogGrows(cfg: Config, st: State, op: Op)
    requires StoreOk(cfg, st) && Accounted(cfg, st, op)
    ensures LogGrows(st, Step(cfg, st, op))
  {
    hide ExecuteStep, OutcomeOf, Fired, FiredIndex, StoreOk, Activates, Debit, GrantsAt, RestartStep, CutPriceStep, OpenStep,
         UpdateStep, AddStep, RemoveStep, CancelStep, RenewStep, ExpireStep, LoadStep, PriceStep;
    StepSwaps(cfg, st, op);
    if Step(cfg, st, op).swaps != st.swaps {
      RecordedState(cfg, st, op.event, op.env);
      FiredEvolves(cfg, AtSwap(cfg, st, op.event, op.env), op.event.level, op.event.price);
    }
  }

  lemma StepKeepsOnce(cfg: Config, st: State, op: Op)
    requires StoreOk(cfg, st) && Once(st) && Accounted(cfg, st, op)
    ensures Once(Step(cfg, st, op))
  {
    StepEvolves(cfg, st, op);
    StepLogGrows(cfg, st, op);
    GrowthKeepsOnce(st, Step(cfg, st, op));
  }

  lemma {:induction false} RunKeepsOnce(cfg: Config, trace: seq<State>, ops: seq<Op>, n: nat)
    requires IsRun(cfg, trace, ops, (s, op) => Accounted(cfg, s, op)) && n <= |ops|
    requires StoreOk(cfg, trace[0]) && Once(trace[0])
    ensures StoreOk(cfg, trace[n]) && Once(trace[n])
  {
    if n > 0 {
      RunKeepsOnce(cfg, trace, ops, n - 1);
      StepKeepsOnce(cfg, trace[n - 1], ops[n - 1]);
      StepEvolves(cfg, trace[n - 1], ops[n - 1]);
    }
  }

  /**
   From an empty store, in every state of every run of operations and failures in which each swap is
   stored, each level of each position has been swapped at most once.
   */
  lemma SwappedAtMostOnce(cfg: Config, trace: seq<State>, ops: seq<Op>, n: nat, j: nat, k: nat)
    requires IsRun(cfg, trace, ops, (s, op) => Accounted(cfg, s, op)) && trace[0] == EMPTY && n <= |ops|
    requires j < k < |trace[n].swaps|
    ensures trace[n].swaps[j].pos != trace[n].swaps[k].pos || trace[n].swaps[j].level != trace[n].swaps[k].level
  {
    RunKeepsOnce(cfg, trace, ops, n);
  }
}
