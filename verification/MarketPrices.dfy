/**
 Where a recorded execution price comes from: in every run it is a price that the market had for the position's
 pair, and once recorded it stays.
 */
module MarketPrices {
  import opened Types
  import opened TriggerIndex
  import opened Lifecycle
  import opened SwapOnce
  import opened Coverage
  import opened Identity
  import opened Firing
  import opened Opening
  import opened Edits
  import opened Revival

  /** The operation brings this price of this pair. */
  predicate Brings(op: Op, pair: TokenPair, price: int) {
    (op.Price? || op.CutPrice?) && op.pair == pair && op.price == price
  }

  /** It was a price of the pair before operation `n`. */
  ghost predicate Seen(ops: seq<Op>, n: nat, pair: TokenPair, price: int)
    requires n <= |ops|
  {
    exists k :: 0 <= k < n && Brings(ops[k], pair, price)
  }

  /** Every entry belongs to a stored position and is kept under its pair. */
  ghost predicate Placed(store: map<PosId, Position>, ix: Index) {
    forall q: TokenPair, up: bool, x: Entry :: Has(ix, q, up, x) ==> x.pos in store && q == store[x.pos].Pair()
  }

  ghost predicate EventsSeen(st: State, ops: seq<Op>, n: nat)
    requires n <= |ops|
  {
    forall ev :: ev in st.inflight ==> ev.pos in st.store && Seen(ops, n, st.store[ev.pos].Pair(), ev.price)
  }

  /** What is recorded of a level is a price its pair had, of a level that is done. */
  ghost predicate RecordsSeen(st: State, ops: seq<Op>, n: nat)
    requires n <= |ops|
  {
    forall id, i :: id in st.store && 0 <= i < |st.store[id].levels| && st.store[id].levels[i].execPrice.Some? ==>
      Done(st.store[id].levels[i].status) && Seen(ops, n, st.store[id].Pair(), st.store[id].levels[i].execPrice.value)
  }

  // ---- Entries ----

  lemma {:induction false} LoadingPlaced(cfg: Config, st: State, ids: seq<PosId>)
    requires StoreOk(cfg, st) && Placed(st.store, st.index)
    ensures LoadAll(st, ids).store == st.store && Placed(st.store, LoadAll(st, ids).index)
  {
    if ids != [] {
      var init, id := ids[..|ids| - 1], ids[|ids| - 1];
      LoadingPlaced(cfg, st, init);
      var mid := LoadAll(st, init);
      forall q: TokenPair, up: bool, x: Entry | Has(LoadStep(mid, id).index, q, up, x)
        ensures x.pos in st.store && q == st.store[x.pos].Pair()
      {
        LoadMeans(cfg, mid, id, q, up, x);
        OwnId(cfg, mid, id);
        hide Has, LoadStep;
      }
    }
  }

  lemma FiredPlaced(ix: Index, p: Position, i: nat, price: int, q: TokenPair, up: bool, x: Entry)
    requires i < |p.levels| && Has(FiredIndex(ix, p, i, price), q, up, x)
    ensures Has(ix, q, up, x) || (x.pos == p.id && q == p.Pair())
  {
    var sl, p' := MovedSL(p, i, price), Fired(p, i, price);
    var ix1 := Remove(ix, p.Pair(), OfLevels(p.id, TakenDown(p, i)));
    RemoveHas(ix, p.Pair(), OfLevels(p.id, TakenDown(p, i)), q, up, x);
    if sl.Some? {
      var e := p'.EntryOf(sl.value);
      RemoveHas(ix1, p.Pair(), OfLevels(p.id, {sl.value}), q, up, x);
      RegisterHas(Unregister(ix1, p.Pair(), p.id, sl.value), p.Pair(), p'.Up(sl.value), e, q, up, x);
    }
    hide Has, Remove, Register, MovedSL, TakenDown;
  }

  lemma ExecutionPlaced(cfg: Config, st: State, ev: Event, env: Env, q: TokenPair, up: bool, x: Entry)
    requires StoreOk(cfg, st) && ev in st.inflight && Has(ExecuteStep(cfg, st, ev, env).index, q, up, x)
    ensures Has(st.index, q, up, x) || (ev.pos in st.store && x.pos == ev.pos && q == st.store[ev.pos].Pair())
  {
    var out := OutcomeOf(cfg, st, ev, env);
    OwnId(cfg, st, ev.pos);
    if out == Recorded {
      RecordedState(cfg, st, ev, env);
      FiredPlaced(st.index, AtSwap(cfg, st, ev, env), ev.level, ev.price, q, up, x);
    } else if out == Requeued || out == Unconfirmed {
      RequeueMeans(cfg, st, ev, env, q, up, x);
    } else if out == Suspended {
      ExecutionSuspends(cfg, st, ev, env);
    } else if out.Swaps() {
      UnstoredState(cfg, st, ev, env);
    }
    hide Has, Fired, FiredIndex, Debit, GrantsAt, Covers, SwapOf, Activates;
  }

  lemma EditPlaced(cfg: Config, st: State, op: Op, q: TokenPair, up: bool, x: Entry)
    requires StoreOk(cfg, st) && (IsEdit(op) || IsSweep(op)) && Has(Step(cfg, st, op).index, q, up, x)
    ensures Has(st.index, q, up, x) || (op.id in st.store && x.pos == op.id && q == st.store[op.id].Pair())
  {
    hide Step, Has;
    OwnId(cfg, st, op.id);
    match op
    case UpdateLevel(id, level, price, getOk, ok) => UpdateMeans(cfg, st, id, level, price, getOk, ok);
    case AddLevel(id, lp, getOk, ok) => AddMeans(cfg, st, id, lp, getOk, ok);
    case RemoveLevel(id, level, getOk, ok) => RemoveMeans(cfg, st, id, level, getOk, ok);
    case Cancel(id, getOk, ok) => CancelMeans(cfg, st, id, getOk, ok);
    case Renew(_, _, _, _, _, _, _, _) => RenewMeans(cfg, st, op);
    case Expire(id, now, ok) => ExpireMeans(cfg, st, id, now, ok);
  }

  lemma PairsKept(cfg: Config, st: State, op: Op)
    requires StoreOk(cfg, st)
    ensures forall o :: o in st.store ==> o in Step(cfg, st, op).store && Step(cfg, st, op).store[o].Pair() == st.store[o].Pair()
  {
    forall o | o in st.store
      ensures o in Step(cfg, st, op).store && Step(cfg, st, op).store[o].Pair() == st.store[o].Pair()
    {
      StepKeepsIdentity(cfg, st, op, o);
      hide Step;
    }
  }

  lemma StepKeepsPlaced(cfg: Config, st: State, op: Op)
    requires StoreOk(cfg, st) && Placed(st.store, st.index)
    ensures Placed(Step(cfg, st, op).store, Step(cfg, st, op).index)
  {
    PairsKept(cfg, st, op);
    if op.Restart? {
      assert Placed(st.store, map[]);
      LoadingPlaced(cfg, Crash(st), op.ids);
      RestartIs(cfg, st, op.ids);
      hide Step, Has, LoadAll;
    } else if op.Price? || op.CutPrice? {
      PricesKeep(cfg, st, op);
      hide Step, Has;
    } else {
      forall q: TokenPair, up: bool, x: Entry | Has(Step(cfg, st, op).index, q, up, x)
        ensures x.pos in Step(cfg, st, op).store && q == Step(cfg, st, op).store[x.pos].Pair()
      {
        NewIsPlaced(cfg, st, op, q, up, x);
        hide Step, Has;
      }
      hide Step, Has;
    }
  }

  lemma RestartIs(cfg: Config, st: State, ids: seq<PosId>)
    ensures Step(cfg, st, Restart(ids)) == LoadAll(Crash(st), ids)
  {
    hide LoadAll;
  }

  /** A price adds nothing to the index, and to what is in flight only what it fires. */
  lemma PricesKeep(cfg: Config, st: State, op: Op)
    requires op.Price? || op.CutPrice?
    ensures var st' := Step(cfg, st, op);
      st'.store == st.store && st'.swaps == st.swaps &&
      (forall q: TokenPair, up: bool, x: Entry :: Has(st'.index, q, up, x) ==> Has(st.index, q, up, x)) &&
      (forall ev :: ev in st'.inflight ==> ev in st.inflight || Reported(st.index, op.pair, op.price, ev))
  {
    PriceMeans(st, op.pair, op.price);
    var events := OnPrice(st.index, op.pair, op.price).1;
    assert PriceStep(st, op.pair, op.price).inflight == st.inflight + multiset(events);
    hide OnPrice, Has, Reported;
  }

  lemma NewIsPlaced(cfg: Config, st: State, op: Op, q: TokenPair, up: bool, x: Entry)
    requires StoreOk(cfg, st) && Placed(st.store, st.index) && !op.Restart? && !op.Price? && !op.CutPrice?
    requires Has(Step(cfg, st, op).index, q, up, x)
    ensures x.pos in Step(cfg, st, op).store && q == Step(cfg, st, op).store[x.pos].Pair()
  {
    PairsKept(cfg, st, op);
    if op.Execute? {
      StepExecutes(cfg, st, op.event, op.env);
      hide Step, Has, ExecuteStep;
      if op.event in st.inflight {
        ExecutionPlaced(cfg, st, op.event, op.env, q, up, x);
      } else {
        assert ExecuteStep(cfg, st, op.event, op.env) == st by { NotInFlight(cfg, st, op.event, op.env); }
      }
    } else if op.Open? {
      OpenMeans(cfg, st, op.id, op.params, op.now, op.approveOk, op.saveOk);
      hide Step, Has;
    } else if op.Load? {
      LoadMeans(cfg, st, op.id, q, up, x);
      hide Step, Has;
      OwnId(cfg, st, op.id);
    } else {
      EditPlaced(cfg, st, op, q, up, x);
      hide Step, Has;
    }
  }

  lemma NotInFlight(cfg: Config, st: State, ev: Event, env: Env)
    requires ev !in st.inflight
    ensures ExecuteStep(cfg, st, ev, env) == st
  {
  }

  // ---- Events ----

  lemma SeenLater(ops: seq<Op>, m: nat, n: nat, pair: TokenPair, price: int)
    requires m <= n <= |ops| && Seen(ops, m, pair, price)
    ensures Seen(ops, n, pair, price)
  {
  }

  /** What comes into flight is what a price has just fired. */
  lemma InFlightAfter(cfg: Config, st: State, op: Op, ev: Event)
    requires ev in Step(cfg, st, op).inflight
    ensures ev in st.inflight || ((op.Price? || op.CutPrice?) && Reported(st.index, op.pair, op.price, ev))
  {
    if op.Price? || op.CutPrice? {
      PricesKeep(cfg, st, op);
      hide Step;
    } else if op.Execute? {
      StepExecutes(cfg, st, op.event, op.env);
      hide Step;
      ExecutionConsumes(cfg, st, op.event, op.env);
      hide ExecuteStep;
    } else if op.Restart? {
      RestartKeepsRest(st, op.ids);
      hide RestartStep;
    } else {
      hide RegisterAll, Register, Remove, UpdateTriggerPrice, SetStatus;
    }
  }

  lemma ExecutionConsumes(cfg: Config, st: State, ev: Event, env: Env)
    ensures ExecuteStep(cfg, st, ev, env).inflight <= st.inflight
  {
    if ev in st.inflight && OutcomeOf(cfg, st, ev, env) !in {Skipped, Panicked, Suspended} {
      SettleConsumes(cfg, ActivateStep(cfg, st, ev, env), AtSwap(cfg, st, ev, env), ev, OutcomeOf(cfg, st, ev, env));
    }
    hide SettleStep, OutcomeOf, GrantsAt, Activates;
  }

  lemma SettleConsumes(cfg: Config, st: State, p: Position, ev: Event, out: Outcome)
    requires p.chain in cfg && ev.level < |p.levels| && (out.Swaps() ==> Covers(st.grants, p, ev.level))
    ensures SettleStep(cfg, st, p, ev, out).inflight <= st.inflight
  {
    hide Register, FiredIndex, Fired, Debit, SwapOf, Covers;
  }

  lemma StepKeepsEvents(cfg: Config, st: State, ops: seq<Op>, n: nat)
    requires n < |ops| && StoreOk(cfg, st) && Placed(st.store, st.index) && EventsSeen(st, ops, n)
    ensures EventsSeen(Step(cfg, st, ops[n]), ops, n + 1)
  {
    var op := ops[n];
    PairsKept(cfg, st, op);
    forall ev | ev in Step(cfg, st, op).inflight
      ensures ev.pos in Step(cfg, st, op).store && Seen(ops, n + 1, Step(cfg, st, op).store[ev.pos].Pair(), ev.price)
    {
      InFlightAfter(cfg, st, op, ev);
      hide Step;
      if ev in st.inflight {
        SeenLater(ops, n, n + 1, st.store[ev.pos].Pair(), ev.price);
      } else {
        var up: bool, e: Entry :|
          e in At(st.index, op.pair).Of(up) && Reaches(up, e, op.price) && Reports(ev, e, op.price, op.pair.chain);
        assert Has(st.index, op.pair, up, e);
        assert Brings(ops[n], op.pair, op.price);
      }
    }
    hide Step;
  }

  // ---- Records ----

  ghost predicate Sourced(cfg: Config, st: State, ops: seq<Op>, n: nat)
    requires n <= |ops|
  {
    StoreOk(cfg, st) && Placed(st.store, st.index) && EventsSeen(st, ops, n) && RecordsSeen(st, ops, n)
  }

  /** One level's record before and after a step: kept, or the market price of the event that executed it. */
  lemma RecordAfter(cfg: Config, st: State, op: Op, id: PosId, i: nat)
    requires StoreOk(cfg, st) && id in Step(cfg, st, op).store && i < |Step(cfg, st, op).store[id].levels|
    ensures var l := Step(cfg, st, op).store[id].levels[i];
      if id in st.store && i < |st.store[id].levels| then
        l.execPrice == st.store[id].levels[i].execPrice ||
        (op.Execute? && op.event in st.inflight && op.event.pos == id && op.event.level == i && l.execPrice == Some(op.event.price) &&
         st.store[id].levels[i].status == LevelActive && l.status == LevelTriggered)
      else l.execPrice == None
  {
    if id in st.store && i < |st.store[id].levels| {
      if op.Execute? {
        StepExecutes(cfg, st, op.event, op.env);
        hide Step;
        ExecutionRecords(cfg, st, op.event, op.env, id, i);
      } else {
        OthersKeepRecords(cfg, st, op, id);
        hide Step;
      }
    } else {
      NewRecords(cfg, st, op, id, i);
    }
  }

  lemma NewRecords(cfg: Config, st: State, op: Op, id: PosId, i: nat)
    requires StoreOk(cfg, st) && id in Step(cfg, st, op).store && i < |Step(cfg, st, op).store[id].levels|
    requires id !in st.store || i >= |st.store[id].levels|
    ensures Step(cfg, st, op).store[id].levels[i].execPrice == None
  {
    if id !in st.store {
      OnlyOpening(cfg, st, op, id);
      hide Step;
    } else if op.AddLevel? {
      AddMeans(cfg, st, op.id, op.params', op.getOk, op.updateOk);
      hide Step;
    } else {
      SameLevels(cfg, st, op, id);
      hide Step;
    }
  }

  /** Only AddLevel adds levels. */
  lemma SameLevels(cfg: Config, st: State, op: Op, id: PosId)
    requires StoreOk(cfg, st) && id in st.store && !op.AddLevel?
    ensures id in Step(cfg, st, op).store && |Step(cfg, st, op).store[id].levels| == |st.store[id].levels|
  {
    if op.Execute? {
      StepExecutes(cfg, st, op.event, op.env);
      hide Step;
      ExecutionStores(cfg, st, op.event, op.env, id);
    } else if op.Restart? {
      RestartKeepsRest(st, op.ids);
      hide RestartStep;
    } else {
      OwnIds(cfg, st, op);
      hide RegisterAll, Register, Remove, UpdateTriggerPrice, OnPrice, ExecuteStep, RestartStep, StoreOk;
    }
  }

  lemma OwnIds(cfg: Config, st: State, op: Op)
    requires StoreOk(cfg, st)
    ensures (IsEdit(op) || IsSweep(op)) && op.id in st.store ==> st.store[op.id].id == op.id
  {
    if IsEdit(op) || IsSweep(op) { OwnId(cfg, st, op.id); }
  }

  /** What an execution does to the levels of a stored position. */
  lemma ExecutionStores(cfg: Config, st: State, ev: Event, env: Env, id: PosId)
    requires StoreOk(cfg, st) && id in st.store
    ensures var st', recorded := ExecuteStep(cfg, st, ev, env), ev in st.inflight && OutcomeOf(cfg, st, ev, env) == Recorded && ev.pos == id;
      id in st'.store && |st'.store[id].levels| == |st.store[id].levels| &&
      (!recorded ==> SameRecords(st.store[id], st'.store[id]))
  {
    StoresItsOwn(cfg, st, ev, env);
    if ev in st.inflight && OutcomeOf(cfg, st, ev, env) == Recorded {
      RecordedMeans(cfg, st, ev, env);
      hide LevelAfter, StillOpen, SameRecords, AtSwap;
    } else {
      UnrecordedStores(cfg, st, ev, env, id);
    }
    hide ExecuteStep, OutcomeOf, StoreOk, Has, AtSwap;
  }

  lemma UnrecordedStores(cfg: Config, st: State, ev: Event, env: Env, id: PosId)
    requires StoreOk(cfg, st) && id in st.store && (ev in st.inflight ==> OutcomeOf(cfg, st, ev, env) != Recorded)
    ensures var st' := ExecuteStep(cfg, st, ev, env);
      id in st'.store && |st'.store[id].levels| == |st.store[id].levels| && SameRecords(st.store[id], st'.store[id])
  {
    var out := OutcomeOf(cfg, st, ev, env);
    OwnId(cfg, st, ev.pos);
    if ev !in st.inflight || out == Skipped || out == Panicked {
      QuietState(cfg, st, ev, env);
    } else if out == Suspended {
      ExecutionSuspends(cfg, st, ev, env);
    } else {
      LevelsStay(cfg, st, ev, env, id);
    }
    hide ExecuteStep, OutcomeOf, StoreOk, StillOpen, Has;
  }

  /** Put back, or swapped and not recorded. */
  lemma LevelsStay(cfg: Config, st: State, ev: Event, env: Env, id: PosId)
    requires StoreOk(cfg, st) && id in st.store && ev in st.inflight && OutcomeOf(cfg, st, ev, env) !in {Skipped, Panicked, Suspended, Recorded}
    ensures var st' := ExecuteStep(cfg, st, ev, env);
      id in st'.store && st'.store[id].levels == st.store[id].levels
  {
    assert AtSwap(cfg, st, ev, env).levels == st.store[ev.pos].levels by {
      hide ExecuteStep, OutcomeOf, StoreOk, Activates;
    }
    if OutcomeOf(cfg, st, ev, env) == Requeued {
      RequeuedState(cfg, st, ev, env);
    } else {
      UnstoredState(cfg, st, ev, env);
    }
    hide AtSwap, ExecuteStep, OutcomeOf, StoreOk, Activates, Debit, GrantsAt, Covers, SwapOf, Register;
  }

  lemma ExecutionRecords(cfg: Config, st: State, ev: Event, env: Env, id: PosId, i: nat)
    requires StoreOk(cfg, st) && id in st.store && i < |st.store[id].levels|
    ensures var st' := ExecuteStep(cfg, st, ev, env);
      id in st'.store && i < |st'.store[id].levels| &&
      (st'.store[id].levels[i].execPrice == st.store[id].levels[i].execPrice ||
       (ev in st.inflight && ev.pos == id && ev.level == i && st'.store[id].levels[i].execPrice == Some(ev.price) &&
        st.store[id].levels[i].status == LevelActive && st'.store[id].levels[i].status == LevelTriggered))
  {
    ExecutionStores(cfg, st, ev, env, id);
    if ev in st.inflight && OutcomeOf(cfg, st, ev, env) == Recorded && ev.pos == id {
      RecordedMeans(cfg, st, ev, env);
      var p := AtSwap(cfg, st, ev, env);
      assert LevelAfter(p, ev.level, ev.price, i, ExecuteStep(cfg, st, ev, env).store[id].levels[i]);
      assert st.store[id].levels[ev.level].status == LevelActive;
    }
    hide ExecuteStep, StoreOk, Activates, StillOpen;
  }

  lemma StepKeepsRecords(cfg: Config, st: State, ops: seq<Op>, n: nat)
    requires n < |ops| && Sourced(cfg, st, ops, n)
    ensures RecordsSeen(Step(cfg, st, ops[n]), ops, n + 1)
  {
    var op := ops[n];
    var st' := Step(cfg, st, op);
    PairsKept(cfg, st, op);
    StepEvolves(cfg, st, op);
    forall id, i | id in st'.store && 0 <= i < |st'.store[id].levels| && st'.store[id].levels[i].execPrice.Some?
      ensures Done(st'.store[id].levels[i].status) && Seen(ops, n + 1, st'.store[id].Pair(), st'.store[id].levels[i].execPrice.value)
    {
      RecordAfter(cfg, st, op, id, i);
      hide Step;
      assert Evolves(st.store[id], st'.store[id]);
      if st'.store[id].levels[i].execPrice == st.store[id].levels[i].execPrice {
        SeenLater(ops, n, n + 1, st.store[id].Pair(), st.store[id].levels[i].execPrice.value);
      } else {
        SeenLater(ops, n, n + 1, st.store[id].Pair(), op.event.price);
      }
    }
    hide Step;
  }

  // ---- Over every run ----

  lemma {:induction false} RunIsSourced(cfg: Config, trace: seq<State>, ops: seq<Op>, ok: (State, Op) -> bool, n: nat)
    requires IsRun(cfg, trace, ops, ok) && trace[0] == EMPTY && n <= |ops|
    ensures Sourced(cfg, trace[n], ops, n)
  {
    hide Step;
    EmptyStoreOk(cfg);
    if n > 0 {
      RunIsSourced(cfg, trace, ops, ok, n - 1);
      StepEvolves(cfg, trace[n - 1], ops[n - 1]);
      StepKeepsPlaced(cfg, trace[n - 1], ops[n - 1]);
      StepKeepsEvents(cfg, trace[n - 1], ops, n - 1);
      StepKeepsRecords(cfg, trace[n - 1], ops, n - 1);
    }
    hide StoreOk, Placed, EventsSeen, RecordsSeen, Has;
  }

  /** A recorded execution price is a price that the market had for the position's pair, earlier in the run. */
  lemma RecordedAtMarket(cfg: Config, trace: seq<State>, ops: seq<Op>, ok: (State, Op) -> bool, n: nat, id: PosId, i: nat) returns (k: nat)
    requires IsRun(cfg, trace, ops, ok) && trace[0] == EMPTY && n <= |ops| && id in trace[n].store
    requires i < |trace[n].store[id].levels| && trace[n].store[id].levels[i].execPrice.Some?
    ensures k < n && (ops[k].Price? || ops[k].CutPrice?)
    ensures ops[k].pair == trace[n].store[id].Pair() && ops[k].price == trace[n].store[id].levels[i].execPrice.value
  {
    hide Step;
    RunIsSourced(cfg, trace, ops, ok, n);
    assert Seen(ops, n, trace[n].store[id].Pair(), trace[n].store[id].levels[i].execPrice.value);
    k :| 0 <= k < n && Brings(ops[k], trace[n].store[id].Pair(), trace[n].store[id].levels[i].execPrice.value);
  }

  /** And it stays. */
  lemma {:induction false} RecordIsFinal(cfg: Config, trace: seq<State>, ops: seq<Op>, ok: (State, Op) -> bool, m: nat, n: nat, id: PosId, i: nat)
    requires IsRun(cfg, trace, ops, ok) && trace[0] == EMPTY && m <= n <= |ops| && id in trace[m].store
    requires i < |trace[m].store[id].levels| && trace[m].store[id].levels[i].execPrice.Some?
    ensures id in trace[n].store && i < |trace[n].store[id].levels|
    ensures trace[n].store[id].levels[i].execPrice == trace[m].store[id].levels[i].execPrice
  {
    hide Step;
    if m < n {
      RecordIsFinal(cfg, trace, ops, ok, m, n - 1, id, i);
      RunIsSourced(cfg, trace, ops, ok, n - 1);
      StepKeepsIdentity(cfg, trace[n - 1], ops[n - 1], id);
      RecordAfter(cfg, trace[n - 1], ops[n - 1], id, i);
    }
    hide StoreOk, Placed, EventsSeen;
  }
}
