/**
 No lost trigger: exactly which steps keep every active level covered, hence over every run of such steps,
 restarts included.
 */
module NoLostTrigger {
  import opened Types
  import opened TriggerIndex
  import opened Lifecycle
  import opened SwapOnce
  import opened Coverage
  import opened Upkeep
  import opened FailedWrites

  // ---- Which steps keep the watch ----

  /** Another event in flight, or an entry, is left for the level when this event is gone. */
  ghost predicate Elsewhere(st: State, ev: Event)
    requires ev.pos in st.store && ev.level < |st.store[ev.pos].levels|
  {
    Tracked(st.store[ev.pos], st.index, st.inflight - multiset{ev}, ev.level)
  }

  /** The guards of an execution, in the order of the code, with what each asks for. */
  ghost predicate SafeExecution(cfg: Config, st: State, ev: Event, env: Env) {
    Live(st, ev.pos, true) && ev.level < |st.store[ev.pos].levels| && st.store[ev.pos].levels[ev.level].status == LevelActive ==>
      var p := st.store[ev.pos];
      if !env.getOk || !env.feeOk then Elsewhere(st, ev)
      else if !env.breakerOk then true
      else if PermitExpired(p.permit, env.now) then env.updateOk || AllInFlight(st.inflight - multiset{ev}, p)
      else if NilField(p.permit) then false
      else if p.permit.signed && !p.permit.activated && !Activates(cfg, st, ev, env) then true
      else if env.swap == Failed || !Covers(GrantsAt(cfg, st, ev, env), p, ev.level) then true
      else if env.swap == Unseen then true
      else if HasNegativeIndex(p.levels[ev.level]) then false
      else env.persistOk || Elsewhere(st, ev)
  }

  /**
   What each operation needs for every active level to stay covered: that its store write succeeds, or that
   it changes nothing in the index that matters. A restart needs to load the live positions.
   */
  ghost predicate Safe(cfg: Config, st: State, op: Op) {
    match op
    case UpdateLevel(id, level, price, getOk, updateOk) =>
      UpdateAccepted(st, id, level, price, getOk) ==> updateOk || price == st.store[id].levels[level].triggerPrice
    case AddLevel(id, _, getOk, updateOk) => Live(st, id, getOk) ==> updateOk
    case RemoveLevel(id, level, getOk, updateOk) =>
      RemoveAccepted(st, id, level, getOk) ==>
        updateOk || st.store[id].levels[level].status != LevelActive || InFlight(st.inflight, id, level)
    case Cancel(id, getOk, updateOk) => Live(st, id, getOk) ==> updateOk || AllInFlight(st.inflight, st.store[id])
    case Renew(id, owner, _, _, _, _, getOk, updateOk) =>
      RenewAccepted(st, id, owner, getOk) ==> updateOk || NoneIs(st.store[id].levels, LevelSuspended)
    case Expire(id, now, updateOk) => ExpiryDue(st, id, now) ==> updateOk || AllInFlight(st.inflight, st.store[id])
    case Restart(ids) => Lists(st, ids)
    case CutPrice(pair, price, sent) => SafeCut(st, pair, price, sent)
    case Execute(ev, env) => ev in st.inflight ==> SafeExecution(cfg, st, ev, env)
    case _ => true
  }

  /** Every active level whose event is dropped has another one in flight. */
  ghost predicate SafeCut(st: State, pair: TokenPair, price: int, sent: nat) {
    var events, fl := OnPrice(st.index, pair, price).1, CutPriceStep(st, pair, price, sent).inflight;
    forall k :: sent <= k < |events| ==> Spared(st, fl, events[k])
  }

  ghost predicate Spared(st: State, fl: multiset<Event>, ev: Event) {
    Live(st, ev.pos, true) && ev.level < |st.store[ev.pos].levels| && st.store[ev.pos].levels[ev.level].status == LevelActive ==>
      InFlight(fl, ev.pos, ev.level)
  }

  /** Every live position with an active level is listed. */
  ghost predicate Lists(st: State, ids: seq<PosId>) {
    forall id :: Live(st, id, true) && !NoneIs(st.store[id].levels, LevelActive) ==> id in ids
  }

  // ---- Prices ----

  lemma CutPriceKeepsExactly(cfg: Config, st: State, pair: TokenPair, price: int, sent: nat)
    requires Watched(cfg, st)
    ensures Watched(cfg, CutPriceStep(st, pair, price, sent)) <==> SafeCut(st, pair, price, sent)
  {
    if SafeCut(st, pair, price, sent) {
      CutKeeps(cfg, st, pair, price, sent);
    } else {
      var events, fl := OnPrice(st.index, pair, price).1, CutPriceStep(st, pair, price, sent).inflight;
      var k :| sent <= k < |events| && !Spared(st, fl, events[k]);
      CutLoses(cfg, st, pair, price, sent, events[k]);
    }
  }

  lemma CutKeeps(cfg: Config, st: State, pair: TokenPair, price: int, sent: nat)
    requires Watched(cfg, st) && SafeCut(st, pair, price, sent)
    ensures Watched(cfg, CutPriceStep(st, pair, price, sent))
  {
    var st' := CutPriceStep(st, pair, price, sent);
    assert st'.index == OnPrice(st.index, pair, price).0 && st'.store == st.store;
    hide CutPriceStep, OnPrice, Has, SafeCut;
    forall q: TokenPair, u: bool, x: Entry | Has(st'.index, q, u, x)
      ensures Has(st.index, q, u, x)
    {
      OnPriceHas(st.index, pair, price, q, u, x);
    }
    forall id | id in st.store
      ensures Covered(st.store[id], st'.index, st'.inflight)
    {
      assert WellFormed(cfg, id, st.store[id]);
      CutCovers(st, id, pair, price, sent);
    }
  }

  lemma CutCovers(st: State, id: PosId, pair: TokenPair, price: int, sent: nat)
    requires id in st.store && st.store[id].id == id && Covered(st.store[id], st.index, st.inflight) && SafeCut(st, pair, price, sent)
    ensures var st' := CutPriceStep(st, pair, price, sent);
      Covered(st.store[id], st'.index, st'.inflight)
  {
    forall i | 0 <= i < |st.store[id].levels| && !st.store[id].state.IsTerminal() && st.store[id].levels[i].status == LevelActive
      ensures Tracked(st.store[id], CutPriceStep(st, pair, price, sent).index, CutPriceStep(st, pair, price, sent).inflight, i)
    {
      CutTracks(st, id, pair, price, sent, i);
    }
  }

  lemma CutTracks(st: State, id: PosId, pair: TokenPair, price: int, sent: nat, i: nat)
    requires Live(st, id, true) && st.store[id].id == id && i < |st.store[id].levels| && st.store[id].levels[i].status == LevelActive
    requires Tracked(st.store[id], st.index, st.inflight, i) && SafeCut(st, pair, price, sent)
    ensures var st' := CutPriceStep(st, pair, price, sent);
      Tracked(st.store[id], st'.index, st'.inflight, i)
  {
    hide OnPrice, Has, Crossed;
    var p, st' := st.store[id], CutPriceStep(st, pair, price, sent);
    var x, events := p.EntryOf(i), OnPrice(st.index, pair, price).1;
    OnPriceHas(st.index, pair, price, p.Pair(), p.Up(i), x);
    if !Has(st.index, p.Pair(), p.Up(i), x) {
      var ev :| ev in st.inflight && ev.pos == id && ev.level == i;
      assert ev in st'.inflight;
    } else if !Has(st'.index, p.Pair(), p.Up(i), x) {
      CrossedFires(st.index, pair, price, p.Up(i), x);
      var k :| 0 <= k < |events| && events[k] == EventOf(x, price, pair.chain);
      if k < sent <= |events| {
        assert events[..sent][k] == events[k];
      } else if sent <= k {
        assert Spared(st, st'.inflight, events[k]);
      }
    }
  }

  /** A dropped event's entry is gone from the index, so nothing but another event is left for its level. */
  lemma CutLoses(cfg: Config, st: State, pair: TokenPair, price: int, sent: nat, ev: Event)
    requires Watched(cfg, st) && ev in OnPrice(st.index, pair, price).1
    requires !Spared(st, CutPriceStep(st, pair, price, sent).inflight, ev)
    ensures !Watched(cfg, CutPriceStep(st, pair, price, sent))
  {
    var p, st' := st.store[ev.pos], CutPriceStep(st, pair, price, sent);
    assert WellFormed(cfg, ev.pos, p);
    var u, x := FiredFrom(st.index, pair, price, ev);
    assert EntryFor(p, pair, u, x);
    assert x == p.EntryOf(ev.level) && u == p.Up(ev.level) && pair == p.Pair();
    OnPriceHas(st.index, pair, price, pair, u, x);
    assert !Tracked(p, st'.index, st'.inflight, ev.level);
  }

  // ---- Executions ----

  /** Dropping an event loses its level exactly when the level is active and nothing else tracks it. */
  lemma DroppedExactly(cfg: Config, st: State, ev: Event, st': State)
    requires Watched(cfg, st) && ev.pos in st.store
    requires st'.store == st.store || (st'.store == st.store[ev.pos := Activated(st.store[ev.pos])] && Live(st, ev.pos, true))
    requires st'.index == st.index && st'.inflight == st.inflight - multiset{ev}
    ensures Watched(cfg, st') <==>
      (Live(st, ev.pos, true) && ev.level < |st.store[ev.pos].levels| && st.store[ev.pos].levels[ev.level].status == LevelActive ==>
         Elsewhere(st, ev))
  {
    var p, fl := st.store[ev.pos], st'.inflight;
    var p' := st'.store[ev.pos];
    assert WellFormed(cfg, ev.pos, p);
    Consume(p, ev, st.index, st.inflight);
    ActivatedSame(p, {}, st.index, fl);
    ActivatedSame(p, {ev.level}, st.index, fl);
    assert Covered(p', st.index, fl) <==> Covered(p, st.index, fl);
    if Covered(p, st.index, fl) {
      assert st'.store == st.store[p'.id := p'];
      OnePosition(cfg, st, st', p');
    }
  }

  /** An event of a position that is not stored is nobody's. */
  lemma StrayDropped(cfg: Config, st: State, ev: Event)
    requires Watched(cfg, st) && ev.pos !in st.store
    ensures Watched(cfg, st.(inflight := st.inflight - multiset{ev}))
  {
    forall id | id in st.store
      ensures Covered(st.store[id], st.index, st.inflight - multiset{ev})
    {
      Consume(st.store[id], ev, st.index, st.inflight);
    }
  }

  /** The end of the process leaves an active level uncovered. */
  lemma CrashLoses(cfg: Config, st: State, id: PosId, i: nat)
    requires id in st.store && !st.store[id].state.IsTerminal()
    requires i < |st.store[id].levels| && st.store[id].levels[i].status == LevelActive
    requires st.index == map[] && st.inflight == multiset{}
    ensures !Watched(cfg, st)
  {
    assert !Tracked(st.store[id], st.index, st.inflight, i);
  }

  /** The outcomes in terms of the guards. */
  lemma OutcomeGuards(cfg: Config, st: State, ev: Event, env: Env)
    requires StoreOk(cfg, st) && Live(st, ev.pos, true) && ev.level < |st.store[ev.pos].levels|
    requires st.store[ev.pos].levels[ev.level].status == LevelActive
    ensures var p, out := st.store[ev.pos], OutcomeOf(cfg, st, ev, env);
      (SafeExecution(cfg, st, ev, env) <==>
        match out
        case Skipped => Elsewhere(st, ev)
        case Suspended => env.updateOk || AllInFlight(st.inflight - multiset{ev}, p)
        case Panicked => false
        case SwapPanicked => false
        case Unrecorded => Elsewhere(st, ev)
        case _ => true)
  {
    assert WellFormed(cfg, ev.pos, st.store[ev.pos]);
  }

  lemma SwapKeepsExactly(cfg: Config, st: State, ev: Event, env: Env)
    requires Watched(cfg, st) && ev in st.inflight && OutcomeOf(cfg, st, ev, env).Swaps()
    ensures Watched(cfg, ExecuteStep(cfg, st, ev, env)) <==>
      match OutcomeOf(cfg, st, ev, env)
      case SwapPanicked => false
      case Unrecorded => Elsewhere(st, ev)
      case _ => true
  {
    var p, st', out := AtSwap(cfg, st, ev, env), ExecuteStep(cfg, st, ev, env), OutcomeOf(cfg, st, ev, env);
    assert WellFormed(cfg, ev.pos, st.store[ev.pos]);
    if out == Recorded {
      RecordKeeps(cfg, st, ev, env);
    } else {
      UnstoredState(cfg, st, ev, env);
      assert st'.store == st.store[ev.pos := st'.store[ev.pos]];
      if out == SwapPanicked {
        CrashLoses(cfg, st', ev.pos, ev.level);
      } else if out == Unrecorded {
        DroppedExactly(cfg, st, ev, st');
      } else {
        RequeuedCovers(cfg, st, st'.store[ev.pos], ev, st');
      }
    }
  }

  lemma ExecuteKeepsExactly(cfg: Config, st: State, ev: Event, env: Env)
    requires Watched(cfg, st) && ev in st.inflight
    ensures Watched(cfg, ExecuteStep(cfg, st, ev, env)) <==> SafeExecution(cfg, st, ev, env)
  {
    var out, s, st' := OutcomeOf(cfg, st, ev, env), st.(inflight := st.inflight - multiset{ev}), ExecuteStep(cfg, st, ev, env);
    if ev.pos !in st.store {
      StrayDropped(cfg, st, ev);
    } else if !(Live(st, ev.pos, true) && ev.level < |st.store[ev.pos].levels| && st.store[ev.pos].levels[ev.level].status == LevelActive) {
      DroppedExactly(cfg, st, ev, s);
    } else {
      OutcomeGuards(cfg, st, ev, env);
      if out.Swaps() {
        SwapKeepsExactly(cfg, st, ev, env);
      } else {
        NoSwapKeepsExactly(cfg, st, ev, env);
      }
    }
  }

  lemma NoSwapKeepsExactly(cfg: Config, st: State, ev: Event, env: Env)
    requires Watched(cfg, st) && ev in st.inflight && !OutcomeOf(cfg, st, ev, env).Swaps()
    requires Live(st, ev.pos, true) && ev.level < |st.store[ev.pos].levels|
    requires st.store[ev.pos].levels[ev.level].status == LevelActive
    ensures Watched(cfg, ExecuteStep(cfg, st, ev, env)) <==>
      match OutcomeOf(cfg, st, ev, env)
      case Skipped => Elsewhere(st, ev)
      case Suspended => env.updateOk || AllInFlight(st.inflight - multiset{ev}, st.store[ev.pos])
      case Panicked => false
      case _ => true
  {
    var out, fl, st' := OutcomeOf(cfg, st, ev, env), st.inflight - multiset{ev}, ExecuteStep(cfg, st, ev, env);
    var p0 := st.store[ev.pos];
    assert WellFormed(cfg, ev.pos, p0);
    hide Agrees, Covered, Register, Has, SetStatus, StoreOk, NoStrays;
    match out
    case Skipped =>
      DroppedExactly(cfg, st, ev, st');
    case Suspended =>
      if env.updateOk { SuspendKeeps(cfg, st, p0, fl); } else { FailedSuspend(cfg, st, p0, fl); }
    case Panicked =>
      CrashLoses(cfg, st', ev.pos, ev.level);
    case Requeued =>
      RequeuedState(cfg, st, ev, env);
      assert st'.store == st.store[ev.pos := st'.store[ev.pos]];
      RequeuedCovers(cfg, st, st'.store[ev.pos], ev, st');
  }

  // ---- Restart ----

  /** All that is stored is watched, except live positions not yet loaded. */
  ghost predicate Loading(cfg: Config, st: State, ids: seq<PosId>) {
    && StoreOk(cfg, st) && NoStrays(st)
    && forall id :: id in st.store ==>
         Agrees(st.store[id], st.index) && (id in ids ==> Covered(st.store[id], st.index, st.inflight))
  }

  lemma LoadOne(cfg: Config, st: State, ids: seq<PosId>, id: PosId)
    requires Loading(cfg, st, ids)
    ensures Loading(cfg, LoadStep(st, id), ids + [id])
  {
    if Live(st, id, true) {
      var p := st.store[id];
      var those := p.Those(LevelActive);
      var st' := LoadStep(st, id);
      EnlistAll(p, st.index, st.inflight);
      forall q: TokenPair, u: bool, x: Entry | Has(st'.index, q, u, x)
        ensures x.pos in st'.store
      {
        RegisterAllHas(st.index, p, those, |p.levels|, q, u, x);
      }
      forall o | o in st.store && o != id
        ensures Agrees(st.store[o], st'.index) && (o in ids ==> Covered(st.store[o], st'.index, st.inflight))
      {
        if o in ids {
          OtherPosition(st.store[o], id, st.index, st'.index, st.inflight, st.inflight);
        } else {
          forall q: TokenPair, u: bool, x: Entry | Has(st'.index, q, u, x) && x.pos == o
            ensures EntryFor(st.store[o], q, u, x)
          {
            assert Has(st.index, q, u, x);
          }
        }
      }
    } else {
      assert id in st.store ==> st.store[id].state.IsTerminal();
    }
  }

  lemma EnlistAll(p: Position, ix: Index, fl: multiset<Event>)
    requires Agrees(p, ix)
    ensures var ix' := RegisterAll(ix, p, p.Those(LevelActive), |p.levels|);
      OthersKept(ix, ix', p.id) && Agrees(p, ix') && Covered(p, ix', fl)
  {
    var n, those := |p.levels|, p.Those(LevelActive);
    var ix' := RegisterAll(ix, p, those, n);
    forall q: TokenPair, u: bool, x: Entry
      ensures x.pos != p.id ==> (Has(ix', q, u, x) <==> Has(ix, q, u, x))
      ensures Has(ix', q, u, x) && x.pos == p.id ==> EntryFor(p, q, u, x)
    {
      RegisterAllHas(ix, p, those, n, q, u, x);
    }
    forall i | 0 <= i < n && p.levels[i].status == LevelActive
      ensures Tracked(p, ix', fl, i)
    {
      RegisterAllHas(ix, p, those, n, p.Pair(), p.Up(i), p.EntryOf(i));
    }
  }

  lemma {:induction false} LoadingAll(cfg: Config, st: State, ids: seq<PosId>)
    requires Loading(cfg, st, [])
    ensures Loading(cfg, LoadAll(st, ids), ids) && LoadAll(st, ids).store == st.store
  {
    if ids == [] {
    } else {
      var init := ids[..|ids| - 1];
      LoadingAll(cfg, st, init);
      LoadOne(cfg, LoadAll(st, init), init, ids[|ids| - 1]);
      assert ids == init + [ids[|ids| - 1]];
    }
  }

  /** What is not loaded has no entries. */
  lemma {:induction false} NotLoaded(st: State, ids: seq<PosId>, id: PosId, q: TokenPair, u: bool, x: Entry)
    requires st.index == map[] && id !in ids && x.pos == id && forall o :: o in st.store ==> st.store[o].id == o
    ensures !Has(LoadAll(st, ids).index, q, u, x)
  {
    if ids == [] {
    } else {
      var n := |ids| - 1;
      NotLoaded(st, ids[..n], id, q, u, x);
      LoadingKeepsRest(st, ids[..n]);
      var s := LoadAll(st, ids[..n]);
      if Live(s, ids[n], true) {
        RegisterAllHas(s.index, s.store[ids[n]], s.store[ids[n]].Those(LevelActive), |s.store[ids[n]].levels|, q, u, x);
      }
    }
  }

  /**
   A restart covers every active level, whatever the process before it had lost, exactly when it loads every
   live position that has one.
   */
  lemma RestartCoversExactlyWhen(cfg: Config, st: State, ids: seq<PosId>)
    requires StoreOk(cfg, st)
    ensures Watched(cfg, RestartStep(st, ids)) <==> Lists(st, ids)
  {
    var s, st' := Crash(st), RestartStep(st, ids);
    LoadingAll(cfg, s, ids);
    LoadingKeepsRest(s, ids);
    if Lists(st, ids) {
      assert forall id :: id in st.store && id !in ids ==> Covered(st.store[id], st'.index, st'.inflight);
    } else {
      var id :| Live(st, id, true) && !NoneIs(st.store[id].levels, LevelActive) && id !in ids;
      var p := st.store[id];
      assert WellFormed(cfg, id, p);
      var i :| 0 <= i < |p.levels| && p.levels[i].status == LevelActive;
      assert forall o :: o in st.store ==> WellFormed(cfg, o, st.store[o]);
      NotLoaded(s, ids, id, p.Pair(), p.Up(i), p.EntryOf(i));
      assert !Tracked(p, st'.index, st'.inflight, i);
    }
  }

  // ---- Every step, every run ----

  lemma EditKeepsExactly(cfg: Config, st: State, op: Op)
    requires Watched(cfg, st) && (op.UpdateLevel? || op.AddLevel? || op.RemoveLevel?)
    ensures Watched(cfg, Step(cfg, st, op)) <==> Safe(cfg, st, op)
  {
    match op
    case UpdateLevel(id, level, price, getOk, updateOk) =>
      if updateOk { UpdateKeeps(cfg, st, id, level, price, getOk); }
      else if UpdateAccepted(st, id, level, price, getOk) { FailedUpdate(cfg, st, id, level, price); }
    case AddLevel(id, lp, getOk, updateOk) =>
      if updateOk { AddKeeps(cfg, st, id, lp, getOk); }
      else if Live(st, id, getOk) { FailedAdd(cfg, st, id, lp); }
    case RemoveLevel(id, level, getOk, updateOk) =>
      if updateOk { RemoveKeeps(cfg, st, id, level, getOk); }
      else if RemoveAccepted(st, id, level, getOk) { FailedRemove(cfg, st, id, level); }
  }

  lemma SweepKeepsExactly(cfg: Config, st: State, op: Op)
    requires Watched(cfg, st) && (op.Cancel? || op.Renew? || op.Expire?)
    ensures Watched(cfg, Step(cfg, st, op)) <==> Safe(cfg, st, op)
  {
    hide Watched, ExecuteStep, RestartStep, PriceStep, CutPriceStep, OpenStep, LoadStep, UpdateStep, AddStep, RemoveStep, Register, Remove,
         RegisterAll, SetStatus, SafeExecution, SafeCut, AllInFlight, Lists;
    match op
    case Cancel(id, getOk, updateOk) =>
      if updateOk { CancelKeeps(cfg, st, id, getOk); }
      else if Live(st, id, getOk) { FailedCancel(cfg, st, id); }
    case Renew(id, owner, _, _, _, _, getOk, updateOk) =>
      if updateOk { RenewKeeps(cfg, st, op); }
      else if RenewAccepted(st, id, owner, getOk) { FailedRenew(cfg, st, op); }
    case Expire(id, now, updateOk) =>
      if ExpiryDue(st, id, now) {
        StoredUnder(cfg, st, id);
        assert st.(inflight := st.inflight) == st;
        if updateOk { SuspendKeeps(cfg, st, st.store[id], st.inflight); } else { FailedSuspend(cfg, st, st.store[id], st.inflight); }
      }
  }

  /** Every operation keeps every active level covered exactly when its guard says so, whatever fails. */
  lemma StepKeepsWatchExactlyWhen(cfg: Config, st: State, op: Op)
    requires Watched(cfg, st)
    ensures Watched(cfg, Step(cfg, st, op)) <==> Safe(cfg, st, op)
  {
    match op
    case Open(id, q, now, approveOk, saveOk) => OpenKeeps(cfg, st, id, q, now, approveOk, saveOk);
    case Load(id) => LoadKeeps(cfg, st, id);
    case Restart(ids) => RestartCoversExactlyWhen(cfg, st, ids);
    case Price(pair, price) => PriceKeeps(cfg, st, pair, price);
    case CutPrice(pair, price, sent) => CutPriceKeepsExactly(cfg, st, pair, price, sent);
    case Execute(ev, env) => if ev in st.inflight { ExecuteKeepsExactly(cfg, st, ev, env); }
    case _ =>
      if op.UpdateLevel? || op.AddLevel? || op.RemoveLevel? { EditKeepsExactly(cfg, st, op); } else { SweepKeepsExactly(cfg, st, op); }
  }

  lemma {:induction false} RunKeepsWatch(cfg: Config, trace: seq<State>, ops: seq<Op>, n: nat)
    requires IsRun(cfg, trace, ops, (s, op) => Safe(cfg, s, op)) && n <= |ops|
    requires Watched(cfg, trace[0])
    ensures Watched(cfg, trace[n])
  {
    if n > 0 {
      RunKeepsWatch(cfg, trace, ops, n - 1);
      StepKeepsWatchExactlyWhen(cfg, trace[n - 1], ops[n - 1]);
    }
  }

  /**
   No lost trigger, in every state of every run of safe steps from an empty manager: an active level of a
   live position is in the index at its current price on its side, or in flight; a suspended level has no
   entries; and an entry of an active level is never at another price, side or type.
   */
  lemma NoTriggerIsLost(cfg: Config, trace: seq<State>, ops: seq<Op>, n: nat, id: PosId, i: nat)
    requires IsRun(cfg, trace, ops, (s, op) => Safe(cfg, s, op)) && trace[0] == EMPTY && n <= |ops|
    requires id in trace[n].store && i < |trace[n].store[id].levels|
    ensures NotLost(trace[n], trace[n].store[id], i)
  {
    var st := trace[n];
    RunKeepsWatch(cfg, trace, ops, n);
    assert Covered(st.store[id], st.index, st.inflight);
    forall q: TokenPair, u: bool, x: Entry | Has(st.index, q, u, x) && x.pos == id
      ensures EntryFor(st.store[id], q, u, x)
    {
    }
  }
}
