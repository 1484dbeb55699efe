/** Every operation whose store write succeeds keeps the coverage invariant. */
module Upkeep {
  import opened Types
  import opened TriggerIndex
  import opened Lifecycle
  import opened SwapOnce
  import opened Coverage

  lemma OpenKeeps(cfg: Config, st: State, id: PosId, q: OpenParams, now: int, approveOk: bool, saveOk: bool)
    requires Watched(cfg, st)
    ensures Watched(cfg, OpenStep(cfg, st, id, q, now, approveOk, saveOk))
  {
    if ValidOpen(cfg, q, now) && approveOk && saveOk && id !in st.store {
      var p := NewPosition(id, q);
      Enlist(p.(levels := []), p, p.Those(LevelActive), st.index, st.inflight);
      OnePosition(cfg, st, OpenStep(cfg, st, id, q, now, approveOk, saveOk), p);
    }
  }

  lemma UpdateKeeps(cfg: Config, st: State, id: PosId, level: int, price: int, getOk: bool)
    requires Watched(cfg, st)
    ensures Watched(cfg, UpdateStep(st, id, level, price, getOk, true))
  {
    if UpdateAccepted(st, id, level, price, getOk) {
      Reprice(st.store[id], level, price, st.index, st.inflight);
      OnePosition(cfg, st, UpdateStep(st, id, level, price, getOk, true), Repriced(st.store[id], level, price));
    }
  }

  lemma AddKeeps(cfg: Config, st: State, id: PosId, lp: LevelParams, getOk: bool)
    requires Watched(cfg, st)
    ensures Watched(cfg, AddStep(st, id, lp, getOk, true))
  {
    if Live(st, id, getOk) {
      var p := st.store[id];
      var p' := Extended(p, lp);
      forall q: TokenPair, u: bool, x: Entry | Has(st.index, q, u, x) && x.pos == p'.id
        ensures EntryFor(p', q, u, x)
      {
        assert EntryFor(p, q, u, x);
      }
      forall i | 0 <= i < |p.levels| && p.levels[i].status == LevelActive
        ensures Tracked(p', st.index, st.inflight, i)
      {
        assert Tracked(p, st.index, st.inflight, i);
      }
      EnlistOne(p', |p.levels|, st.index, st.inflight);
      OnePosition(cfg, st, AddStep(st, id, lp, getOk, true), p');
    }
  }

  lemma RemoveKeeps(cfg: Config, st: State, id: PosId, level: int, getOk: bool)
    requires Watched(cfg, st)
    ensures Watched(cfg, RemoveStep(st, id, level, getOk, true))
  {
    if RemoveAccepted(st, id, level, getOk) {
      var p := st.store[id];
      var p' := p.(levels := p.levels[level := p.levels[level].(status := LevelCancelled)]);
      Sweep(p, p', {level}, st.index, st.inflight);
      OnePosition(cfg, st, RemoveStep(st, id, level, getOk, true), p');
    }
  }

  lemma CancelKeeps(cfg: Config, st: State, id: PosId, getOk: bool)
    requires Watched(cfg, st)
    ensures Watched(cfg, CancelStep(st, id, getOk, true))
  {
    if Live(st, id, getOk) {
      var p := st.store[id];
      var those := p.Those(LevelActive);
      var p' := p.(levels := SetStatus(p.levels, those, LevelCancelled), state := StateCancelled);
      Sweep(p, p', those, st.index, st.inflight);
      OnePosition(cfg, st, CancelStep(st, id, getOk, true), p');
    }
  }

  lemma RenewKeeps(cfg: Config, st: State, op: Op)
    requires Watched(cfg, st) && op.Renew? && op.updateOk
    ensures Watched(cfg, Step(cfg, st, op))
  {
    if RenewAccepted(st, op.id, op.owner, op.getOk) {
      var p := st.store[op.id];
      var p' := Renewed(p, op.signed, op.nonce, op.deadline, op.amount);
      Enlist(p, p', p.Those(LevelSuspended), st.index, st.inflight);
      OnePosition(cfg, st, Step(cfg, st, op), p');
    }
  }

  /** Suspension covers every active level, whether or not it was tracked. */
  lemma SuspendKeeps(cfg: Config, st: State, p: Position, fl: multiset<Event>)
    requires Watched(cfg, st) && p.id in st.store && st.store[p.id] == p && OthersInFlight(st.inflight, fl, p.id)
    ensures Watched(cfg, SuspendStep(st.(inflight := fl), p, true))
  {
    var those := p.Those(LevelActive);
    var p' := p.(levels := SetStatus(p.levels, those, LevelSuspended));
    Sweep(p, p', those, st.index, fl);
    OnePosition(cfg, st, SuspendStep(st.(inflight := fl), p, true), p');
  }

  lemma LoadKeeps(cfg: Config, st: State, id: PosId)
    requires Watched(cfg, st)
    ensures Watched(cfg, LoadStep(st, id))
  {
    if Live(st, id, true) {
      var p := st.store[id];
      Enlist(p, p, p.Those(LevelActive), st.index, st.inflight);
      OnePosition(cfg, st, LoadStep(st, id), p);
    }
  }

  /** A price moves entries into flight. */
  lemma PriceKeeps(cfg: Config, st: State, pair: TokenPair, price: int)
    requires Watched(cfg, st)
    ensures Watched(cfg, PriceStep(st, pair, price))
  {
    var (ix', events) := OnPrice(st.index, pair, price);
    var fl' := st.inflight + multiset(events);
    forall q: TokenPair, u: bool, x: Entry | Has(ix', q, u, x)
      ensures Has(st.index, q, u, x)
    {
      OnPriceHas(st.index, pair, price, q, u, x);
    }
    forall id | id in st.store
      ensures Agrees(st.store[id], ix') && Covered(st.store[id], ix', fl')
    {
      PriceCovers(st.store[id], st.index, st.inflight, pair, price);
    }
  }

  lemma PriceCovers(p: Position, ix: Index, fl: multiset<Event>, pair: TokenPair, price: int)
    requires Covered(p, ix, fl)
    ensures Covered(p, OnPrice(ix, pair, price).0, fl + multiset(OnPrice(ix, pair, price).1))
  {
    var (ix', events) := OnPrice(ix, pair, price);
    if !p.state.IsTerminal() {
      forall i | 0 <= i < |p.levels| && p.levels[i].status == LevelActive
        ensures Tracked(p, ix', fl + multiset(events), i)
      {
        assert Tracked(p, ix, fl, i);
        var x := p.EntryOf(i);
        OnPriceHas(ix, pair, price, p.Pair(), p.Up(i), x);
        if Has(ix, p.Pair(), p.Up(i), x) && !Has(ix', p.Pair(), p.Up(i), x) {
          CrossedFires(ix, pair, price, p.Up(i), x);
          assert EventOf(x, price, pair.chain) in fl + multiset(events);
        } else if !Has(ix, p.Pair(), p.Up(i), x) {
          var ev :| ev in fl && ev.pos == p.id && ev.level == i;
          assert ev in fl + multiset(events);
        }
      }
    }
  }

  // ---- Executing ----

  /** Taking an event out of flight leaves every other level tracked. */
  lemma Consume(p: Position, ev: Event, ix: Index, fl: multiset<Event>)
    requires Covered(p, ix, fl)
    ensures CoveredBut(p, {ev.level}, ix, fl - multiset{ev})
    ensures p.id != ev.pos ==> Covered(p, ix, fl - multiset{ev})
  {
    if !p.state.IsTerminal() {
      forall i | 0 <= i < |p.levels| && p.levels[i].status == LevelActive && (p.id != ev.pos || i != ev.level)
        ensures Tracked(p, ix, fl - multiset{ev}, i)
      {
        assert Tracked(p, ix, fl, i);
        if !Has(ix, p.Pair(), p.Up(i), p.EntryOf(i)) {
          var other :| other in fl && other.pos == p.id && other.level == i;
          assert other in fl - multiset{ev};
        }
      }
    }
  }

  /** The fired level keeps its stale entries; the levels it takes down lose theirs; a moved stop-loss gets its new one. */
  lemma FiredCovers(p: Position, i: nat, price: int, ix: Index, fl: multiset<Event>)
    requires i < |p.levels| && p.levels[i].status == LevelActive && !p.state.IsTerminal()
    requires Agrees(p, ix) && CoveredBut(p, {i}, ix, fl)
    ensures var p', ix' := Fired(p, i, price), FiredIndex(ix, p, i, price);
      OthersKept(ix, ix', p.id) && Agrees(p', ix') && Covered(p', ix', fl)
  {
    var l := p.levels[i].(status := LevelTriggered, execPrice := Some(price),
                          execAmount := Some(AmountIn(p, i)));
    var p1 := p.(levels := p.levels[i := l]);
    var taken := TakenDown(p, i);
    SettleCovers(p, p1, i, taken, ix, fl);
    var p2 := Fired(p, i, price).(levels := FiredLevels(p, i, price));
    Sweep(p1, p2, taken, ix, fl);
    var sl := MovedSL(p, i, price);
    if sl.Some? {
      ActiveSLIsFirst(FiredLevels(p, i, price), 0);
      var mid := Remove(ix, p.Pair(), OfLevels(p.id, taken));
      assert Repriced(p2, sl.value, p.levels[i].moveSLTo.value) == Fired(p, i, price);
      Reprice(p2, sl.value, p.levels[i].moveSLTo.value, mid, fl);
      OthersKeptTwice(ix, mid, FiredIndex(ix, p, i, price), p.id);
    }
  }

  lemma SettleCovers(p: Position, p1: Position, i: nat, those: set<nat>, ix: Index, fl: multiset<Event>)
    requires i < |p.levels| && Agrees(p, ix) && CoveredBut(p, {i}, ix, fl)
    requires |p1.levels| == |p.levels| && p1.levels == p.levels[i := p1.levels[i]]
    requires p1.levels[i].status == LevelTriggered && p1.levels[i].typ == p.levels[i].typ
    requires p1 == p.(levels := p1.levels)
    ensures Agrees(p1, ix) && CoveredBut(p1, those, ix, fl)
  {
    forall q: TokenPair, u: bool, x: Entry | Has(ix, q, u, x) && x.pos == p1.id
      ensures EntryFor(p1, q, u, x)
    {
      assert EntryFor(p, q, u, x);
    }
    if !p.state.IsTerminal() {
      forall j | 0 <= j < |p1.levels| && p1.levels[j].status == LevelActive && j !in those
        ensures Tracked(p1, ix, fl, j)
      {
        assert Tracked(p, ix, fl, j);
      }
    }
  }

  lemma ActivatedSame(p: Position, those: set<nat>, ix: Index, fl: multiset<Event>)
    ensures Agrees(p, ix) ==> Agrees(Activated(p), ix)
    ensures CoveredBut(p, those, ix, fl) ==> CoveredBut(Activated(p), those, ix, fl)
  {
    forall q: TokenPair, u: bool, x: Entry
      ensures EntryFor(p, q, u, x) ==> EntryFor(Activated(p), q, u, x)
    {
    }
    forall i | 0 <= i < |p.levels|
      ensures Tracked(p, ix, fl, i) ==> Tracked(Activated(p), ix, fl, i)
    {
    }
  }

  /** A trigger that could not be executed is registered again, for a position whose permit may just have been activated. */
  lemma RequeuedCovers(cfg: Config, st: State, p: Position, ev: Event, st': State)
    requires Watched(cfg, st) && ev.pos in st.store && p.id == ev.pos && WellFormed(cfg, p.id, p)
    requires p == st.store[ev.pos] || p == Activated(st.store[ev.pos])
    requires ev.level < |p.levels| && p.levels[ev.level].status == LevelActive
    requires st'.store == st.store[p.id := p] && st'.inflight == st.inflight - multiset{ev}
    requires st'.index == Register(st.index, p.Pair(), p.Up(ev.level), p.EntryOf(ev.level))
    ensures Watched(cfg, st')
  {
    var p0, fl := st.store[ev.pos], st.inflight - multiset{ev};
    Consume(p0, ev, st.index, st.inflight);
    ActivatedSame(p0, {ev.level}, st.index, fl);
    EnlistOne(p, ev.level, st.index, fl);
    OnePosition(cfg, st, st', p);
  }

  lemma RecordKeeps(cfg: Config, st: State, ev: Event, env: Env)
    requires Watched(cfg, st) && ev in st.inflight && OutcomeOf(cfg, st, ev, env) == Recorded
    ensures Watched(cfg, ExecuteStep(cfg, st, ev, env))
  {
    var p0, fl := st.store[ev.pos], st.inflight - multiset{ev};
    Consume(p0, ev, st.index, st.inflight);
    ActivatedSame(p0, {ev.level}, st.index, fl);
    RecordedState(cfg, st, ev, env);
    RecordedCovers(cfg, st, AtSwap(cfg, st, ev, env), ev, ExecuteStep(cfg, st, ev, env));
  }

  lemma RecordedCovers(cfg: Config, st: State, p: Position, ev: Event, st': State)
    requires Watched(cfg, st) && ev.pos in st.store && p.id == ev.pos
    requires ev.level < |p.levels| && p.levels[ev.level].status == LevelActive && !p.state.IsTerminal()
    requires Agrees(p, st.index) && CoveredBut(p, {ev.level}, st.index, st'.inflight)
    requires WellFormed(cfg, p.id, Fired(p, ev.level, ev.price))
    requires st'.store == st.store[p.id := Fired(p, ev.level, ev.price)] && st'.inflight == st.inflight - multiset{ev}
    requires st'.index == FiredIndex(st.index, p, ev.level, ev.price)
    ensures Watched(cfg, st')
  {
    FiredCovers(p, ev.level, ev.price, st.index, st'.inflight);
    OnePosition(cfg, st, st', Fired(p, ev.level, ev.price));
  }
}
