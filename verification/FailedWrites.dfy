/**
 What a failed store write costs. Every operation but an execution changes the index before it stores the
 position, so a write that fails leaves the two apart; here is exactly when that loses nothing.
 */
module FailedWrites {
  import opened Types
  import opened TriggerIndex
  import opened Lifecycle
  import opened Coverage
  import opened Upkeep

  ghost predicate AllInFlight(fl: multiset<Event>, p: Position) {
    forall i :: 0 <= i < |p.levels| && p.levels[i].status == LevelActive ==> InFlight(fl, p.id, i)
  }

  /** When the entries of one stored position alone have changed, the rest is watched as before. */
  lemma WatchedExactly(cfg: Config, st: State, st': State, p: Position)
    requires Watched(cfg, st) && st'.store == st.store && p.id in st.store && st.store[p.id] == p
    requires OthersKept(st.index, st'.index, p.id) && OthersInFlight(st.inflight, st'.inflight, p.id)
    ensures Watched(cfg, st') <==> Agrees(p, st'.index) && Covered(p, st'.index, st'.inflight)
  {
    if Agrees(p, st'.index) && Covered(p, st'.index, st'.inflight) {
      assert st.store[p.id := p] == st.store;
      OnePosition(cfg, st, st', p);
    }
  }

  /** Entries of `those` levels are withdrawn while the stored position stays: the active ones among them must be in flight. */
  lemma Withdraw(p: Position, those: set<nat>, ix: Index, fl: multiset<Event>)
    requires Agrees(p, ix) && CoveredBut(p, those, ix, fl)
    ensures var ix' := Remove(ix, p.Pair(), OfLevels(p.id, those));
      OthersKept(ix, ix', p.id) && Agrees(p, ix') &&
      (Covered(p, ix', fl) <==>
        (p.state.IsTerminal() ||
         forall i :: 0 <= i < |p.levels| && i in those && p.levels[i].status == LevelActive ==> InFlight(fl, p.id, i)))
  {
    var sel := OfLevels(p.id, those);
    var ix' := Remove(ix, p.Pair(), sel);
    forall q: TokenPair, u: bool, x: Entry
      ensures x.pos != p.id ==> (Has(ix', q, u, x) <==> Has(ix, q, u, x))
      ensures Has(ix', q, u, x) && x.pos == p.id ==> EntryFor(p, q, u, x)
    {
      RemoveHas(ix, p.Pair(), sel, q, u, x);
      if Has(ix', q, u, x) && x.pos == p.id { assert EntryFor(p, q, u, x); }
    }
    forall i | 0 <= i < |p.levels| && p.levels[i].status == LevelActive
      ensures i in those ==> (Tracked(p, ix', fl, i) <==> InFlight(fl, p.id, i))
      ensures i !in those && !p.state.IsTerminal() ==> Tracked(p, ix', fl, i)
    {
      RemoveHas(ix, p.Pair(), sel, p.Pair(), p.Up(i), p.EntryOf(i));
      if i !in those && !p.state.IsTerminal() { assert Tracked(p, ix, fl, i); }
    }
  }

  /** UpdateLevel: only if the new price is the stored one. */
  lemma FailedUpdate(cfg: Config, st: State, id: PosId, level: int, price: int)
    requires Watched(cfg, st) && UpdateAccepted(st, id, level, price, true)
    ensures Watched(cfg, UpdateStep(st, id, level, price, true, false)) <==> price == st.store[id].levels[level].triggerPrice
  {
    var p, st' := st.store[id], UpdateStep(st, id, level, price, true, false);
    var p' := Repriced(p, level, price);
    if price == p.levels[level].triggerPrice {
      assert p' == p && st.store[id := p] == st.store;
      UpdateKeeps(cfg, st, id, level, price, true);
    } else {
      RegisterHas(Unregister(st.index, p'.Pair(), id, level), p'.Pair(), p'.Up(level), p'.EntryOf(level),
                  p'.Pair(), p'.Up(level), p'.EntryOf(level));
      assert !EntryFor(p, p'.Pair(), p'.Up(level), p'.EntryOf(level));
    }
  }

  /** AddLevel: never; an entry is left for a level that does not exist. */
  lemma FailedAdd(cfg: Config, st: State, id: PosId, lp: LevelParams)
    requires Watched(cfg, st) && Live(st, id, true)
    ensures !Watched(cfg, AddStep(st, id, lp, true, false))
  {
    var p := st.store[id];
    var p', n := Extended(p, lp), |p.levels|;
    RegisterHas(st.index, p'.Pair(), p'.Up(n), p'.EntryOf(n), p'.Pair(), p'.Up(n), p'.EntryOf(n));
    assert !EntryFor(p, p'.Pair(), p'.Up(n), p'.EntryOf(n));
  }

  /** RemoveLevel: if the level was not active, or is in flight. */
  lemma FailedRemove(cfg: Config, st: State, id: PosId, level: int)
    requires Watched(cfg, st) && RemoveAccepted(st, id, level, true)
    ensures Watched(cfg, RemoveStep(st, id, level, true, false)) <==>
      st.store[id].levels[level].status != LevelActive || InFlight(st.inflight, id, level)
  {
    var p := st.store[id];
    Withdraw(p, {level}, st.index, st.inflight);
    WatchedExactly(cfg, st, RemoveStep(st, id, level, true, false), p);
  }

  /** CancelPosition: if every active level is in flight. */
  lemma FailedCancel(cfg: Config, st: State, id: PosId)
    requires Watched(cfg, st) && Live(st, id, true)
    ensures Watched(cfg, CancelStep(st, id, true, false)) <==> AllInFlight(st.inflight, st.store[id])
  {
    var p := st.store[id];
    Withdraw(p, p.Those(LevelActive), st.index, st.inflight);
    WatchedExactly(cfg, st, CancelStep(st, id, true, false), p);
  }

  /** A suspension, by the monitor or by an execution whose event is gone: the same. */
  lemma FailedSuspend(cfg: Config, st: State, p: Position, fl: multiset<Event>)
    requires Watched(cfg, st) && p.id in st.store && st.store[p.id] == p && !p.state.IsTerminal()
    requires OthersInFlight(st.inflight, fl, p.id)
    ensures Watched(cfg, SuspendStep(st.(inflight := fl), p, false)) <==> AllInFlight(fl, p)
  {
    Withdraw(p, p.Those(LevelActive), st.index, fl);
    WatchedExactly(cfg, st, SuspendStep(st.(inflight := fl), p, false), p);
  }

  /** RenewPermit: if no level was suspended. */
  lemma FailedRenew(cfg: Config, st: State, op: Op)
    requires Watched(cfg, st) && op.Renew? && RenewAccepted(st, op.id, op.owner, op.getOk) && !op.updateOk
    ensures Watched(cfg, Step(cfg, st, op)) <==> NoneIs(st.store[op.id].levels, LevelSuspended)
  {
    hide *;
    var p := OfRenewed(cfg, st, op);
    RenewIndexes(cfg, st, op);
    RegistersOver(cfg, st, p, Renewed(p, op.signed, op.nonce, op.deadline, op.amount), p.Those(LevelSuspended));
  }

  lemma OfRenewed(cfg: Config, st: State, op: Op) returns (p: Position)
    requires Watched(cfg, st) && op.Renew? && RenewAccepted(st, op.id, op.owner, op.getOk)
    ensures op.id in st.store && p == st.store[op.id] && p.id == op.id
    ensures var p' := Renewed(p, op.signed, op.nonce, op.deadline, op.amount);
      p'.id == p.id && |p'.levels| == |p.levels|
    ensures p.Those(LevelSuspended) == {} <==> NoneIs(p.levels, LevelSuspended)
    ensures forall i :: i in p.Those(LevelSuspended) ==> i < |p.levels| && p.levels[i].status == LevelSuspended
  {
    p := st.store[op.id];
    assert WellFormed(cfg, op.id, p);
  }

  lemma RenewIndexes(cfg: Config, st: State, op: Op)
    requires op.Renew? && RenewAccepted(st, op.id, op.owner, op.getOk) && !op.updateOk
    ensures var p := st.store[op.id];
      var p' := Renewed(p, op.signed, op.nonce, op.deadline, op.amount);
      Step(cfg, st, op) == st.(index := RegisterAll(st.index, p', p.Those(LevelSuspended), |p'.levels|))
  {
    hide RegisterAll;
  }

  /** Registering suspended levels contradicts what is stored, unless there are none. */
  lemma RegistersOver(cfg: Config, st: State, p: Position, p': Position, those: set<nat>)
    requires Watched(cfg, st) && p.id in st.store && st.store[p.id] == p && p'.id == p.id && |p'.levels| == |p.levels|
    requires forall i :: i in those ==> i < |p.levels| && p.levels[i].status == LevelSuspended
    ensures Watched(cfg, st.(index := RegisterAll(st.index, p', those, |p'.levels|))) <==> those == {}
  {
    var ix, n := RegisterAll(st.index, p', those, |p'.levels|), |p'.levels|;
    if those == {} {
      RegistersNone(st.index, p', n);
    } else {
      var i :| i in those;
      RegisterAllHas(st.index, p', those, n, p'.Pair(), p'.Up(i), p'.EntryOf(i));
      assert !EntryFor(p, p'.Pair(), p'.Up(i), p'.EntryOf(i));
      assert !Agrees(p, ix);
    }
    hide RegisterAll, StoreOk, Has;
  }

  lemma StoredUnder(cfg: Config, st: State, id: PosId)
    requires Watched(cfg, st) && id in st.store
    ensures st.store[id].id == id
  {
    assert WellFormed(cfg, id, st.store[id]);
  }

  lemma {:induction false} RegistersNone(ix: Index, p: Position, k: nat)
    requires k <= |p.levels|
    ensures RegisterAll(ix, p, {}, k) == ix
  {
    if k > 0 {
      RegistersNone(ix, p, k - 1);
    }
  }

  /** The index after a level is added whose write fails, and then another: both entries, at the same index. */
  lemma GhostEntries(p: Position, p1: Position, p2: Position, ix: Index, q: TokenPair, u: bool, x: Entry)
    requires Agrees(p, ix) && p1.id == p.id && p2.id == p.id && p1.Pair() == p2.Pair()
    requires |p1.levels| == |p.levels| + 1 == |p2.levels|
    requires x.pos == p.id && x.level == |p.levels|
    ensures var n := |p.levels|;
      var ix1 := Register(ix, p1.Pair(), p1.Up(n), p1.EntryOf(n));
      Has(Register(ix1, p2.Pair(), p2.Up(n), p2.EntryOf(n)), q, u, x) <==>
        q == p2.Pair() && ((u == p1.Up(n) && x == p1.EntryOf(n)) || (u == p2.Up(n) && x == p2.EntryOf(n)))
  {
    var n := |p.levels|;
    var ix1 := Register(ix, p1.Pair(), p1.Up(n), p1.EntryOf(n));
    RegisterHas(ix, p1.Pair(), p1.Up(n), p1.EntryOf(n), q, u, x);
    RegisterHas(ix1, p2.Pair(), p2.Up(n), p2.EntryOf(n), q, u, x);
    assert Has(ix, q, u, x) ==> EntryFor(p, q, u, x);
  }

  lemma GhostState(cfg: Config, st: State, id: PosId, ghostly: LevelParams, added: LevelParams)
    requires Watched(cfg, st) && Live(st, id, true)
    ensures var st' := AddStep(AddStep(st, id, ghostly, true, false), id, added, true, true);
      var p, n := st.store[id], |st.store[id].levels|;
      var p1, p2 := Extended(p, ghostly), Extended(p, added);
      p.id == id && Agrees(p, st.index) && id in st'.store && st'.store[id] == p2 &&
      st'.index == Register(Register(st.index, p1.Pair(), p1.Up(n), p1.EntryOf(n)), p2.Pair(), p2.Up(n), p2.EntryOf(n))
  {
    hide Register, Has, FiresAbove, Covered;
    assert WellFormed(cfg, id, st.store[id]);
  }

  /**
   What the ghost entry of a failed AddLevel does: the next level added takes its index. Nothing about that
   level is wrong exactly when the two have the same price and type; otherwise the ghost's price fires it.
   */
  lemma GhostEntryFires(cfg: Config, st: State, id: PosId, ghostly: LevelParams, added: LevelParams)
    requires Watched(cfg, st) && Live(st, id, true)
    ensures var st' := AddStep(AddStep(st, id, ghostly, true, false), id, added, true, true);
      var p, n := st'.store[id], |st.store[id].levels|;
      (NotLost(st', p, n) <==> ghostly.triggerPrice == added.triggerPrice && ghostly.typ == added.typ) &&
      InFlight(PriceStep(st', p.Pair(), ghostly.triggerPrice).inflight, id, n)
  {
    var p := st.store[id];
    var p1, p2, n := Extended(p, ghostly), Extended(p, added), |p.levels|;
    var st' := AddStep(AddStep(st, id, ghostly, true, false), id, added, true, true);
    GhostState(cfg, st, id, ghostly, added);
    hide AddStep, Register, Has, FiresAbove, Agrees, StoreOk, PriceStep, Watched, NotLost;
    forall q: TokenPair, u: bool, x: Entry | x.pos == id && x.level == n
      ensures Has(st'.index, q, u, x) <==>
        q == p2.Pair() && ((u == p1.Up(n) && x == p1.EntryOf(n)) || (u == p2.Up(n) && x == p2.EntryOf(n)))
    {
      GhostEntries(p, p1, p2, st.index, q, u, x);
    }
    TwoEntries(st', p2, n, p1.Up(n), p1.EntryOf(n));
    EntryReaches(st', p2.Pair(), p1.Up(n), p1.EntryOf(n));
  }

  /** A level with its own entry and one more is in order exactly when the two are the same. */
  lemma TwoEntries(st: State, p: Position, n: nat, up: bool, e: Entry)
    requires n < |p.levels| && p.levels[n].status == LevelActive && e.pos == p.id && e.level == n && p.EntryOf(n).level == n
    requires forall q: TokenPair, u: bool, x: Entry :: x.pos == p.id && x.level == n ==>
      (Has(st.index, q, u, x) <==> q == p.Pair() && ((u == up && x == e) || (u == p.Up(n) && x == p.EntryOf(n))))
    ensures NotLost(st, p, n) <==> up == p.Up(n) && e == p.EntryOf(n)
    ensures Has(st.index, p.Pair(), up, e)
  {
    hide Has, FiresAbove;
    assert Has(st.index, p.Pair(), up, e);
    assert Has(st.index, p.Pair(), p.Up(n), p.EntryOf(n));
  }

  /** The price of an entry puts its level in flight. */
  lemma EntryReaches(st: State, pair: TokenPair, up: bool, x: Entry)
    requires Has(st.index, pair, up, x)
    ensures EventOf(x, x.price, pair.chain) in PriceStep(st, pair, x.price).inflight
    ensures InFlight(PriceStep(st, pair, x.price).inflight, x.pos, x.level)
  {
    CrossedFires(st.index, pair, x.price, up, x);
  }

  /** What the index and the events in flight say about one level of one position. */
  ghost predicate NotLost(st: State, p: Position, i: nat)
    requires i < |p.levels|
  {
    && (p.levels[i].status == LevelActive && !p.state.IsTerminal() ==>
          Has(st.index, p.Pair(), p.Up(i), p.EntryOf(i)) || InFlight(st.inflight, p.id, i))
    && forall q: TokenPair, u: bool, x: Entry :: Has(st.index, q, u, x) && x.pos == p.id && x.level == i ==>
         p.levels[i].status != LevelSuspended && q == p.Pair() && u == p.Up(i) &&
         (p.levels[i].status == LevelActive ==> x == p.EntryOf(i))
  }
}
