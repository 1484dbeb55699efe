/** What the other operations on a position do to the store and to the index, field by field and entry by entry. */
module Edits {
  import opened Types
  import opened TriggerIndex
  import opened Lifecycle
  import opened SwapOnce
  import opened Coverage
  import opened Identity
  import opened Firing
  import opened Opening

  /** The store answers with a position that is neither closed nor cancelled. */
  predicate Found(st: State, id: PosId, getOk: bool) {
    getOk && id in st.store && st.store[id].state != StateClosed && st.store[id].state != StateCancelled
  }

  /** The level has one entry, at this price, on the side that its type and the direction give. */
  ghost predicate OneEntry(ix: Index, p: Position, level: nat, typ: LevelType, price: int) {
    forall up: bool :: Entries(ix, p.Pair(), up, p.id, level) ==
      if up == ((typ == TP) == (p.direction == Long)) then [Entry(price, p.id, level, typ)] else []
  }

  /** The entries of the position's levels in `those` aside, the index is what it was. */
  ghost predicate OthersKept'(ix: Index, ix': Index, p: Position, those: set<nat>) {
    forall pair: TokenPair, up: bool, x: Entry :: !(pair == p.Pair() && x.pos == p.id && x.level in those) ==>
      (Has(ix', pair, up, x) <==> Has(ix, pair, up, x))
  }

  /** An operation stores the position, if the write succeeds, and changes the index; the rest is what it was. */
  ghost predicate Stores(st: State, st': State, p': Position, ok: bool) {
    st'.store == (if ok then st.store[p'.id := p'] else st.store) &&
    st'.inflight == st.inflight && st'.swaps == st.swaps && st'.grants == st.grants
  }

  // ---- UpdateLevel ----

  /** A positive price for an active level of a live position. */
  predicate MayUpdate(st: State, id: PosId, level: int, price: int, getOk: bool) {
    Found(st, id, getOk) && price > 0 && 0 <= level < |st.store[id].levels| && st.store[id].levels[level].status == LevelActive
  }

  lemma UpdateMeans(cfg: Config, st: State, id: PosId, level: int, price: int, getOk: bool, updateOk: bool)
    requires StoreOk(cfg, st)
    ensures var st' := Step(cfg, st, UpdateLevel(id, level, price, getOk, updateOk));
      if MayUpdate(st, id, level, price, getOk) then
        var p := st.store[id];
        Stores(st, st', p.(levels := p.levels[level := p.levels[level].(triggerPrice := price)]), updateOk) && p.id == id &&
        OneEntry(st'.index, p, level, p.levels[level].typ, price) && OthersKept'(st.index, st'.index, p, {level})
      else st' == st
  {
    OwnId(cfg, st, id);
    if MayUpdate(st, id, level, price, getOk) {
      UpdateIndexMeans(st.index, st.store[id], level, price);
    }
    hide OneEntry, OthersKept', UpdateTriggerPrice, StoreOk, ExecuteStep, RestartStep;
  }

  lemma UpdateIndexMeans(ix: Index, p: Position, level: nat, price: int)
    requires level < |p.levels|
    ensures var p' := Repriced(p, level, price);
      var ix' := UpdateTriggerPrice(ix, p'.Pair(), p'.Up(level), p'.EntryOf(level));
      OneEntry(ix', p, level, p.levels[level].typ, price) && OthersKept'(ix, ix', p, {level})
  {
    hide Entries, Has, Register, Remove;
    var p' := Repriced(p, level, price);
    var ix' := UpdateTriggerPrice(ix, p'.Pair(), p'.Up(level), p'.EntryOf(level));
    forall up: bool
      ensures Entries(ix', p.Pair(), up, p.id, level) ==
        if up == ((p.levels[level].typ == TP) == (p.direction == Long)) then [Entry(price, p.id, level, p.levels[level].typ)] else []
    {
      MovedEntry(ix, p.Pair(), p'.Up(level), p'.EntryOf(level), up);
    }
    forall pair: TokenPair, up: bool, x: Entry | !(pair == p.Pair() && x.pos == p.id && x.level in {level})
      ensures Has(ix', pair, up, x) <==> Has(ix, pair, up, x)
    {
      RemoveHas(ix, p.Pair(), OfLevels(p.id, {level}), pair, up, x);
      RegisterHas(Unregister(ix, p.Pair(), p.id, level), p.Pair(), p'.Up(level), p'.EntryOf(level), pair, up, x);
    }
  }

  /** Wherever its entries were, a level that is moved has one. */
  lemma MovedEntry(ix: Index, pair: TokenPair, side: bool, e: Entry, up: bool)
    ensures Entries(UpdateTriggerPrice(ix, pair, side, e), pair, up, e.pos, e.level) == if up == side then [e] else []
  {
    var mid := Unregister(ix, pair, e.pos, e.level);
    RemovedEntries(ix, pair, up, e.pos, {e.level}, e.level);
    RegisteredEntries(mid, pair, side, e, up, e.level);
    hide Entries, Register, Remove;
  }

  // ---- AddLevel ----

  /** Any level is added to a live position, active, after the others, and registered once. */
  lemma AddMeans(cfg: Config, st: State, id: PosId, lp: LevelParams, getOk: bool, updateOk: bool)
    requires StoreOk(cfg, st)
    ensures var st' := Step(cfg, st, AddLevel(id, lp, getOk, updateOk));
      if Found(st, id, getOk) then
        exists l: Level :: AddedAs(st, st', id, lp, l, updateOk)
      else st' == st
  {
    OwnId(cfg, st, id);
    if Found(st, id, getOk) {
      var p, l := st.store[id], NewLevel(|st.store[id].levels|, lp);
      AddIndexMeans(st.index, p, lp);
      assert AddedAs(st, Step(cfg, st, AddLevel(id, lp, getOk, updateOk)), id, lp, l, updateOk);
    }
    hide AddedAs, Register, StoreOk, ExecuteStep, RestartStep;
  }

  ghost predicate AddedAs(st: State, st': State, id: PosId, lp: LevelParams, l: Level, ok: bool)
    requires id in st.store
  {
    var p, n := st.store[id], |st.store[id].levels|;
    && OpenedLevel(lp, n, l) && Stores(st, st', p.(levels := p.levels + [l]), ok) && p.id == id
    && forall pair: TokenPair, up: bool, x: Entry :: Has(st'.index, pair, up, x) <==>
         Has(st.index, pair, up, x) ||
         (pair == p.Pair() && up == ((lp.typ == TP) == (p.direction == Long)) && x == Entry(lp.triggerPrice, id, n, lp.typ))
  }

  lemma AddIndexMeans(ix: Index, p: Position, lp: LevelParams)
    ensures var p', n := Extended(p, lp), |p.levels|;
      forall pair: TokenPair, up: bool, x: Entry :: Has(Register(ix, p'.Pair(), p'.Up(n), p'.EntryOf(n)), pair, up, x) <==>
        Has(ix, pair, up, x) ||
        (pair == p.Pair() && up == ((lp.typ == TP) == (p.direction == Long)) && x == Entry(lp.triggerPrice, p.id, n, lp.typ))
  {
    var p', n := Extended(p, lp), |p.levels|;
    forall pair: TokenPair, up: bool, x: Entry
      ensures Has(Register(ix, p'.Pair(), p'.Up(n), p'.EntryOf(n)), pair, up, x) <==>
        Has(ix, pair, up, x) ||
        (pair == p.Pair() && up == ((lp.typ == TP) == (p.direction == Long)) && x == Entry(lp.triggerPrice, p.id, n, lp.typ))
    {
      RegisterHas(ix, p'.Pair(), p'.Up(n), p'.EntryOf(n), pair, up, x);
      hide Has, Register;
    }
  }

  // ---- What takes levels out ----

  /** None of the levels in `those` has an entry. */
  ghost predicate NoEntries(ix: Index, p: Position, those: set<nat>) {
    forall up: bool, x: Entry :: Has(ix, p.Pair(), up, x) && x.pos == p.id ==> x.level !in those
  }

  lemma WithdrawnMeans(ix: Index, p: Position, those: set<nat>)
    ensures var ix' := Remove(ix, p.Pair(), OfLevels(p.id, those));
      NoEntries(ix', p, those) && OthersKept'(ix, ix', p, those)
  {
    forall pair: TokenPair, up: bool, x: Entry
      ensures Has(Remove(ix, p.Pair(), OfLevels(p.id, those)), pair, up, x) <==>
        Has(ix, pair, up, x) && !(pair == p.Pair() && x.pos == p.id && x.level in those)
    {
      RemoveHas(ix, p.Pair(), OfLevels(p.id, those), pair, up, x);
    }
    hide Has, Remove;
  }

  /** A level of a live position, of whatever status, is cancelled and has no entries left. */
  lemma RemoveMeans(cfg: Config, st: State, id: PosId, level: int, getOk: bool, updateOk: bool)
    requires StoreOk(cfg, st)
    ensures var st' := Step(cfg, st, RemoveLevel(id, level, getOk, updateOk));
      if Found(st, id, getOk) && 0 <= level < |st.store[id].levels| then
        var p := st.store[id];
        Stores(st, st', p.(levels := p.levels[level := p.levels[level].(status := LevelCancelled)]), updateOk) && p.id == id &&
        NoEntries(st'.index, p, {level}) && OthersKept'(st.index, st'.index, p, {level})
      else st' == st
  {
    OwnId(cfg, st, id);
    if id in st.store && level >= 0 {
      WithdrawnMeans(st.index, st.store[id], {level});
    }
    hide NoEntries, OthersKept', Remove, StoreOk, ExecuteStep, RestartStep;
  }

  /** The levels that are active get another status, and nothing else about a level changes. */
  ghost predicate Swept(p: Position, p': Position, to: LevelStatus) {
    && |p'.levels| == |p.levels|
    && forall i :: 0 <= i < |p.levels| ==>
         p'.levels[i] == if p.levels[i].status == LevelActive then p.levels[i].(status := to) else p.levels[i]
  }

  /** The indices of the active levels. */
  function ActiveOnes(p: Position): set<nat> {
    set i: nat | i < |p.levels| && p.levels[i].status == LevelActive
  }

  /** The sweep is stored, if the write succeeds, and the active levels have no entries left. */
  ghost predicate SweptAs(st: State, st': State, p: Position, p': Position, to: LevelStatus, ok: bool) {
    && Swept(p, p', to) && Stores(st, st', p', ok)
    && NoEntries(st'.index, p, ActiveOnes(p)) && OthersKept'(st.index, st'.index, p, ActiveOnes(p))
  }

  /** A live position is cancelled, with its active levels; suspended ones stay as they are. */
  lemma CancelMeans(cfg: Config, st: State, id: PosId, getOk: bool, updateOk: bool)
    requires StoreOk(cfg, st)
    ensures var st' := Step(cfg, st, Cancel(id, getOk, updateOk));
      if Found(st, id, getOk) then st.store[id].id == id && CancelledAs(st, st', st.store[id], updateOk) else st' == st
  {
    OwnId(cfg, st, id);
    if Found(st, id, getOk) {
      CancelsAll(st, id, getOk, updateOk);
    }
    hide CancelledAs, Remove, StoreOk, ExecuteStep, RestartStep, SetStatus;
  }

  ghost predicate CancelledAs(st: State, st': State, p: Position, ok: bool) {
    exists p': Position :: p' == p.(levels := p'.levels, state := StateCancelled) && SweptAs(st, st', p, p', LevelCancelled, ok)
  }

  lemma CancelsAll(st: State, id: PosId, getOk: bool, ok: bool)
    requires Found(st, id, getOk)
    ensures CancelledAs(st, CancelStep(st, id, getOk, ok), st.store[id], ok)
  {
    var p := st.store[id];
    var p' := p.(levels := SetStatus(p.levels, p.Those(LevelActive), LevelCancelled), state := StateCancelled);
    WithdrawnMeans(st.index, p, p.Those(LevelActive));
    assert p.Those(LevelActive) == ActiveOnes(p);
    assert SweptAs(st, CancelStep(st, id, getOk, ok), p, p', LevelCancelled, ok) by {
      hide NoEntries, OthersKept', Remove;
    }
  }

  /** The monitor suspends the active levels of a position it finds due, and leaves its state alone. */
  lemma ExpireMeans(cfg: Config, st: State, id: PosId, now: int, updateOk: bool)
    requires StoreOk(cfg, st)
    ensures var st' := Step(cfg, st, Expire(id, now, updateOk));
      if ExpiryDue(st, id, now) then
        id in st.store && SuspendedAs(st, st', st.store[id], updateOk) && st.store[id].id == id
      else st' == st
  {
    OwnId(cfg, st, id);
    if ExpiryDue(st, id, now) {
      SuspendMeans(st, st.store[id], updateOk);
    }
    hide SuspendedAs, SuspendStep, StoreOk, ExecuteStep, RestartStep;
  }

  ghost predicate SuspendedAs(st: State, st': State, p: Position, ok: bool) {
    exists p': Position :: p' == p.(levels := p'.levels) && SweptAs(st, st', p, p', LevelSuspended, ok)
  }

  lemma SuspendMeans(st: State, p: Position, ok: bool)
    ensures SuspendedAs(st, SuspendStep(st, p, ok), p, ok)
  {
    var p' := p.(levels := SetStatus(p.levels, p.Those(LevelActive), LevelSuspended));
    WithdrawnMeans(st.index, p, p.Those(LevelActive));
    assert p.Those(LevelActive) == ActiveOnes(p);
    assert SweptAs(st, SuspendStep(st, p, ok), p, p', LevelSuspended, ok) by {
      hide NoEntries, OthersKept', Remove;
    }
  }

  /** So does an execution that finds the permit expired; its event is gone. */
  lemma ExecutionSuspends(cfg: Config, st: State, ev: Event, env: Env)
    requires ev in st.inflight && OutcomeOf(cfg, st, ev, env) == Suspended
    ensures ev.pos in st.store &&
      SuspendedAs(st.(inflight := st.inflight - multiset{ev}), ExecuteStep(cfg, st, ev, env), st.store[ev.pos], env.updateOk)
  {
    SuspendMeans(st.(inflight := st.inflight - multiset{ev}), st.store[ev.pos], env.updateOk);
    hide SuspendedAs, SuspendStep;
  }

  // ---- What puts levels in ----

  /** Loading a live position registers its active levels, and loading any other nothing. */
  lemma LoadMeans(cfg: Config, st: State, id: PosId, pair: TokenPair, up: bool, x: Entry)
    requires StoreOk(cfg, st)
    ensures var st' := Step(cfg, st, Load(id));
      st' == st.(index := st'.index) &&
      (Has(st'.index, pair, up, x) <==>
        Has(st.index, pair, up, x) || (Found(st, id, true) && pair == st.store[id].Pair() && EntryOfLevel(st.store[id], up, x)))
  {
    OwnId(cfg, st, id);
    if Live(st, id, true) {
      var p := st.store[id];
      RegisterAllHas(st.index, p, p.Those(LevelActive), |p.levels|, pair, up, x);
    }
    hide Has, RegisterAll, StoreOk, ExecuteStep, RestartStep;
  }

  /** The entry of an active level of a live position that is listed. */
  ghost predicate Listed(st: State, ids: seq<PosId>, pair: TokenPair, up: bool, x: Entry) {
    exists id :: id in ids && Found(st, id, true) && pair == st.store[id].Pair() && EntryOfLevel(st.store[id], up, x)
  }

  /** A new process knows nothing but the entries of the positions listed, whatever the index held, and nothing is in flight. */
  lemma RestartMeans(cfg: Config, st: State, ids: seq<PosId>, pair: TokenPair, up: bool, x: Entry)
    requires StoreOk(cfg, st)
    ensures var st' := RestartStep(st, ids);
      st' == st.(index := st'.index, inflight := multiset{}) && (Has(st'.index, pair, up, x) <==> Listed(st, ids, pair, up, x))
  {
    LoadingMeans(cfg, Crash(st), ids, pair, up, x);
    assert !Has(map[], pair, up, x);
    hide Has, LoadAll, EntryOfLevel, StoreOk;
  }

  lemma {:induction false} LoadingMeans(cfg: Config, st: State, ids: seq<PosId>, pair: TokenPair, up: bool, x: Entry)
    requires StoreOk(cfg, st)
    ensures var st' := LoadAll(st, ids);
      st' == st.(index := st'.index) &&
      (Has(st'.index, pair, up, x) <==> Has(st.index, pair, up, x) || Listed(st, ids, pair, up, x))
  {
    if ids != [] {
      var init, id := ids[..|ids| - 1], ids[|ids| - 1];
      LoadingMeans(cfg, st, init, pair, up, x);
      var mid := LoadAll(st, init);
      assert mid.store == st.store;
      LoadMeans(cfg, mid, id, pair, up, x);
      assert LoadAll(st, ids) == Step(cfg, mid, Load(id)) by {
        hide ExecuteStep, RestartStep;
      }
      ListedSnoc(st, ids, pair, up, x);
      hide Has, LoadAll, EntryOfLevel, StoreOk, Step, Position.Pair, Listed;
    }
  }

  lemma ListedSnoc(st: State, ids: seq<PosId>, pair: TokenPair, up: bool, x: Entry)
    requires ids != []
    ensures var init, id := ids[..|ids| - 1], ids[|ids| - 1];
      Listed(st, ids, pair, up, x) <==>
      Listed(st, init, pair, up, x) || (Found(st, id, true) && pair == st.store[id].Pair() && EntryOfLevel(st.store[id], up, x))
  {
    hide EntryOfLevel, Position.Pair;
    var init, id := ids[..|ids| - 1], ids[|ids| - 1];
    assert ids == init + [id];
  }

  /** An execution that is put back registers its level again, at its price, and takes its event. */
  lemma RequeueMeans(cfg: Config, st: State, ev: Event, env: Env, pair: TokenPair, up: bool, x: Entry)
    requires StoreOk(cfg, st) && ev in st.inflight && OutcomeOf(cfg, st, ev, env) in {Requeued, Unconfirmed}
    ensures var p, st' := st.store[ev.pos], ExecuteStep(cfg, st, ev, env);
      ev.level < |p.levels| && st'.inflight == st.inflight - multiset{ev} &&
      (Has(st'.index, pair, up, x) <==>
        Has(st.index, pair, up, x) ||
        (pair == p.Pair() && up == ((p.levels[ev.level].typ == TP) == (p.direction == Long)) &&
         x == Entry(p.levels[ev.level].triggerPrice, ev.pos, ev.level, p.levels[ev.level].typ)))
  {
    OwnId(cfg, st, ev.pos);
    var q := AtSwap(cfg, st, ev, env);
    if OutcomeOf(cfg, st, ev, env) == Requeued {
      RequeuedState(cfg, st, ev, env);
    } else {
      UnstoredState(cfg, st, ev, env);
    }
    RegisterHas(st.index, q.Pair(), q.Up(ev.level), q.EntryOf(ev.level), pair, up, x);
    hide ExecuteStep, Has, Register, Debit, GrantsAt, Covers, SwapOf;
  }

  // ---- Prices ----

  /**
   A price takes what it reaches out of the index and puts an event for each entry in flight, carrying that price;
   nothing else changes.
   */
  lemma PriceMeans(st: State, pair: TokenPair, price: int)
    ensures var st' := PriceStep(st, pair, price);
      st' == st.(index := st'.index, inflight := st'.inflight) && st.inflight <= st'.inflight &&
      (forall q: TokenPair, up: bool, x: Entry :: Has(st'.index, q, up, x) <==> Has(st.index, q, up, x) && !(q == pair && Reaches(up, x, price))) &&
      (forall ev :: ev in st'.inflight ==> ev in st.inflight || Reported(st.index, pair, price, ev)) &&
      (forall up: bool, x: Entry :: Has(st.index, pair, up, x) && Reaches(up, x, price) ==>
         exists ev :: ev in st'.inflight && Reports(ev, x, price, pair.chain))
  {
    FiredMeans(st.index, pair, price);
    forall q: TokenPair, up: bool, x: Entry
      ensures Has(PriceStep(st, pair, price).index, q, up, x) <==> Has(st.index, q, up, x) && !(q == pair && Reaches(up, x, price))
    {
      OnPriceHas(st.index, pair, price, q, up, x);
      hide Has, OnPrice;
    }
    hide OnPrice, Reported;
  }

  /** The events of a price, one for each entry it takes. */
  lemma PriceCounts(st: State, pair: TokenPair, price: int)
    ensures var st' := PriceStep(st, pair, price);
      |At(st'.index, pair).above| + |At(st'.index, pair).below| + |st'.inflight| ==
      |At(st.index, pair).above| + |At(st.index, pair).below| + |st.inflight|
  {
    EntriesBecomeEvents(st.index, pair, price);
    hide OnPrice;
  }

  /**
   A price whose events are cut off leaves the index of a whole one. Nothing is sent at first, each further
   event sent is the next one fired, and when there is room for all of them nothing is lost.
   */
  lemma CutPriceMeans(st: State, pair: TokenPair, price: int, sent: nat)
    ensures var events, whole := OnPrice(st.index, pair, price).1, PriceStep(st, pair, price);
      var st', next := CutPriceStep(st, pair, price, sent), CutPriceStep(st, pair, price, sent + 1);
      st' == whole.(inflight := st'.inflight) && (sent == 0 ==> st'.inflight == st.inflight) &&
      if sent < |events| then next.inflight == st'.inflight + multiset{events[sent]} else st' == whole
  {
    hide OnPrice;
    var events := OnPrice(st.index, pair, price).1;
    if sent < |events| {
      assert events[..sent + 1] == events[..sent] + [events[sent]];
      if sent + 1 == |events| { assert events[..sent + 1] == events; }
    } else if sent == |events| {
      assert events[..sent] == events;
    }
  }

  /**
   What moving the stop-loss is for: once the take-profit's execution is stored, a price puts the stop-loss in
   flight exactly if it is at the new level or worse, wherever the stop-loss was before.
   */
  lemma MovedStopLossFires(cfg: Config, st: State, ev: Event, env: Env, j: nat, price: int)
    requires StoreOk(cfg, st) && ev in st.inflight && OutcomeOf(cfg, st, ev, env) == Recorded
    requires ev.pos in st.store && ev.level < |st.store[ev.pos].levels| && Moves(st.store[ev.pos], ev.level, j)
    requires !InFlight(ExecuteStep(cfg, st, ev, env).inflight, ev.pos, j)
    ensures var p := st.store[ev.pos];
      var to := p.levels[ev.level].moveSLTo.value;
      InFlight(PriceStep(ExecuteStep(cfg, st, ev, env), p.Pair(), price).inflight, ev.pos, j) <==>
        if p.direction == Long then price <= to else to <= price
  {
    var p, st' := st.store[ev.pos], ExecuteStep(cfg, st, ev, env);
    RecordedState(cfg, st, ev, env);
    var q := AtSwap(cfg, st, ev, env);
    assert Moves(q, ev.level, j);
    var e, up := Entry(p.levels[ev.level].moveSLTo.value, ev.pos, j, SL), p.direction == Short;
    forall u: bool
      ensures Entries(st'.index, p.Pair(), u, ev.pos, j) == if u == up then [e] else []
    {
      FiringIndexes(st.index, q, ev.level, ev.price, j, u);
    }
    hide ExecuteStep, OutcomeOf, StoreOk, FiredIndex, Fired, Entries, Moves;
    OneEntryFires(st', p.Pair(), ev.pos, j, up, e, price);
  }

  lemma OneEntryFires(st: State, pair: TokenPair, pos: PosId, level: nat, up: bool, e: Entry, price: int)
    requires e.pos == pos && e.level == level && !InFlight(st.inflight, pos, level)
    requires forall u: bool :: Entries(st.index, pair, u, pos, level) == if u == up then [e] else []
    ensures InFlight(PriceStep(st, pair, price).inflight, pos, level) <==> Reaches(up, e, price)
  {
    PriceMeans(st, pair, price);
    var st' := PriceStep(st, pair, price);
    assert e in Entries(st.index, pair, up, pos, level);
    SelectMember(At(st.index, pair).Of(up), OfLevels(pos, {level}), e);
    if InFlight(st'.inflight, pos, level) {
      var ev :| ev in st'.inflight && ev.pos == pos && ev.level == level;
      var u: bool, x: Entry :| x in At(st.index, pair).Of(u) && Reaches(u, x, price) && Reports(ev, x, price, pair.chain);
      SelectMember(At(st.index, pair).Of(u), OfLevels(pos, {level}), x);
      assert x in Entries(st.index, pair, u, pos, level);
    }
    hide PriceStep, Entries, Reaches;
  }
}
