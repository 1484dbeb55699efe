/**
 What an executed level leaves behind, field by field and in terms of what was there before: its own record, the
 levels it takes down, and where a take-profit moves the stop-loss.
 */
module Firing {
  import opened Types
  import opened TriggerIndex
  import opened Lifecycle
  import opened SwapOnce

  /** Level `j` is open once level `i` has fired: a stop-loss leaves none, a take-profit those it does not list. */
  predicate StillOpen(p: Position, i: nat, j: nat)
    requires i < |p.levels|
  {
    && j < |p.levels| && j != i && p.levels[j].status == LevelActive
    && p.levels[i].typ == TP && j !in p.levels[i].cancelOnFire
  }

  /** Level `i` is a take-profit that moves the stop-loss, and level `j` the first one still open. */
  predicate Moves(p: Position, i: nat, j: nat)
    requires i < |p.levels|
  {
    && p.levels[i].typ == TP && p.levels[i].moveSLTo.Some? && p.levels[i].moveSLTo.value > 0
    && StillOpen(p, i, j) && p.levels[j].typ == SL
    && forall k :: 0 <= k < j ==> !(StillOpen(p, i, k) && p.levels[k].typ == SL)
  }

  /** One level before and after level `i` has fired at a market price. */
  predicate LevelAfter(p: Position, i: nat, price: int, j: nat, l: Level)
    requires i < |p.levels| && j < |p.levels|
  {
    var was := p.levels[j];
    && l.index == was.index && l.typ == was.typ && l.portionBps == was.portionBps
    && l.moveSLTo == was.moveSLTo && l.cancelOnFire == was.cancelOnFire
    && l.triggerPrice == (if Moves(p, i, j) then p.levels[i].moveSLTo.value else was.triggerPrice)
    && l.status == (if j == i then LevelTriggered
                    else if was.status == LevelActive && !StillOpen(p, i, j) then LevelCancelled
                    else was.status)
    && l.execPrice == (if j == i then Some(price) else was.execPrice)
    && l.execAmount == (if j == i then Some(p.remainingSize * was.portionBps / 10000) else was.execAmount)
  }

  /** The whole position before and after. */
  ghost predicate PositionAfter(p: Position, i: nat, price: int, p': Position)
    requires i < |p.levels|
  {
    var left := p.remainingSize - p.remainingSize * p.levels[i].portionBps / 10000;
    && p' == p.(levels := p'.levels, remainingSize := p'.remainingSize, state := p'.state)
    && |p'.levels| == |p.levels| && (forall j :: 0 <= j < |p.levels| ==> LevelAfter(p, i, price, j, p'.levels[j]))
    && p'.remainingSize == (if left > 0 then left else 0)
    && p'.state == if left > 0 && exists j: nat :: StillOpen(p, i, j) then StatePartialClosed else StateClosed
  }

  lemma TakenMeans(p: Position, i: nat, j: nat)
    requires i < |p.levels| && j < |p.levels|
    ensures j in TakenDown(p, i) <==> j != i && p.levels[j].status == LevelActive && !StillOpen(p, i, j)
  {
  }

  /** The levels before a stop-loss is moved. */
  lemma BeforeMoving(p: Position, i: nat, price: int, j: nat)
    requires i < |p.levels| && p.levels[i].status == LevelActive && j < |p.levels|
    ensures var l, was := FiredLevels(p, i, price)[j], p.levels[j];
      l.triggerPrice == was.triggerPrice && l.typ == was.typ && (l.status == LevelActive <==> StillOpen(p, i, j)) &&
      l == was.(status := l.status, execPrice := l.execPrice, execAmount := l.execAmount) &&
      l.status == (if j == i then LevelTriggered
                   else if was.status == LevelActive && !StillOpen(p, i, j) then LevelCancelled else was.status) &&
      l.execPrice == (if j == i then Some(price) else was.execPrice) &&
      l.execAmount == (if j == i then Some(p.remainingSize * was.portionBps / 10000) else was.execAmount)
  {
    TakenMeans(p, i, j);
    hide TakenDown;
  }

  /** The search for a stop-loss finds the one that is to be moved. */
  lemma MovedMeans(p: Position, i: nat, price: int)
    requires i < |p.levels| && p.levels[i].status == LevelActive
    ensures forall j: nat :: j < |p.levels| ==> (MovedSL(p, i, price) == Some(j) <==> Moves(p, i, j))
  {
    var ls := FiredLevels(p, i, price);
    ActiveSLIsFirst(ls, 0);
    forall j: nat | j < |p.levels|
      ensures ls[j].typ == p.levels[j].typ && (ls[j].status == LevelActive <==> StillOpen(p, i, j))
    {
      BeforeMoving(p, i, price, j);
    }
    hide FiredLevels, StillOpen, ActiveSL;
  }

  /** Firing a level does exactly this, at the market price it is given. */
  lemma FiringMeans(p: Position, i: nat, price: int)
    requires i < |p.levels| && p.levels[i].status == LevelActive
    ensures PositionAfter(p, i, price, Fired(p, i, price))
  {
    var p', sl := Fired(p, i, price), MovedSL(p, i, price);
    MovedMeans(p, i, price);
    forall j: nat | j < |p.levels|
      ensures LevelAfter(p, i, price, j, p'.levels[j]) && (p'.levels[j].status == LevelActive <==> StillOpen(p, i, j))
    {
      BeforeMoving(p, i, price, j);
      hide FiredLevels, MovedSL, StillOpen;
    }
    assert NoneIs(p'.levels, LevelActive) <==> !exists j: nat :: StillOpen(p, i, j) by {
      hide Fired;
    }
    assert p.levels[i].typ == SL ==> !exists j: nat :: StillOpen(p, i, j);
    hide FiredLevels, MovedSL, LevelAfter, StillOpen;
  }

  /** So does every execution that is stored, at the price its event carries. */
  lemma RecordedMeans(cfg: Config, st: State, ev: Event, env: Env)
    requires StoreOk(cfg, st) && ev in st.inflight && OutcomeOf(cfg, st, ev, env) == Recorded
    ensures var p, st' := AtSwap(cfg, st, ev, env), ExecuteStep(cfg, st, ev, env);
      ev.level < |p.levels| && ev.pos in st'.store && PositionAfter(p, ev.level, ev.price, st'.store[ev.pos]) &&
      p == st.store[ev.pos].(permit := p.permit) && st'.store == st.store[ev.pos := st'.store[ev.pos]]
  {
    RecordedState(cfg, st, ev, env);
    FiringMeans(AtSwap(cfg, st, ev, env), ev.level, ev.price);
    hide Fired, ExecuteStep, PositionAfter;
  }

  // ---- The index ----

  /** The entries of one level on one side of a pair. */
  function Entries(ix: Index, pair: TokenPair, up: bool, pos: PosId, level: nat): seq<Entry> {
    Select(At(ix, pair).Of(up), OfLevels(pos, {level}))
  }

  lemma {:induction false} RejectedEntries(s: seq<Entry>, pos: PosId, those: set<nat>, level: nat)
    ensures Select(Reject(s, OfLevels(pos, those)), OfLevels(pos, {level})) ==
            if level in those then [] else Select(s, OfLevels(pos, {level}))
  {
    if s != [] {
      var init, e := s[..|s| - 1], s[|s| - 1];
      var kept := Reject(init, OfLevels(pos, those));
      RejectedEntries(init, pos, those, level);
      SelectSnoc(kept, e, OfLevels(pos, {level}));
      assert Reject(s, OfLevels(pos, those)) == if OfLevels(pos, those).Hits(e) then kept else kept + [e];
    }
  }

  lemma {:induction false} InsertedEntries(s: seq<Entry>, e: Entry, sel: Selector)
    ensures !sel.Hits(e) ==> Select(Insert(s, e), sel) == Select(s, sel)
    ensures sel.Hits(e) && Select(s, sel) == [] ==> Select(Insert(s, e), sel) == [e]
  {
    if s == [] || s[|s| - 1].price <= e.price {
      SelectSnoc(s, e, sel);
    } else {
      var init, last := s[..|s| - 1], s[|s| - 1];
      InsertedEntries(init, e, sel);
      SelectSnoc(Insert(init, e), last, sel);
    }
  }

  lemma RemovedEntries(ix: Index, pair: TokenPair, up: bool, pos: PosId, those: set<nat>, level: nat)
    ensures Entries(Remove(ix, pair, OfLevels(pos, those)), pair, up, pos, level) ==
            if level in those then [] else Entries(ix, pair, up, pos, level)
  {
    RejectedEntries(At(ix, pair).Of(up), pos, those, level);
  }

  lemma RegisteredEntries(ix: Index, pair: TokenPair, side: bool, e: Entry, up: bool, level: nat)
    ensures var ix' := Register(ix, pair, side, e);
      (level != e.level || up != side ==> Entries(ix', pair, up, e.pos, level) == Entries(ix, pair, up, e.pos, level)) &&
      (level == e.level && up == side && Entries(ix, pair, up, e.pos, level) == [] ==> Entries(ix', pair, up, e.pos, level) == [e])
  {
    InsertedEntries(At(ix, pair).Of(side), e, OfLevels(e.pos, {level}));
  }

  /**
   The index afterwards: a stop-loss that has been moved has one entry, at its new price, a level that has been
   taken down has none, and the others have those they had.
   */
  lemma FiringIndexes(ix: Index, p: Position, i: nat, price: int, j: nat, up: bool)
    requires i < |p.levels| && p.levels[i].status == LevelActive && j < |p.levels|
    ensures Entries(FiredIndex(ix, p, i, price), p.Pair(), up, p.id, j) ==
      if Moves(p, i, j) then
        if up == (p.direction == Short) then [Entry(p.levels[i].moveSLTo.value, p.id, j, SL)] else []
      else if j != i && p.levels[j].status == LevelActive && !StillOpen(p, i, j) then []
      else Entries(ix, p.Pair(), up, p.id, j)
  {
    var sl, p' := MovedSL(p, i, price), Fired(p, i, price);
    MovedMeans(p, i, price);
    TakenMeans(p, i, j);
    FiringMeans(p, i, price);
    var ix1 := Remove(ix, p.Pair(), OfLevels(p.id, TakenDown(p, i)));
    RemovedEntries(ix, p.Pair(), up, p.id, TakenDown(p, i), j);
    if sl.Some? {
      var e, ix2 := p'.EntryOf(sl.value), Unregister(ix1, p.Pair(), p.id, sl.value);
      assert LevelAfter(p, i, price, sl.value, p'.levels[sl.value]);
      assert Moves(p, i, sl.value);
      RemovedEntries(ix1, p.Pair(), up, p.id, {sl.value}, j);
      RegisteredEntries(ix2, p.Pair(), p'.Up(sl.value), e, up, j);
    }
    hide Entries, Register, Remove, TakenDown, StillOpen, MovedSL, Fired;
  }
}
