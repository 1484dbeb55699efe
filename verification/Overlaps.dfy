/**
 Operations on one position that overlap. Only executeTrigger holds the position's lock, and it holds its copy
 of the position from its first read until the swap's receipt has come. What it then stores takes no account
 of what the other operations stored meanwhile; nor does what any of those stores of one another.
 */
module Overlaps {
  import opened Types
  import opened TriggerIndex
  import opened Amounts
  import opened Lifecycle
  import opened SwapOnce
  import opened Coverage
  import opened Upkeep
  import opened FailedWrites
  import opened SwapTwice

  /** The same operation with a store write that fails. */
  function Failing(op: Op): Op
    requires Unlocked(op)
  {
    match op
    case UpdateLevel(id, level, price, getOk, _) => UpdateLevel(id, level, price, getOk, false)
    case AddLevel(id, lp, getOk, _) => AddLevel(id, lp, getOk, false)
    case RemoveLevel(id, level, getOk, _) => RemoveLevel(id, level, getOk, false)
    case Cancel(id, getOk, _) => Cancel(id, getOk, false)
    case Renew(id, owner, signed, nonce, deadline, amount, getOk, _) =>
      Renew(id, owner, signed, nonce, deadline, amount, getOk, false)
    case Expire(id, now, _) => Expire(id, now, false)
  }

  predicate Edits(op: Op) {
    op.UpdateLevel? || op.AddLevel? || op.RemoveLevel?
  }

  lemma UnlockedKeeps(cfg: Config, st: State, op: Op)
    requires Unlocked(op)
    ensures var st' := Step(cfg, st, op);
      st'.grants == st.grants && st'.swaps == st.swaps && st'.inflight == st.inflight
  {
    hide Register, Remove, RegisterAll, UpdateTriggerPrice, SetStatus, ExpiryDue, ExecuteStep, RestartStep, PriceStep, CutPriceStep;
  }

  /** Of the store an unlocked operation touches its own position. */
  lemma UnlockedStores(cfg: Config, st: State, op: Op, p: Position)
    requires Unlocked(op) && op.id in st.store && st.store[op.id].id == op.id
    ensures Step(cfg, st, op).store[op.id := p] == st.store[op.id := p]
  {
    hide Register, Remove, RegisterAll, UpdateTriggerPrice, SetStatus, ExecuteStep, RestartStep, PriceStep, CutPriceStep, OpenStep, LoadStep;
    if Edits(op) {
      hide CancelStep, RenewStep, ExpireStep;
    } else {
      hide UpdateStep, AddStep, RemoveStep;
    }
  }

  /** The permit may have been activated in between. */
  predicate SameButActivated(st: State, mid: State, id: PosId) {
    && id in st.store && id in mid.store && mid.index == st.index
    && (mid.store[id] == st.store[id] || mid.store[id] == Activated(st.store[id]))
  }

  /** A failed operation does to the index what it does anyhow. */
  lemma FailingIndexes(cfg: Config, st: State, mid: State, op: Op)
    requires Unlocked(op) && SameButActivated(st, mid, op.id)
    ensures Step(cfg, st, Failing(op)) == st.(index := Step(cfg, mid, op).index)
  {
    if Edits(op) {
      FailingEdits(cfg, st, mid, op);
    } else {
      FailingSweeps(cfg, st, mid, op);
    }
  }

  lemma FailingEdits(cfg: Config, st: State, mid: State, op: Op)
    requires Edits(op) && SameButActivated(st, mid, op.id)
    ensures Step(cfg, st, Failing(op)) == st.(index := Step(cfg, mid, op).index)
  {
    hide Register, Remove, RegisterAll, UpdateTriggerPrice, FiresAbove, ExecuteStep, RestartStep, PriceStep, CutPriceStep,
         CancelStep, RenewStep, ExpireStep, OpenStep, LoadStep;
    assert Live(mid, op.id, op.getOk) == Live(st, op.id, op.getOk);
  }

  lemma FailingSweeps(cfg: Config, st: State, mid: State, op: Op)
    requires Unlocked(op) && !Edits(op) && SameButActivated(st, mid, op.id)
    ensures Step(cfg, st, Failing(op)) == st.(index := Step(cfg, mid, op).index)
  {
    hide Register, Remove, RegisterAll, UpdateTriggerPrice, SetStatus, FiresAbove, ExecuteStep, RestartStep, PriceStep, CutPriceStep,
         UpdateStep, AddStep, RemoveStep, OpenStep, LoadStep;
    var p, q := st.store[op.id], mid.store[op.id];
    assert q.Those(LevelActive) == p.Those(LevelActive) && q.Those(LevelSuspended) == p.Those(LevelSuspended);
    if op.Renew? {
      assert Renewed(q, op.signed, op.nonce, op.deadline, op.amount) == Renewed(p, op.signed, op.nonce, op.deadline, op.amount);
    } else if op.Cancel? {
      assert Live(mid, op.id, op.getOk) == Live(st, op.id, op.getOk);
    } else {
      assert ExpiryDue(mid, op.id, op.now) == ExpiryDue(st, op.id, op.now);
    }
  }

  /**
   An execution that reads its position in `st`, activates its permit if need be, waits while `op` takes
   place, and then stores what it made of what it read.
   */
  function LateExecution(cfg: Config, st: State, ev: Event, env: Env, op: Op): State
    requires OutcomeOf(cfg, st, ev, env) == Recorded && Unlocked(op)
  {
    UnlockedKeeps(cfg, ActivateStep(cfg, st, ev, env), op);
    SettleStep(cfg, Step(cfg, ActivateStep(cfg, st, ev, env), op), AtSwap(cfg, st, ev, env), ev, Recorded)
  }

  /** It acts as if the store write of the other operation had failed, and the execution had come after it. */
  lemma LateExecutionIsFailedWrite(cfg: Config, st: State, ev: Event, env: Env, op: Op)
    requires StoreOk(cfg, st) && ev in st.inflight && OutcomeOf(cfg, st, ev, env) == Recorded
    requires Unlocked(op) && op.id == ev.pos
    ensures LateExecution(cfg, st, ev, env, op) == ExecuteStep(cfg, Step(cfg, st, Failing(op)), ev, env)
  {
    var mid, p, st2 := ActivateStep(cfg, st, ev, env), AtSwap(cfg, st, ev, env), Step(cfg, st, Failing(op));
    assert WellFormed(cfg, ev.pos, st.store[ev.pos]);
    UnlockedKeeps(cfg, mid, op);
    Activating(cfg, st, ev, env, Fired(p, ev.level, ev.price));
    FailingIndexes(cfg, st, mid, op);
    UnlockedStores(cfg, mid, op, Fired(p, ev.level, ev.price));
    SameOutcome(cfg, st, st2, ev, env);
    RecordedState(cfg, st2, ev, env);
    hide ExecuteStep, OutcomeOf, ActivateStep, AtSwap, Activates, GrantsAt, Step, Fired, FiredIndex, SwapOf, Debit, Covers, StoreOk;
  }

  /** What the activation leaves for the operation to find. */
  lemma Activating(cfg: Config, st: State, ev: Event, env: Env, q: Position)
    requires ev.pos in st.store && st.store[ev.pos].id == ev.pos
    ensures var mid, p := ActivateStep(cfg, st, ev, env), AtSwap(cfg, st, ev, env);
      p.id == ev.pos && mid.index == st.index && mid.swaps == st.swaps && mid.inflight == st.inflight - multiset{ev} &&
      mid.grants == GrantsAt(cfg, st, ev, env) && ev.pos in mid.store && mid.store[ev.pos].id == ev.pos &&
      (mid.store[ev.pos] == st.store[ev.pos] || mid.store[ev.pos] == Activated(st.store[ev.pos])) &&
      mid.store[ev.pos := q] == st.store[ev.pos := q]
  {
    hide Activates, GrantsAt;
  }

  /** An execution does not look at the index. */
  lemma SameOutcome(cfg: Config, st: State, st2: State, ev: Event, env: Env)
    requires st2 == st.(index := st2.index)
    ensures OutcomeOf(cfg, st2, ev, env) == OutcomeOf(cfg, st, ev, env)
    ensures ev.pos in st.store ==> AtSwap(cfg, st2, ev, env) == AtSwap(cfg, st, ev, env)
    ensures GrantsAt(cfg, st2, ev, env) == GrantsAt(cfg, st, ev, env)
    ensures StoreOk(cfg, st) ==> StoreOk(cfg, st2)
  {
  }

  /**
   So all that a run shows of such an overlap is a write that failed: in the store, in the log and in the
   allowances the execution leaves what it would have left alone. No level is swapped twice by it.
   */
  lemma LateExecutionUndoes(cfg: Config, st: State, ev: Event, env: Env, op: Op)
    requires StoreOk(cfg, st) && ev in st.inflight && OutcomeOf(cfg, st, ev, env) == Recorded
    requires Unlocked(op) && op.id == ev.pos
    ensures var late, alone := LateExecution(cfg, st, ev, env, op), ExecuteStep(cfg, st, ev, env);
      late == alone.(index := late.index) && (Once(st) ==> Once(late))
  {
    var st2 := Step(cfg, st, Failing(op));
    LateExecutionIsFailedWrite(cfg, st, ev, env, op);
    assert WellFormed(cfg, ev.pos, st.store[ev.pos]);
    FailingIndexes(cfg, st, st, op);
    SameOutcome(cfg, st, st2, ev, env);
    RecordedState(cfg, st, ev, env);
    RecordedState(cfg, st2, ev, env);
    hide OutcomeOf, ActivateStep, AtSwap, Activates, GrantsAt, Fired, FiredIndex, SwapOf, Debit, Covers, StoreOk, Once, LateExecution, Failing;
    if Once(st) {
      SameOnce(st, st2);
      StepKeepsOnce(cfg, st2, Execute(ev, env));
      StepExecutes(cfg, st2, ev, env);
    }
  }

  lemma SameOnce(st: State, st2: State)
    requires st2.store == st.store && st2.swaps == st.swaps && Once(st)
    ensures Once(st2)
  {
  }

  /**
   A cancellation that falls into an execution is undone: the position is never left cancelled, and it is live
   again exactly if a take-profit has fired, leaves some size, and does not take down every other active level.
   */
  lemma CancelUndoneExactlyWhen(cfg: Config, st: State, ev: Event, env: Env)
    requires StoreOk(cfg, st) && ev in st.inflight && OutcomeOf(cfg, st, ev, env) == Recorded
    ensures var s', p, i := LateExecution(cfg, st, ev, env, Cancel(ev.pos, true, true)), st.store[ev.pos], ev.level;
      ev.pos in s'.store && s'.store[ev.pos].state != StateCancelled && i < |p.levels| &&
      (!s'.store[ev.pos].state.IsTerminal() <==>
        p.levels[i].typ == TP && Left(p.remainingSize, p.levels[i].portionBps) > 0 &&
        exists j: nat :: j < |p.levels| && j != i && p.levels[j].status == LevelActive && j !in TakenDown(p, i))
  {
    LateExecutionUndoes(cfg, st, ev, env, Cancel(ev.pos, true, true));
    RecordedState(cfg, st, ev, env);
    var p, q := st.store[ev.pos], AtSwap(cfg, st, ev, env);
    assert q == p || q == Activated(p);
    hide LateExecution, ExecuteStep, Activates, SwapOf, Debit, GrantsAt, FiredIndex, StoreOk, Once;
    FiredStaysOpen(q, ev.level, ev.price);
    assert TakenDown(q, ev.level) == TakenDown(p, ev.level);
  }

  lemma FiredStaysOpen(p: Position, i: nat, price: int)
    requires i < |p.levels| && p.levels[i].status == LevelActive
    ensures var p' := Fired(p, i, price);
      p'.state in {StateClosed, StatePartialClosed} &&
      (!p'.state.IsTerminal() <==>
        p.levels[i].typ == TP && Left(p.remainingSize, p.levels[i].portionBps) > 0 &&
        exists j: nat :: j < |p.levels| && j != i && p.levels[j].status == LevelActive && j !in TakenDown(p, i))
  {
    var p' := Fired(p, i, price);
    forall j: nat | j < |p.levels|
      ensures p'.levels[j].status == LevelActive <==> j != i && p.levels[j].status == LevelActive && j !in TakenDown(p, i)
    {
    }
  }

  // ---- What such an overlap loses ----

  /** Level `j` is open after level `i` has fired, and not registered again by it. */
  predicate StaysOpen(p: Position, i: nat, price: int, j: nat)
    requires i < |p.levels|
  {
    j < |p.levels| && j != i && p.levels[j].status == LevelActive && j !in TakenDown(p, i) && MovedSL(p, i, price) != Some(j)
  }

  /** Agreement but for the prices of some levels. */
  ghost predicate AgreesBut(p: Position, loose: set<nat>, ix: Index) {
    forall q: TokenPair, u: bool, x: Entry :: Has(ix, q, u, x) && x.pos == p.id ==>
      x.level < |p.levels| && EntryFor(if x.level in loose then Repriced(p, x.level, x.price) else p, q, u, x)
  }

  lemma FiredIndexHas(ix: Index, p: Position, i: nat, price: int, q: TokenPair, u: bool, x: Entry)
    requires i < |p.levels|
    ensures var p', sl := Fired(p, i, price), MovedSL(p, i, price);
      Has(FiredIndex(ix, p, i, price), q, u, x) <==>
        (Has(ix, q, u, x) && !(q == p.Pair() && x.pos == p.id && (x.level in TakenDown(p, i) || sl == Some(x.level)))) ||
        (sl.Some? && q == p.Pair() && u == p'.Up(sl.value) && x == p'.EntryOf(sl.value))
  {
    var sl, p' := MovedSL(p, i, price), Fired(p, i, price);
    var ix1 := Remove(ix, p.Pair(), OfLevels(p.id, TakenDown(p, i)));
    RemoveHas(ix, p.Pair(), OfLevels(p.id, TakenDown(p, i)), q, u, x);
    if sl.Some? {
      var e := p'.EntryOf(sl.value);
      RemoveHas(ix1, p.Pair(), OfLevels(p.id, {sl.value}), q, u, x);
      RegisterHas(Unregister(ix1, p.Pair(), p.id, sl.value), p.Pair(), p'.Up(sl.value), e, q, u, x);
    }
    hide Has, Remove, Register, FiresAbove;
  }

  /** A level after level `i` has fired. */
  lemma FiredLevel(p: Position, i: nat, price: int, j: nat)
    requires i < |p.levels| && p.levels[i].status == LevelActive && j < |p.levels|
    ensures var p', sl := Fired(p, i, price), MovedSL(p, i, price);
      |p'.levels| == |p.levels| && p'.id == p.id && p'.Pair() == p.Pair() && p'.direction == p.direction &&
      p'.levels[j].typ == p.levels[j].typ && p'.levels[j].index == p.levels[j].index &&
      (p'.levels[j].status == LevelSuspended <==> p.levels[j].status == LevelSuspended) &&
      (p'.levels[j].status == LevelActive <==> StaysOpen(p, i, price, j) || sl == Some(j)) &&
      (sl != Some(j) ==> p'.levels[j].triggerPrice == p.levels[j].triggerPrice)
  {
    var ls, sl := FiredLevels(p, i, price), MovedSL(p, i, price);
    BeforeMove(p, i, price, j);
    assert sl.Some? ==> sl.value < |ls| && ls[sl.value].status == LevelActive by {
      ActiveSLIsFirst(ls, 0);
      hide FiredLevels;
    }
    hide FiredLevels, MovedSL, TakenDown;
  }

  lemma BeforeMove(p: Position, i: nat, price: int, j: nat)
    requires i < |p.levels| && p.levels[i].status == LevelActive && j < |p.levels|
    ensures var l, l' := p.levels[j], FiredLevels(p, i, price)[j];
      l'.typ == l.typ && l'.index == l.index && l'.triggerPrice == l.triggerPrice &&
      (l'.status == LevelSuspended <==> l.status == LevelSuspended) &&
      (l'.status == LevelActive <==> j != i && l.status == LevelActive && j !in TakenDown(p, i))
  {
    hide MulBps;
  }

  /** Firing a level mends what it re-registers, takes down or closes, and nothing else. */
  lemma FiredCoversExactly(p: Position, i: nat, price: int, loose: set<nat>, ix: Index, fl: multiset<Event>)
    requires i < |p.levels| && p.levels[i].status == LevelActive && AgreesBut(p, loose, ix)
    requires forall j: nat :: j in loose ==> !StaysOpen(p, i, price, j)
    ensures var p', ix' := Fired(p, i, price), FiredIndex(ix, p, i, price);
      OthersKept(ix, ix', p.id) && Agrees(p', ix') &&
      (Covered(p', ix', fl) <==>
        p'.state.IsTerminal() || forall j: nat :: j < |p.levels| && StaysOpen(p, i, price, j) ==> Tracked(p, ix, fl, j))
  {
    var p', ix', sl := Fired(p, i, price), FiredIndex(ix, p, i, price), MovedSL(p, i, price);
    hide Fired, FiredIndex, MovedSL, Has, TakenDown, FiresAbove, StaysOpen;
    forall q: TokenPair, u: bool, x: Entry
      ensures x.pos != p.id ==> (Has(ix', q, u, x) <==> Has(ix, q, u, x))
      ensures Has(ix', q, u, x) && x.pos == p.id ==> EntryFor(p', q, u, x)
    {
      FiredEntry(p, i, price, loose, ix, q, u, x);
    }
    forall j: nat | j < |p.levels|
      ensures StaysOpen(p, i, price, j) ==> (Tracked(p', ix', fl, j) <==> Tracked(p, ix, fl, j))
      ensures sl == Some(j) ==> Tracked(p', ix', fl, j)
      ensures p'.levels[j].status == LevelActive <==> StaysOpen(p, i, price, j) || sl == Some(j)
    {
      FiredTracks(p, i, price, ix, fl, j);
    }
    FiredLevel(p, i, price, i);
    hide Tracked, EntryFor;
  }

  lemma FiredEntry(p: Position, i: nat, price: int, loose: set<nat>, ix: Index, q: TokenPair, u: bool, x: Entry)
    requires i < |p.levels| && p.levels[i].status == LevelActive && AgreesBut(p, loose, ix)
    requires forall j: nat :: j in loose ==> !StaysOpen(p, i, price, j)
    ensures var p', ix' := Fired(p, i, price), FiredIndex(ix, p, i, price);
      (x.pos != p.id ==> (Has(ix', q, u, x) <==> Has(ix, q, u, x))) &&
      (Has(ix', q, u, x) && x.pos == p.id ==> EntryFor(p', q, u, x))
  {
    var sl := MovedSL(p, i, price);
    FiredIndexHas(ix, p, i, price, q, u, x);
    FiredLevel(p, i, price, i);
    if x.level < |p.levels| { FiredLevel(p, i, price, x.level); }
    if sl.Some? { FiredLevel(p, i, price, sl.value); }
    hide Fired, FiredIndex, MovedSL, Has, TakenDown, FiresAbove;
  }

  lemma FiredTracks(p: Position, i: nat, price: int, ix: Index, fl: multiset<Event>, j: nat)
    requires i < |p.levels| && p.levels[i].status == LevelActive && j < |p.levels|
    ensures var p', ix', sl := Fired(p, i, price), FiredIndex(ix, p, i, price), MovedSL(p, i, price);
      |p'.levels| == |p.levels| && p'.id == p.id &&
      (StaysOpen(p, i, price, j) ==> (Tracked(p', ix', fl, j) <==> Tracked(p, ix, fl, j))) &&
      (sl == Some(j) ==> Tracked(p', ix', fl, j)) &&
      (p'.levels[j].status == LevelActive <==> StaysOpen(p, i, price, j) || sl == Some(j))
  {
    var p' := Fired(p, i, price);
    FiredLevel(p, i, price, j);
    FiredIndexHas(ix, p, i, price, p'.Pair(), p'.Up(j), p'.EntryOf(j));
    hide Fired, FiredIndex, MovedSL, Has, FiresAbove;
  }

  /** What each operation must be for an execution that overlaps with it to leave every active level watched. */
  ghost predicate Undisturbed(p: Position, fl: multiset<Event>, ev: Event, op: Op)
    requires Unlocked(op) && ev.level < |p.levels|
  {
    var closes := Fired(p, ev.level, ev.price).state.IsTerminal();
    match op
    case UpdateLevel(_, level, price, _, _) =>
      0 <= level < |p.levels| && StaysOpen(p, ev.level, ev.price, level) ==> price == p.levels[level].triggerPrice
    case AddLevel(_, _, _, _) => false
    case RemoveLevel(_, level, _, _) =>
      0 <= level && StaysOpen(p, ev.level, ev.price, level) && !closes ==> InFlight(fl, p.id, level)
    case Renew(_, _, _, _, _, _, _, _) => NoneIs(p.levels, LevelSuspended)
    case _ => !closes ==> forall j: nat :: StaysOpen(p, ev.level, ev.price, j) ==> InFlight(fl, p.id, j)
  }

  /** The state in which an execution of `p` ends that finds the index at `ix`. */
  ghost predicate EndsWith(st: State, late: State, p: Position, ix: Index, ev: Event)
    requires ev.level < |p.levels|
  {
    && late.store == st.store[p.id := Fired(p, ev.level, ev.price)] && late.index == FiredIndex(ix, p, ev.level, ev.price)
    && late.inflight == st.inflight - multiset{ev}
  }

  lemma SettlesOver(cfg: Config, st: State, late: State, p: Position, loose: set<nat>, ix: Index, ev: Event)
    requires Watched(cfg, st) && p.id == ev.pos && ev.level < |p.levels| && p.levels[ev.level].status == LevelActive
    requires EndsWith(st, late, p, ix, ev) && WellFormed(cfg, p.id, Fired(p, ev.level, ev.price))
    requires OthersKept(st.index, ix, ev.pos) && AgreesBut(p, loose, ix)
    requires forall j: nat :: j in loose ==> !StaysOpen(p, ev.level, ev.price, j)
    ensures Watched(cfg, late) <==>
      Fired(p, ev.level, ev.price).state.IsTerminal() ||
      forall j: nat :: j < |p.levels| && StaysOpen(p, ev.level, ev.price, j) ==> Tracked(p, ix, late.inflight, j)
  {
    var p' := Fired(p, ev.level, ev.price);
    FiredCoversExactly(p, ev.level, ev.price, loose, ix, late.inflight);
    assert p'.id == p.id;
    hide Fired, FiredIndex, StaysOpen, Tracked, EntryFor, Has, CoveredBut, Agrees, AgreesBut, WellFormed, TakenDown;
    OthersKeptTwice(st.index, ix, late.index, p.id);
    if Covered(p', late.index, late.inflight) {
      OnePosition(cfg, st, late, p');
    } else {
      assert late.store[p.id] == p';
    }
  }

  /** A stray entry that the firing leaves is a stray entry in the end. */
  lemma StrayRemains(cfg: Config, st: State, late: State, p: Position, ix: Index, ev: Event, q: TokenPair, u: bool, x: Entry)
    requires ev.level < |p.levels| && p.levels[ev.level].status == LevelActive
    requires EndsWith(st, late, p, ix, ev) && Has(ix, q, u, x) && x.pos == p.id
    requires x.level >= |p.levels| || (x.level !in TakenDown(p, ev.level) && MovedSL(p, ev.level, ev.price) != Some(x.level))
    requires !EntryFor(Fired(p, ev.level, ev.price), q, u, x)
    ensures !Watched(cfg, late)
  {
    FiredIndexHas(ix, p, ev.level, ev.price, q, u, x);
    assert Fired(p, ev.level, ev.price).id == p.id;
    assert late.store[p.id] == Fired(p, ev.level, ev.price);
    hide Has, Fired, FiredIndex, EntryFor, StoreOk, CoveredBut, MovedSL;
  }

  // ---- Operation by operation ----

  lemma UnderUpdate(cfg: Config, st: State, late: State, p: Position, ev: Event, level: nat, price: int, fl: multiset<Event>)
    requires Watched(cfg, st) && p.id == ev.pos && ev.level < |p.levels| && p.levels[ev.level].status == LevelActive
    requires Agrees(p, st.index) && CoveredBut(p, {ev.level}, st.index, fl) && !p.state.IsTerminal() && fl == st.inflight - multiset{ev}
    requires level < |p.levels| && p.levels[level].status == LevelActive
    requires EndsWith(st, late, p, RepricedIndex(st.index, p, level, price), ev)
    requires WellFormed(cfg, p.id, Fired(p, ev.level, ev.price))
    ensures Watched(cfg, late) <==> (StaysOpen(p, ev.level, ev.price, level) ==> price == p.levels[level].triggerPrice)
  {
    var e, ix := Repriced(p, level, price).EntryOf(level), RepricedIndex(st.index, p, level, price);
    if StaysOpen(p, ev.level, ev.price, level) && price != p.levels[level].triggerPrice {
      RepricedHas(st.index, p, level, price, p.Pair(), p.Up(level), e);
      FiredLevel(p, ev.level, ev.price, level);
      hide Fired, FiredIndex, Has, RepricedIndex;
      StrayRemains(cfg, st, late, p, ix, ev, p.Pair(), p.Up(level), e);
    } else {
      var loose: set<nat> := if price == p.levels[level].triggerPrice then {} else {level};
      hide Fired, FiredIndex, Has, StaysOpen, RepricedIndex, FiresAbove, Tracked, AgreesBut;
      RepricedAgrees(p, level, price, st.index, fl, ev.level, loose);
      SettlesOver(cfg, st, late, p, loose, ix, ev);
      OpenLevels(p, ev.level, ev.price);
    }
  }

  function RepricedIndex(ix: Index, p: Position, level: nat, price: int): Index
    requires level < |p.levels|
  {
    var p1 := Repriced(p, level, price);
    UpdateTriggerPrice(ix, p1.Pair(), p1.Up(level), p1.EntryOf(level))
  }

  lemma RepricedAgrees(p: Position, level: nat, price: int, ix: Index, fl: multiset<Event>, i: nat, loose: set<nat>)
    requires level < |p.levels| && p.levels[level].status == LevelActive && !p.state.IsTerminal()
    requires Agrees(p, ix) && CoveredBut(p, {i}, ix, fl)
    requires if price == p.levels[level].triggerPrice then loose == {} else loose == {level}
    ensures var ix' := RepricedIndex(ix, p, level, price);
      OthersKept(ix, ix', p.id) && AgreesBut(p, loose, ix') &&
      forall j: nat :: j < |p.levels| && p.levels[j].status == LevelActive && j != i && j !in loose ==> Tracked(p, ix', fl, j)
  {
    var ix' := RepricedIndex(ix, p, level, price);
    hide RepricedIndex, Has, FiresAbove;
    forall q: TokenPair, u: bool, x: Entry
      ensures x.pos != p.id ==> (Has(ix', q, u, x) <==> Has(ix, q, u, x))
      ensures Has(ix', q, u, x) && x.pos == p.id ==>
        x.level < |p.levels| && EntryFor(if x.level in loose then Repriced(p, x.level, x.price) else p, q, u, x)
    {
      RepricedHas(ix, p, level, price, q, u, x);
      if Has(ix, q, u, x) && x.pos == p.id { assert EntryFor(p, q, u, x); }
    }
    forall j: nat | j < |p.levels| && p.levels[j].status == LevelActive && j != i && j !in loose
      ensures Tracked(p, ix', fl, j)
    {
      RepricedHas(ix, p, level, price, p.Pair(), p.Up(j), p.EntryOf(j));
      assert Tracked(p, ix, fl, j);
    }
  }

  lemma RepricedHas(ix: Index, p: Position, level: nat, price: int, q: TokenPair, u: bool, x: Entry)
    requires level < |p.levels|
    ensures var p1 := Repriced(p, level, price);
      Has(RepricedIndex(ix, p, level, price), q, u, x) <==>
        (Has(ix, q, u, x) && !(q == p.Pair() && x.pos == p.id && x.level == level)) ||
        (q == p.Pair() && u == p.Up(level) && x == p1.EntryOf(level))
  {
    var p1 := Repriced(p, level, price);
    RemoveHas(ix, p.Pair(), OfLevels(p.id, {level}), q, u, x);
    RegisterHas(Unregister(ix, p.Pair(), p.id, level), p.Pair(), p.Up(level), p1.EntryOf(level), q, u, x);
  }

  lemma OpenLevels(p: Position, i: nat, price: int)
    requires i < |p.levels|
    ensures forall j: nat :: StaysOpen(p, i, price, j) ==> j < |p.levels| && j != i && p.levels[j].status == LevelActive
  {
  }

  lemma UnderAdd(cfg: Config, st: State, late: State, p: Position, ev: Event, lp: LevelParams)
    requires ev.level < |p.levels| && p.levels[ev.level].status == LevelActive
    requires var p1, n := Extended(p, lp), |p.levels|;
      EndsWith(st, late, p, Register(st.index, p1.Pair(), p1.Up(n), p1.EntryOf(n)), ev)
    ensures !Watched(cfg, late)
  {
    var p1, n := Extended(p, lp), |p.levels|;
    RegisterHas(st.index, p1.Pair(), p1.Up(n), p1.EntryOf(n), p1.Pair(), p1.Up(n), p1.EntryOf(n));
    FiredLevel(p, ev.level, ev.price, ev.level);
    hide Has, FiredIndex, Register, Fired;
    StrayRemains(cfg, st, late, p, Register(st.index, p1.Pair(), p1.Up(n), p1.EntryOf(n)), ev, p1.Pair(), p1.Up(n), p1.EntryOf(n));
  }

  /** Withdrawn are the entries of one level, or of all active ones. */
  lemma UnderWithdrawal(cfg: Config, st: State, late: State, p: Position, ev: Event, those: set<nat>, fl: multiset<Event>)
    requires Watched(cfg, st) && p.id == ev.pos && ev.level < |p.levels| && p.levels[ev.level].status == LevelActive
    requires Agrees(p, st.index) && CoveredBut(p, {ev.level}, st.index, fl) && !p.state.IsTerminal() && fl == st.inflight - multiset{ev}
    requires EndsWith(st, late, p, Remove(st.index, p.Pair(), OfLevels(p.id, those)), ev)
    requires WellFormed(cfg, p.id, Fired(p, ev.level, ev.price))
    ensures Watched(cfg, late) <==>
      Fired(p, ev.level, ev.price).state.IsTerminal() ||
      forall j: nat :: j in those && StaysOpen(p, ev.level, ev.price, j) ==> InFlight(fl, p.id, j)
  {
    var ix, sel := Remove(st.index, p.Pair(), OfLevels(p.id, those)), OfLevels(p.id, those);
    hide Fired, FiredIndex, Has, StaysOpen, Remove, FiresAbove;
    forall q: TokenPair, u: bool, x: Entry
      ensures x.pos != p.id ==> (Has(ix, q, u, x) <==> Has(st.index, q, u, x))
      ensures Has(ix, q, u, x) && x.pos == p.id ==> x.level < |p.levels| && EntryFor(p, q, u, x)
    {
      RemoveHas(st.index, p.Pair(), sel, q, u, x);
      if Has(st.index, q, u, x) && x.pos == p.id { assert EntryFor(p, q, u, x); }
    }
    forall j: nat | j < |p.levels| && p.levels[j].status == LevelActive && j != ev.level
      ensures Tracked(p, ix, fl, j) <==> (j in those ==> InFlight(fl, p.id, j))
    {
      RemoveHas(st.index, p.Pair(), sel, p.Pair(), p.Up(j), p.EntryOf(j));
      assert Tracked(p, st.index, fl, j);
    }
    SettlesOver(cfg, st, late, p, {}, ix, ev);
    OpenLevels(p, ev.level, ev.price);
  }

  lemma UnderRenewal(cfg: Config, st: State, late: State, p: Position, p1: Position, ev: Event)
    requires ev.level < |p.levels| && p.levels[ev.level].status == LevelActive
    requires p1.Pair() == p.Pair() && p1.id == p.id && |p1.levels| == |p.levels|
    requires EndsWith(st, late, p, RegisterAll(st.index, p1, p.Those(LevelSuspended), |p1.levels|), ev)
    requires !NoneIs(p.levels, LevelSuspended)
    ensures !Watched(cfg, late)
  {
    var those, n := p.Those(LevelSuspended), |p.levels|;
    var i: nat :| i < n && p.levels[i].status == LevelSuspended;
    RegisterAllHas(st.index, p1, those, n, p1.Pair(), p1.Up(i), p1.EntryOf(i));
    FiredLevel(p, ev.level, ev.price, i);
    ActiveSLIsFirst(FiredLevels(p, ev.level, ev.price), 0);
    hide Has, FiredIndex, RegisterAll, Fired;
    StrayRemains(cfg, st, late, p, RegisterAll(st.index, p1, those, n), ev, p1.Pair(), p1.Up(i), p1.EntryOf(i));
  }

  // ---- All six ----

  lemma UndisturbedActivated(p: Position, fl: multiset<Event>, ev: Event, op: Op)
    requires Unlocked(op) && ev.level < |p.levels|
    ensures Undisturbed(Activated(p), fl, ev, op) == Undisturbed(p, fl, ev, op)
  {
    hide InFlight;
    var q := Activated(p);
    assert FiredLevels(q, ev.level, ev.price) == FiredLevels(p, ev.level, ev.price);
    assert Fired(q, ev.level, ev.price).state == Fired(p, ev.level, ev.price).state;
    SameOpen(p, ev.level, ev.price);
    hide FiredLevels, TakenDown, StaysOpen, Fired, MovedSL;
  }

  lemma SameOpen(p: Position, i: nat, price: int)
    requires i < |p.levels|
    ensures forall j: nat :: StaysOpen(Activated(p), i, price, j) == StaysOpen(p, i, price, j)
  {
    assert TakenDown(Activated(p), i) == TakenDown(p, i);
    assert FiredLevels(Activated(p), i, price) == FiredLevels(p, i, price);
  }

  /** What is known of the position that a recorded execution swaps, and of where it ends. */
  lemma LateState(cfg: Config, st: State, ev: Event, env: Env, op: Op) returns (mid: State, p: Position)
    requires Watched(cfg, st) && ev in st.inflight && OutcomeOf(cfg, st, ev, env) == Recorded
    requires Unlocked(op) && op.id == ev.pos
    ensures p == AtSwap(cfg, st, ev, env) && (p == st.store[ev.pos] || p == Activated(st.store[ev.pos]))
    ensures p.id == ev.pos && !p.state.IsTerminal() && ev.level < |p.levels| && p.levels[ev.level].status == LevelActive
    ensures Agrees(p, st.index) && CoveredBut(p, {ev.level}, st.index, st.inflight - multiset{ev})
    ensures WellFormed(cfg, p.id, p) && WellFormed(cfg, p.id, Fired(p, ev.level, ev.price))
    ensures mid == st.(store := st.store[ev.pos := p])
    ensures EndsWith(st, LateExecution(cfg, st, ev, env, op), p, Step(cfg, mid, op).index, ev)
  {
    var fl, st2 := st.inflight - multiset{ev}, Step(cfg, st, Failing(op));
    p := AtSwap(cfg, st, ev, env);
    mid := st.(store := st.store[ev.pos := p]);
    assert WellFormed(cfg, ev.pos, st.store[ev.pos]) && WellFormed(cfg, ev.pos, p);
    Consume(st.store[ev.pos], ev, st.index, st.inflight);
    ActivatedSame(st.store[ev.pos], {ev.level}, st.index, fl);
    LateExecutionIsFailedWrite(cfg, st, ev, env, op);
    FailingIndexes(cfg, st, mid, op);
    SameOutcome(cfg, st, st2, ev, env);
    RecordedState(cfg, st2, ev, env);
    FiredEvolves(cfg, p, ev.level, ev.price);
    hide ExecuteStep, Step, Fired, FiredIndex, Agrees, CoveredBut, StoreOk, NoStrays, LateExecution, Failing, Activates, WellFormed;
  }

  /**
   What an execution loses that stores over another operation. Its own level, the levels it takes down and a
   stop-loss it moves end in order whatever was done to them meanwhile; all active levels are watched in the
   end exactly if the operation has done nothing to the others that its failed write would leave undone.
   */
  lemma LateExecutionKeepsWatchExactlyWhen(cfg: Config, st: State, ev: Event, env: Env, op: Op)
    requires Watched(cfg, st) && ev in st.inflight && OutcomeOf(cfg, st, ev, env) == Recorded
    requires Unlocked(op) && op.id == ev.pos && Writes(st, op)
    ensures ev.pos in st.store && ev.level < |st.store[ev.pos].levels|
    ensures Watched(cfg, LateExecution(cfg, st, ev, env, op)) <==>
      Undisturbed(st.store[ev.pos], st.inflight - multiset{ev}, ev, op)
  {
    var fl, late := st.inflight - multiset{ev}, LateExecution(cfg, st, ev, env, op);
    var mid, p := LateState(cfg, st, ev, env, op);
    UndisturbedActivated(st.store[ev.pos], fl, ev, op);
    StillAccepts(st, mid, p, op);
    IndexAfter(cfg, mid, op);
    hide Watched, LateExecution, AtSwap, OutcomeOf, EndsWith, Agrees, CoveredBut, WellFormed, Fired, Step, Undisturbed, LeavesIndex;
    if Edits(op) {
      UnderEdit(cfg, st, late, p, ev, op, Step(cfg, mid, op).index, fl);
    } else {
      UnderSweep(cfg, st, late, p, ev, op, Step(cfg, mid, op).index, fl);
    }
  }

  /** What an accepted operation on `p` makes of the index. */
  ghost predicate LeavesIndex(ix: Index, p: Position, op: Op, ix': Index)
    requires Unlocked(op)
  {
    match op
    case UpdateLevel(_, level, price, _, _) =>
      0 <= level < |p.levels| && p.levels[level].status == LevelActive && ix' == RepricedIndex(ix, p, level, price)
    case AddLevel(_, lp, _, _) =>
      ix' == Register(ix, Extended(p, lp).Pair(), Extended(p, lp).Up(|p.levels|), Extended(p, lp).EntryOf(|p.levels|))
    case RemoveLevel(_, level, _, _) => level >= 0 && ix' == Remove(ix, p.Pair(), OfLevels(p.id, {level}))
    case Renew(_, _, signed, nonce, deadline, amount, _, _) =>
      var p1 := Renewed(p, signed, nonce, deadline, amount);
      ix' == RegisterAll(ix, p1, p.Those(LevelSuspended), |p1.levels|)
    case _ => ix' == Remove(ix, p.Pair(), OfLevels(p.id, p.Those(LevelActive)))
  }

  lemma IndexAfter(cfg: Config, st: State, op: Op)
    requires Unlocked(op) && op.id in st.store && st.store[op.id].id == op.id && Writes(st, op)
    ensures LeavesIndex(st.index, st.store[op.id], op, Step(cfg, st, op).index)
  {
    hide Register, Remove, RegisterAll, FiresAbove;
  }

  lemma UnderEdit(cfg: Config, st: State, late: State, p: Position, ev: Event, op: Op, ix: Index, fl: multiset<Event>)
    requires Watched(cfg, st) && p.id == ev.pos && ev.level < |p.levels| && p.levels[ev.level].status == LevelActive
    requires Agrees(p, st.index) && CoveredBut(p, {ev.level}, st.index, fl) && !p.state.IsTerminal() && fl == st.inflight - multiset{ev}
    requires EndsWith(st, late, p, ix, ev) && WellFormed(cfg, p.id, Fired(p, ev.level, ev.price))
    requires Edits(op) && LeavesIndex(st.index, p, op, ix)
    ensures Watched(cfg, late) <==> Undisturbed(p, fl, ev, op)
  {
    hide Watched, EndsWith, Agrees, CoveredBut, WellFormed, Fired, StaysOpen, RepricedIndex, Register, Remove, RegisterAll;
    match op
    case UpdateLevel(_, level, price, _, _) =>
      UnderUpdate(cfg, st, late, p, ev, level, price, fl);
    case AddLevel(_, lp, _, _) =>
      UnderAdd(cfg, st, late, p, ev, lp);
    case RemoveLevel(_, level, _, _) =>
      UnderWithdrawal(cfg, st, late, p, ev, {level}, fl);
  }

  lemma UnderSweep(cfg: Config, st: State, late: State, p: Position, ev: Event, op: Op, ix: Index, fl: multiset<Event>)
    requires Watched(cfg, st) && p.id == ev.pos && ev.level < |p.levels| && p.levels[ev.level].status == LevelActive
    requires Agrees(p, st.index) && CoveredBut(p, {ev.level}, st.index, fl) && !p.state.IsTerminal() && fl == st.inflight - multiset{ev}
    requires EndsWith(st, late, p, ix, ev) && WellFormed(cfg, p.id, Fired(p, ev.level, ev.price))
    requires Unlocked(op) && !Edits(op) && LeavesIndex(st.index, p, op, ix)
    ensures Watched(cfg, late) <==> Undisturbed(p, fl, ev, op)
  {
    hide Watched, EndsWith, Agrees, CoveredBut, WellFormed, Fired, StaysOpen, RepricedIndex, Register, Remove, RegisterAll;
    if op.Renew? {
      var p1 := Renewed(p, op.signed, op.nonce, op.deadline, op.amount);
      if NoneIs(p.levels, LevelSuspended) {
        assert p.Those(LevelSuspended) == {};
        RegistersNone(st.index, p1, |p1.levels|);
        UnderNothing(cfg, st, late, p, ev, fl);
      } else {
        UnderRenewal(cfg, st, late, p, p1, ev);
      }
    } else {
      UnderWithdrawal(cfg, st, late, p, ev, p.Those(LevelActive), fl);
      OpenLevels(p, ev.level, ev.price);
    }
  }

  lemma UnderNothing(cfg: Config, st: State, late: State, p: Position, ev: Event, fl: multiset<Event>)
    requires Watched(cfg, st) && p.id == ev.pos && ev.level < |p.levels| && p.levels[ev.level].status == LevelActive
    requires Agrees(p, st.index) && CoveredBut(p, {ev.level}, st.index, fl) && !p.state.IsTerminal() && fl == st.inflight - multiset{ev}
    requires EndsWith(st, late, p, st.index, ev) && WellFormed(cfg, p.id, Fired(p, ev.level, ev.price))
    ensures Watched(cfg, late)
  {
    hide Fired, FiredIndex, Has, StaysOpen, FiresAbove, Tracked;
    assert AgreesBut(p, {}, st.index) by {
      forall q: TokenPair, u: bool, x: Entry | Has(st.index, q, u, x) && x.pos == p.id
        ensures EntryFor(p, q, u, x)
      {
      }
    }
    SettlesOver(cfg, st, late, p, {}, st.index, ev);
    OpenLevels(p, ev.level, ev.price);
  }

  lemma StillAccepts(st: State, mid: State, p: Position, op: Op)
    requires Unlocked(op) && op.id in st.store && Writes(st, op) && mid == st.(store := st.store[op.id := p])
    requires p == st.store[op.id] || p == Activated(st.store[op.id])
    ensures Writes(mid, op)
  {
    assert p.Those(LevelActive) == st.store[op.id].Those(LevelActive);
  }

  // ---- Two operations without the lock ----

  /** Of two operations without the lock, one that stores late acts as if the write of the other had failed. */
  lemma LateOverUnlocked(cfg: Config, st: State, first: Op, second: Op)
    requires Unlocked(first) && Unlocked(second) && second.id == first.id && StoreOk(cfg, st) && first.id in st.store
    ensures Late(cfg, st, Step(cfg, st, first), second) == Step(cfg, Step(cfg, st, Failing(first)), second)
  {
    assert WellFormed(cfg, first.id, st.store[first.id]);
    UnlockedStores(cfg, st, first, st.store[first.id]);
    UnlockedKeeps(cfg, st, first);
    FailingIndexes(cfg, st, st, first);
    hide Step, StoreOk, Failing;
    assert st.store[first.id := st.store[first.id]] == st.store;
  }

  /** So a cancellation is undone by any of them but another one. */
  lemma LateOverCancel(cfg: Config, st: State, op: Op)
    requires Unlocked(op) && StoreOk(cfg, st) && op.id in st.store && Writes(st, op)
    ensures var late := Late(cfg, st, Step(cfg, st, Cancel(op.id, true, true)), op);
      op.id in late.store && (late.store[op.id].state == StateCancelled <==> op.Cancel?) &&
      (!op.Cancel? ==> late.store[op.id].state == st.store[op.id].state)
  {
    var cancel := Cancel(op.id, true, true);
    LateOverUnlocked(cfg, st, cancel, op);
    assert WellFormed(cfg, op.id, st.store[op.id]);
    FailingIndexes(cfg, st, st, cancel);
    StoresState(cfg, Step(cfg, st, Failing(cancel)), op);
    hide Step, Late;
  }

  lemma StoresState(cfg: Config, st: State, op: Op)
    requires Unlocked(op) && op.id in st.store && st.store[op.id].id == op.id
    ensures var st' := Step(cfg, st, op);
      op.id in st'.store && (Writes(st, op) ==>
        st'.store[op.id].state == if op.Cancel? then StateCancelled else st.store[op.id].state)
  {
    hide Register, Remove, RegisterAll, UpdateTriggerPrice, SetStatus;
  }

  // ---- A cancelled position that is swapped ----

  /** Two take-profits, for a half and then a half of the rest. */
  function TwoLevels(chain: ChainId): OpenParams {
    OpenParams(1, 2, 3, Long, 100, chain, 18, 6,
               [LevelParams(TP, 5, 5000, None, []), LevelParams(TP, 9, 5000, None, [])], None)
  }

  lemma TwoLevelsAreValid(cfg: Config, chain: ChainId)
    requires chain in cfg
    ensures ValidOpen(cfg, TwoLevels(chain), 0)
  {
    TwoPortions(TwoLevels(chain).levels);
    hide Sum, BpsOfParams;
  }

  lemma TwoPortions(lps: seq<LevelParams>)
    requires |lps| == 2 && lps[0].portionBps == 5000 == lps[1].portionBps
    ensures Sum(BpsOfParams(lps)) == 10000
  {
    var bps := BpsOfParams(lps);
    assert bps == [5000] + [5000];
    SumSnoc([], 5000);
    SumSnoc([5000], 5000);
    assert [] + [5000] == [5000];
  }

  /** What is known of the state once it is opened. */
  ghost predicate BothReady(cfg: Config, st: State, id: PosId, p: Position) {
    && StoreOk(cfg, st) && st.swaps == [] && id in st.store && st.store[id] == p && |p.levels| == 2
    && Ready(cfg, st, id, 0) && Ready(cfg, st, id, 1) && Has(st.index, p.Pair(), p.Up(0), p.EntryOf(0))
  }

  lemma TwoLevelsReady(cfg: Config, chain: ChainId, id: PosId)
    requires chain in cfg
    ensures BothReady(cfg, OpenStep(cfg, EMPTY, id, TwoLevels(chain), 0, true, true), id, NewPosition(id, TwoLevels(chain)))
  {
    var p := NewPosition(id, TwoLevels(chain));
    TwoLevelsAreValid(cfg, chain);
    RegisterAllHas(map[], p, p.Those(LevelActive), 2, p.Pair(), p.Up(0), p.EntryOf(0));
    hide ValidOpen, RegisterAll, Has, FiresAbove;
  }

  lemma TwoLevelsOpen(cfg: Config, chain: ChainId, id: PosId) returns (trace: seq<State>, ops: seq<Op>)
    requires chain in cfg
    ensures IsRun(cfg, trace, ops, Any) && trace[0] == EMPTY
    ensures BothReady(cfg, trace[|ops|], id, NewPosition(id, TwoLevels(chain)))
  {
    var open := Open(id, TwoLevels(chain), 0, true, true);
    TwoLevelsReady(cfg, chain, id);
    assert Step(cfg, EMPTY, open) == OpenStep(cfg, EMPTY, id, TwoLevels(chain), 0, true, true);
    hide BothReady, OpenStep, Step;
    assert IsRun(cfg, [EMPTY], [], Any);
    RunExtends(cfg, [EMPTY], [], Any, open);
    trace, ops := [EMPTY] + [Step(cfg, EMPTY, open)], [] + [open];
  }

  /** A run, an execution that reads at its end and stores over an operation, and a run from there. */
  ghost predicate LateExecutionRun(cfg: Config, trace: seq<State>, ops: seq<Op>, ev: Event, env: Env, op: Op,
                                   trace': seq<State>, ops': seq<Op>) {
    && IsRun(cfg, trace, ops, Any) && trace[0] == EMPTY && Unlocked(op) && op.id == ev.pos && ev.pos in trace[|ops|].store
    && ev in trace[|ops|].inflight && OutcomeOf(cfg, trace[|ops|], ev, env) == Recorded && Writes(trace[|ops|], op)
    && IsRun(cfg, trace', ops', Any) && trace'[0] == LateExecution(cfg, trace[|ops|], ev, env, op)
  }

  /** The first of two levels is executed, the position is cancelled meanwhile, and later its second level is swapped. */
  lemma CancelledIsSwapped(cfg: Config, chain: ChainId, id: PosId)
    requires chain in cfg
    ensures exists trace: seq<State>, ops: seq<Op>, ev: Event, env: Env, trace': seq<State>, ops': seq<Op> ::
      LateExecutionRun(cfg, trace, ops, ev, env, Cancel(id, true, true), trace', ops') && SwapsLater(trace'[0], trace'[|ops'|], id)
  {
    var trace, ops := TwoLevelsOpen(cfg, chain, id);
    var st, p := trace[|ops|], NewPosition(id, TwoLevels(chain));
    var ev := PriceFires(cfg, st, id, 0);
    var price := Price(p.Pair(), p.levels[0].triggerPrice);
    var st1 := Step(cfg, st, price);
    StepIs(cfg, st, p.Pair(), p.levels[0].triggerPrice, ev, GOOD);
    hide Step, Ready, LateExecution, PriceStep, OutcomeOf, Has, Fired, SwapOf;
    assert StoreOk(cfg, st1);
    RunExtends(cfg, trace, ops, Any, price);
    var late := ReadyAgain(cfg, st1, ev, id, p);
    Afterwards(cfg, trace + [st1], ops + [price], ev, late, id);
  }

  lemma Afterwards(cfg: Config, trace: seq<State>, ops: seq<Op>, ev: Event, late: State, id: PosId)
    requires IsRun(cfg, trace, ops, Any) && trace[0] == EMPTY && ev.pos == id && id in trace[|ops|].store && ev in trace[|ops|].inflight
    requires OutcomeOf(cfg, trace[|ops|], ev, GOOD) == Recorded && Writes(trace[|ops|], Cancel(id, true, true))
    requires late == LateExecution(cfg, trace[|ops|], ev, GOOD, Cancel(id, true, true))
    requires StoreOk(cfg, late) && |late.swaps| == 1 && Ready(cfg, late, id, 1)
    ensures exists trace: seq<State>, ops: seq<Op>, ev: Event, env: Env, trace': seq<State>, ops': seq<Op> ::
      LateExecutionRun(cfg, trace, ops, ev, env, Cancel(id, true, true), trace', ops') && SwapsLater(trace'[0], trace'[|ops'|], id)
  {
    hide Step, LateExecution, OutcomeOf, Writes, StoreOk, HasNegativeIndex, SwapOf;
    assert IsRun(cfg, [late], [], Any);
    var trace2, ops2 := RestartAndFire(cfg, [late], [], id, 1, GOOD);
    SwapNames(cfg, late.store[id], 1);
    assert LateExecutionRun(cfg, trace, ops, ev, GOOD, Cancel(id, true, true), trace2, ops2);
  }

  /** A swap of the position's second level is added to the log. */
  predicate SwapsLater(st: State, st': State, id: PosId) {
    |st.swaps| == 1 && |st'.swaps| == 2 && st'.swaps[0] == st.swaps[0] && st'.swaps[1].pos == id && st'.swaps[1].level == 1
  }

  lemma ReadyAgain(cfg: Config, st: State, ev: Event, id: PosId, p: Position) returns (late: State)
    requires StoreOk(cfg, st) && id in st.store && st.store[id] == p && ev in st.inflight && ev.pos == id && ev.level == 0 && st.swaps == []
    requires p.chain in cfg && p == NewPosition(id, TwoLevels(p.chain)) && |p.levels| == 2
    ensures OutcomeOf(cfg, st, ev, GOOD) == Recorded && Writes(st, Cancel(id, true, true))
    ensures late == LateExecution(cfg, st, ev, GOOD, Cancel(id, true, true)) && StoreOk(cfg, late) && |late.swaps| == 1
    ensures Ready(cfg, late, id, 1)
  {
    hide LateExecution, ExecuteStep, FiredIndex, OutcomeOf, StoreOk, Fired, SwapOf, Debit, GrantsAt, Covers, Once;
    var cancel := Cancel(id, true, true);
    FirstRecords(cfg, st, ev, id, p);
    late := LateExecution(cfg, st, ev, GOOD, cancel);
    LateExecutionUndoes(cfg, st, ev, GOOD, cancel);
    RecordedState(cfg, st, ev, GOOD);
    SecondStaysOpen(p, ev.price, id);
    StoreKept(cfg, st, late, ExecuteStep(cfg, st, ev, GOOD), ev, GOOD);
  }

  lemma StoreKept(cfg: Config, st: State, late: State, alone: State, ev: Event, env: Env)
    requires StoreOk(cfg, st) && alone == ExecuteStep(cfg, st, ev, env) && late.store == alone.store
    ensures StoreOk(cfg, late)
  {
    ExecuteEvolves(cfg, st, ev, env);
    hide ExecuteStep;
  }

  lemma FirstRecords(cfg: Config, st: State, ev: Event, id: PosId, p: Position)
    requires id in st.store && st.store[id] == p && ev.pos == id && ev.level == 0
    requires p.chain in cfg && p == NewPosition(id, TwoLevels(p.chain)) && |p.levels| == 2
    ensures OutcomeOf(cfg, st, ev, GOOD) == Recorded && Writes(st, Cancel(id, true, true)) && AtSwap(cfg, st, ev, GOOD) == p
  {
    hide Covers, SetStatus;
    assert Covers(st.grants, p, 0) by { Unsigned(st.grants, p, 0); }
  }

  lemma Unsigned(grants: map<Grantee, int>, p: Position, i: nat)
    requires i < |p.levels| && !p.permit.signed
    ensures Covers(grants, p, i)
  {
  }

  lemma SecondStaysOpen(p: Position, price: int, id: PosId)
    requires p == NewPosition(id, TwoLevels(p.chain)) && |p.levels| == 2
    ensures var p' := Fired(p, 0, price);
      |p'.levels| == 2 && p'.id == id && p'.chain == p.chain && p'.state == StatePartialClosed && !p'.permit.signed &&
      p'.levels[1].status == LevelActive && !HasNegativeIndex(p'.levels[1])
  {
    var p' := Fired(p, 0, price);
    assert Left(100, 5000) == 50 && MovedSL(p, 0, price) == None;
    assert p'.levels[1] == p.levels[1] && p'.levels[1].status == LevelActive;
  }
}
