/**
 Closed means finished: what a position's state says about its levels, over every run. The portion limit
 of OpenPosition is what makes it true, so this module also settles when that limit really holds.
 */
module Closure {
  import opened Types
  import opened TriggerIndex
  import opened Amounts
  import opened Lifecycle
  import opened SwapOnce

  function BpsOf(ls: seq<Level>): seq<int> {
    seq(|ls|, i requires 0 <= i < |ls| => ls[i].portionBps)
  }

  predicate AllDone(ls: seq<Level>) {
    forall i :: 0 <= i < |ls| ==> Done(ls[i].status)
  }

  predicate Exclusive(ls: seq<Level>) {
    NoneIs(ls, LevelActive) || NoneIs(ls, LevelSuspended)
  }

  /** Every portion is at least 1 and together they are at most 10000. */
  ghost predicate Limited(ls: seq<Level>) {
    (forall i :: 0 <= i < |ls| ==> ls[i].portionBps >= 1) && Sum(BpsOf(ls)) <= BPS
  }

  predicate Settled(p: Position) {
    && Exclusive(p.levels)
    && (p.state.IsTerminal() ==> NoneIs(p.levels, LevelActive))
    && (p.state == StateClosed ==> AllDone(p.levels))
    && (p.state.IsTerminal() || p.remainingSize > 0)
  }

  ghost predicate Orderly(p: Position) {
    Limited(p.levels) && Settled(p)
  }

  // ---- The portion limit ----

  /**
   OpenPosition sums the portions in uint32. For levels that pass every check, the true sum is within
   10000 exactly when there are at most 10000 levels: beyond that the sum has wrapped around.
   */
  lemma PortionLimitHoldsExactlyWhen(lps: seq<LevelParams>)
    requires ValidLevels(lps)
    ensures Sum(BpsOfParams(lps)) <= BPS <==> |lps| <= BPS
  {
    var s := BpsOfParams(lps);
    forall i | 0 <= i < |s|
      ensures 1 <= s[i] <= BPS
    {
      assert ValidParams(lps, i);
    }
    SumAtLeastLength(s);
    SumAtMost(s, BPS);
  }

  /** 429497 levels of 10000 basis points add up to 2704 in uint32, and are accepted. */
  lemma PortionLimitWraps(lp: LevelParams, lps: seq<LevelParams>)
    requires lp.portionBps == BPS && lp.triggerPrice > 0 && lp.cancelOnFire == []
    requires |lps| == 429497 && forall i :: 0 <= i < |lps| ==> lps[i] == lp
    ensures ValidLevels(lps) && Sum(BpsOfParams(lps)) == 4_294_970_000
  {
    SumOfEqual(BpsOfParams(lps), BPS);
    forall i | 0 <= i < |lps|
      ensures ValidParams(lps, i)
    {
    }
  }

  lemma {:induction false} SumOfEqual(s: seq<int>, x: int)
    requires forall i :: 0 <= i < |s| ==> s[i] == x
    ensures Sum(s) == |s| * x
  {
    if s == [] {
    } else {
      SumOfEqual(s[..|s| - 1], x);
      assert |s| * x == (|s| - 1) * x + x;
    }
  }

  /**
   Within that limit a level for the whole position stands alone. The quick start in the repository's
   README opens a stop-loss for 10000 beside a take-profit for 3300, which OpenPosition refuses.
   */
  lemma FullPortionStandsAlone(lps: seq<LevelParams>, i: nat)
    requires i < |lps| <= BPS && lps[i].portionBps == BPS
    ensures ValidLevels(lps) ==> |lps| == 1
  {
    if ValidLevels(lps) {
      PortionLimitHoldsExactlyWhen(lps);
      forall j | 0 <= j < |lps|
        ensures BpsOfParams(lps)[j] >= 1
      {
        assert ValidParams(lps, j);
      }
      SumLeavesNoRoom(BpsOfParams(lps), i);
    }
  }

  lemma OpenedIsOrderly(cfg: Config, id: PosId, q: OpenParams, now: int)
    requires ValidOpen(cfg, q, now) && |q.levels| <= BPS
    ensures Orderly(NewPosition(id, q))
  {
    var ls := NewPosition(id, q).levels;
    assert BpsOf(ls) == BpsOfParams(q.levels);
    PortionLimitHoldsExactlyWhen(q.levels);
    forall i | 0 <= i < |ls|
      ensures ls[i].portionBps >= 1
    {
      assert ValidParams(q.levels, i);
    }
  }

  // ---- One operation on one position ----

  /** Levels keep their portions; whether a sum is within the limit does not change. */
  lemma SamePortions(ls: seq<Level>, ls': seq<Level>)
    requires Limited(ls) && |ls'| == |ls| && forall i :: 0 <= i < |ls| ==> ls'[i].portionBps == ls[i].portionBps
    ensures Limited(ls')
  {
    assert BpsOf(ls') == BpsOf(ls);
  }

  lemma RepricedIsOrderly(p: Position, i: nat, price: int)
    requires Orderly(p) && i < |p.levels|
    ensures Orderly(Repriced(p, i, price))
  {
    SamePortions(p.levels, Repriced(p, i, price).levels);
  }

  lemma RemovedIsOrderly(p: Position, i: nat)
    requires Orderly(p) && i < |p.levels|
    ensures Orderly(p.(levels := p.levels[i := p.levels[i].(status := LevelCancelled)]))
  {
    SamePortions(p.levels, p.levels[i := p.levels[i].(status := LevelCancelled)]);
  }

  lemma SuspendedIsOrderly(p: Position)
    requires Orderly(p) && !p.state.IsTerminal()
    ensures Orderly(p.(levels := SetStatus(p.levels, p.Those(LevelActive), LevelSuspended)))
  {
    SamePortions(p.levels, SetStatus(p.levels, p.Those(LevelActive), LevelSuspended));
  }

  lemma CancelledIsOrderly(p: Position)
    requires Orderly(p)
    ensures Orderly(p.(levels := SetStatus(p.levels, p.Those(LevelActive), LevelCancelled), state := StateCancelled))
  {
    SamePortions(p.levels, SetStatus(p.levels, p.Those(LevelActive), LevelCancelled));
  }

  lemma RenewedIsOrderly(p: Position, signed: bool, nonce: Option<int>, deadline: int, amount: Option<int>)
    requires Orderly(p) && !p.state.IsTerminal()
    ensures Orderly(Renewed(p, signed, nonce, deadline, amount))
  {
    SamePortions(p.levels, SetStatus(p.levels, p.Those(LevelSuspended), LevelActive));
  }

  /**
   AddLevel checks nothing. On an orderly live position the result is orderly exactly when no level is
   suspended and the new portion is at least 1 and fits under the limit.
   */
  lemma AddedIsOrderlyExactlyWhen(p: Position, lp: LevelParams)
    requires Orderly(p) && !p.state.IsTerminal()
    ensures Orderly(Extended(p, lp)) <==> CanAdd(p, lp)
  {
    var ls := Extended(p, lp).levels;
    var n := |p.levels|;
    assert ls[..n] == p.levels && ls[n].status == LevelActive && ls[n].portionBps == lp.portionBps;
    assert BpsOf(ls) == BpsOf(p.levels) + [lp.portionBps];
    SumSnoc(BpsOf(p.levels), lp.portionBps);
    if CanAdd(p, lp) {
      assert NoneIs(ls, LevelSuspended);
    } else if NoneIs(p.levels, LevelSuspended) {
    } else {
      var j :| 0 <= j < n && p.levels[j].status == LevelSuspended;
      assert ls[j].status == LevelSuspended;
    }
  }

  predicate CanAdd(p: Position, lp: LevelParams) {
    NoneIs(p.levels, LevelSuspended) && lp.portionBps >= 1 && Sum(BpsOf(p.levels)) + lp.portionBps <= BPS
  }

  /** The statuses after level `i` fired: `i` triggered, what it takes down cancelled, the rest as before. */
  lemma FiredStatus(p: Position, i: nat, price: int, j: nat)
    requires i < |p.levels| && j < |p.levels| && p.levels[i].status == LevelActive
    ensures |Fired(p, i, price).levels| == |p.levels|
    ensures Fired(p, i, price).levels[j].status ==
      if j == i then LevelTriggered else if j in TakenDown(p, i) then LevelCancelled else p.levels[j].status
    ensures Fired(p, i, price).levels[j].portionBps == p.levels[j].portionBps
  {
  }

  /** What a firing does to the statuses, the portions, the remaining size and the state. */
  ghost predicate FiresTo(p: Position, p': Position, i: nat)
    requires i < |p.levels|
  {
    && |p'.levels| == |p.levels|
    && (forall j :: 0 <= j < |p.levels| ==>
          p'.levels[j].portionBps == p.levels[j].portionBps &&
          p'.levels[j].status ==
            if j == i then LevelTriggered else if j in TakenDown(p, i) then LevelCancelled else p.levels[j].status)
    && p'.remainingSize == Left(p.remainingSize, p.levels[i].portionBps)
    && p'.state == (if p.levels[i].typ == SL || NoneIs(p'.levels, LevelActive) || p'.remainingSize <= 0
                    then StateClosed else StatePartialClosed)
  }

  lemma FiredState(p: Position, i: nat, price: int)
    requires i < |p.levels|
    ensures var p' := Fired(p, i, price);
      p'.remainingSize == Left(p.remainingSize, p.levels[i].portionBps) &&
      p'.state == if p.levels[i].typ == SL || NoneIs(p'.levels, LevelActive) || p'.remainingSize <= 0
                  then StateClosed else StatePartialClosed
  {
  }

  lemma FiringFiresTo(p: Position, i: nat, price: int)
    requires i < |p.levels| && p.levels[i].status == LevelActive
    ensures FiresTo(p, Fired(p, i, price), i)
  {
    FiredState(p, i, price);
    FiredStatus(p, i, price, i);
    forall j | 0 <= j < |p.levels|
      ensures Fired(p, i, price).levels[j].portionBps == p.levels[j].portionBps
      ensures Fired(p, i, price).levels[j].status ==
        if j == i then LevelTriggered else if j in TakenDown(p, i) then LevelCancelled else p.levels[j].status
    {
      FiredStatus(p, i, price, j);
    }
  }

  /** Only a lone level can empty a position: the rest of the limit has no room for a second one. */
  lemma EmptiesAlone(p: Position, i: nat)
    requires Limited(p.levels) && i < |p.levels| && p.remainingSize > 0
    ensures 0 <= Left(p.remainingSize, p.levels[i].portionBps)
    ensures Left(p.remainingSize, p.levels[i].portionBps) == 0 ==> |p.levels| == 1
  {
    SumLeavesNoRoom(BpsOf(p.levels), i);
    MulBpsWithin(p.remainingSize, p.levels[i].portionBps);
  }

  lemma FiredIsOrderly(p: Position, p': Position, i: nat)
    requires Orderly(p) && i < |p.levels| && p.levels[i].status == LevelActive && !p.state.IsTerminal()
    requires FiresTo(p, p', i)
    ensures Orderly(p')
  {
    SamePortions(p.levels, p'.levels);
    EmptiesAlone(p, i);
    assert NoneIs(p.levels, LevelSuspended) by { assert p.levels[i].status == LevelActive; }
    assert NoneIs(p'.levels, LevelSuspended);
    if p.levels[i].typ == SL {
      assert NoneIs(p'.levels, LevelActive);
    }
  }

  /**
   When a firing that closes the position leaves nothing open, for any position at all: exactly when no
   level is suspended and every other active level is taken down. A stop-loss takes all of those down.
   */
  lemma ClosesCleanlyExactlyWhen(p: Position, p': Position, i: nat)
    requires i < |p.levels| && p.levels[i].status == LevelActive && FiresTo(p, p', i) && p'.state == StateClosed
    ensures AllDone(p'.levels) <==>
      NoneIs(p.levels, LevelSuspended) &&
      forall j :: 0 <= j < |p.levels| && j != i && p.levels[j].status == LevelActive ==> j in TakenDown(p, i)
  {
    if AllDone(p'.levels) {
      forall j | 0 <= j < |p.levels|
        ensures p.levels[j].status != LevelSuspended
        ensures j != i && p.levels[j].status == LevelActive ==> j in TakenDown(p, i)
      {
        assert Done(p'.levels[j].status);
      }
    }
  }

  // ---- Every run ----

  ghost predicate AllOrderly(cfg: Config, st: State) {
    StoreOk(cfg, st) && forall id :: id in st.store ==> Orderly(st.store[id])
  }

  /** Opens have at most 10000 levels, and levels are added only where they fit. */
  predicate WithinLimits(st: State, op: Op) {
    && (op.Open? ==> |op.params.levels| <= BPS)
    && (op.AddLevel? && Live(st, op.id, op.getOk) ==> CanAdd(st.store[op.id], op.params'))
  }

  /** One position, at most, is replaced, by an orderly one. */
  lemma OneIsOrderly(cfg: Config, st: State, st': State, p': Position)
    requires AllOrderly(cfg, st) && StoreOk(cfg, st') && Orderly(p')
    requires st'.store == st.store || st'.store == st.store[p'.id := p']
    ensures AllOrderly(cfg, st')
  {
  }

  lemma EditsKeepOrder(cfg: Config, st: State, op: Op)
    requires AllOrderly(cfg, st) && WithinLimits(st, op) && (op.UpdateLevel? || op.AddLevel? || op.RemoveLevel?)
    requires StoreOk(cfg, Step(cfg, st, op))
    ensures AllOrderly(cfg, Step(cfg, st, op))
  {
    if op.UpdateLevel? && UpdateAccepted(st, op.id, op.level, op.price, op.getOk) {
      var p' := Repriced(st.store[op.id], op.level, op.price);
      RepricedIsOrderly(st.store[op.id], op.level, op.price);
      OneIsOrderly(cfg, st, Step(cfg, st, op), p');
    } else if op.AddLevel? && Live(st, op.id, op.getOk) {
      AddedIsOrderlyExactlyWhen(st.store[op.id], op.params');
      OneIsOrderly(cfg, st, Step(cfg, st, op), Extended(st.store[op.id], op.params'));
    } else if op.RemoveLevel? && RemoveAccepted(st, op.id, op.level, op.getOk) {
      var p := st.store[op.id];
      RemovedIsOrderly(p, op.level);
      OneIsOrderly(cfg, st, Step(cfg, st, op), p.(levels := p.levels[op.level := p.levels[op.level].(status := LevelCancelled)]));
    }
  }

  lemma SweepsKeepOrder(cfg: Config, st: State, op: Op)
    requires AllOrderly(cfg, st) && (op.Cancel? || op.Renew?)
    requires StoreOk(cfg, Step(cfg, st, op))
    ensures AllOrderly(cfg, Step(cfg, st, op))
  {
    if op.Cancel? && Live(st, op.id, op.getOk) {
      var p := st.store[op.id];
      CancelledIsOrderly(p);
      OneIsOrderly(cfg, st, Step(cfg, st, op),
                   p.(levels := SetStatus(p.levels, p.Those(LevelActive), LevelCancelled), state := StateCancelled));
    } else if op.Renew? && RenewAccepted(st, op.id, op.owner, op.getOk) {
      RenewedIsOrderly(st.store[op.id], op.signed, op.nonce, op.deadline, op.amount);
      OneIsOrderly(cfg, st, Step(cfg, st, op), Renewed(st.store[op.id], op.signed, op.nonce, op.deadline, op.amount));
    }
  }

  lemma SuspendKeepsOrder(cfg: Config, st: State, p: Position, ok: bool)
    requires AllOrderly(cfg, st) && p.id in st.store && st.store[p.id] == p && !p.state.IsTerminal()
    ensures AllOrderly(cfg, SuspendStep(st, p, ok))
  {
    SuspendedIsOrderly(p);
    SuspendEvolves(cfg, st, p, ok);
    OneIsOrderly(cfg, st, SuspendStep(st, p, ok), p.(levels := SetStatus(p.levels, p.Those(LevelActive), LevelSuspended)));
  }

  lemma ExecuteKeepsOrder(cfg: Config, st: State, ev: Event, env: Env)
    requires AllOrderly(cfg, st)
    ensures AllOrderly(cfg, ExecuteStep(cfg, st, ev, env))
  {
    var out, st' := OutcomeOf(cfg, st, ev, env), ExecuteStep(cfg, st, ev, env);
    ExecuteEvolves(cfg, st, ev, env);
    if ev !in st.inflight || out == Skipped || out == Panicked {
      QuietState(cfg, st, ev, env);
    } else if out == Suspended {
      SuspendKeepsOrder(cfg, st.(inflight := st.inflight - multiset{ev}), st.store[ev.pos], env.updateOk);
    } else {
      var p := AtSwap(cfg, st, ev, env);
      assert WellFormed(cfg, ev.pos, st.store[ev.pos]) && Orderly(st.store[ev.pos]) && !p.state.IsTerminal();
      if out == Recorded {
        RecordedState(cfg, st, ev, env);
        FiringFiresTo(p, ev.level, ev.price);
        FiredIsOrderly(p, Fired(p, ev.level, ev.price), ev.level);
        OneIsOrderly(cfg, st, st', Fired(p, ev.level, ev.price));
      } else {
        if out == Requeued { RequeuedState(cfg, st, ev, env); } else { UnstoredState(cfg, st, ev, env); }
        OneIsOrderly(cfg, st, st', p);
      }
    }
  }

  lemma StepKeepsOrder(cfg: Config, st: State, op: Op)
    requires AllOrderly(cfg, st) && WithinLimits(st, op)
    ensures AllOrderly(cfg, Step(cfg, st, op))
  {
    StepEvolves(cfg, st, op);
    if op.Open? {
      if ValidOpen(cfg, op.params, op.now) { OpenedIsOrderly(cfg, op.id, op.params, op.now); }
    } else if op.UpdateLevel? || op.AddLevel? || op.RemoveLevel? {
      EditsKeepOrder(cfg, st, op);
    } else if op.Cancel? || op.Renew? {
      SweepsKeepOrder(cfg, st, op);
    } else if op.Expire? {
      if ExpiryDue(st, op.id, op.now) { SuspendKeepsOrder(cfg, st, st.store[op.id], op.updateOk); }
    } else if op.Execute? {
      ExecuteKeepsOrder(cfg, st, op.event, op.env);
    } else if op.Restart? {
      RestartKeepsRest(st, op.ids);
    }
  }

  lemma {:induction false} RunKeepsOrder(cfg: Config, trace: seq<State>, ops: seq<Op>, n: nat)
    requires IsRun(cfg, trace, ops, (s, op) => WithinLimits(s, op)) && n <= |ops|
    requires AllOrderly(cfg, trace[0])
    ensures AllOrderly(cfg, trace[n])
  {
    if n > 0 {
      RunKeepsOrder(cfg, trace, ops, n - 1);
      StepKeepsOrder(cfg, trace[n - 1], ops[n - 1]);
    }
  }

  /**
   Closed means finished, in every state of every run within the limits, failed writes and unrecorded swaps included:
   active and suspended levels never coexist, a terminal position has no active level, a position
   closed by execution has every level triggered or cancelled, and a live one still has size.
   */
  lemma ClosedMeansFinished(cfg: Config, trace: seq<State>, ops: seq<Op>, n: nat, id: PosId)
    requires IsRun(cfg, trace, ops, (s, op) => WithinLimits(s, op)) && trace[0] == EMPTY && n <= |ops|
    requires id in trace[n].store
    ensures var p := trace[n].store[id];
      var ls := p.levels;
      (NoneIs(ls, LevelActive) || NoneIs(ls, LevelSuspended)) &&
      (p.state.IsTerminal() ==> NoneIs(ls, LevelActive)) &&
      (p.state == StateClosed ==> AllDone(ls)) &&
      (!p.state.IsTerminal() ==> p.remainingSize > 0)
  {
    RunKeepsOrder(cfg, trace, ops, n);
  }
}
