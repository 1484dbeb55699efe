/**
 Size accounting over runs: what remains plus what was recorded as executed is the opening size, the
 swap log agrees with both, and the remaining size follows the decay law of `Amounts`.
 */
module Accounting {
  import opened Types
  import opened TriggerIndex
  import opened Amounts
  import opened Lifecycle
  import opened SwapOnce
  import Prices

  /** Recorded execution amounts, level by level. */
  function ExecAmounts(ls: seq<Level>): (r: seq<int>)
    ensures |r| == |ls|
  {
    seq(|ls|, i requires 0 <= i < |ls| => if ls[i].execAmount.Some? then ls[i].execAmount.value else 0)
  }

  /** Within one position: sizes are in range and add up, and only done levels have executed. */
  ghost predicate Balanced(p: Position) {
    && 0 <= p.remainingSize <= p.totalSize && p.totalSize > 0
    && (forall i :: 0 <= i < |p.levels| ==> p.levels[i].portionBps <= BPS)
    && (forall i :: 0 <= i < |p.levels| && !Done(p.levels[i].status) ==> p.levels[i].execAmount.None?)
    && p.remainingSize + Sum(ExecAmounts(p.levels)) == p.totalSize
  }

  function AmountsOf(swaps: seq<Swap>): (r: seq<int>) {
    seq(|swaps|, i requires 0 <= i < |swaps| => swaps[i].amountIn)
  }

  function PortionsOf(swaps: seq<Swap>): (r: seq<uint16>) {
    seq(|swaps|, i requires 0 <= i < |swaps| => swaps[i].portionBps)
  }

  /** A position against its swaps, in their order. */
  ghost predicate MatchesLog(p: Position, swaps: seq<Swap>) {
    && Portions(PortionsOf(swaps))
    && p.remainingSize == RemainingAfter(p.totalSize, PortionsOf(swaps))
    && p.remainingSize + Sum(AmountsOf(swaps)) == p.totalSize
  }

  /** The accounting of one id: a balanced position that matches its swaps, or neither position nor swaps. */
  ghost predicate AccountOf(store: map<PosId, Position>, swaps: seq<Swap>, id: PosId) {
    if id in store then Balanced(store[id]) && MatchesLog(store[id], swaps) else swaps == []
  }

  ghost predicate Accounts(cfg: Config, st: State) {
    StoreOk(cfg, st) && forall id :: AccountOf(st.store, SwapsOf(st.swaps, id), id)
  }

  /** AddLevel does not check its portion; the accounting needs it to be at most 10000. */
  predicate BoundedPortion(op: Op) {
    op.AddLevel? ==> op.params'.portionBps <= BPS
  }

  /** Nothing that the accounting reads has changed. */
  ghost predicate SameSizes(p: Position, p': Position) {
    && p'.remainingSize == p.remainingSize && p'.totalSize == p.totalSize && |p.levels| <= |p'.levels|
    && (forall i :: 0 <= i < |p.levels| ==>
          p'.levels[i].portionBps == p.levels[i].portionBps && p'.levels[i].execAmount == p.levels[i].execAmount &&
          (Done(p.levels[i].status) ==> Done(p'.levels[i].status)))
    && (forall i :: |p.levels| <= i < |p'.levels| ==> p'.levels[i].execAmount.None? && p'.levels[i].portionBps <= BPS)
  }

  lemma {:induction false} SumOfNew(a: seq<int>, b: seq<int>)
    requires forall i :: 0 <= i < |b| ==> b[i] == 0
    ensures Sum(a + b) == Sum(a)
  {
    if b == [] {
      assert a + b == a;
    } else {
      var n := |b| - 1;
      assert a + b == (a + b[..n]) + [b[n]];
      SumSnoc(a + b[..n], b[n]);
      SumOfNew(a, b[..n]);
    }
  }

  lemma SameSizesBalanced(p: Position, p': Position)
    requires Balanced(p) && SameSizes(p, p')
    ensures Balanced(p')
  {
    var a, b := ExecAmounts(p.levels), ExecAmounts(p'.levels)[|p.levels|..];
    assert ExecAmounts(p'.levels) == a + b;
    SumOfNew(a, b);
  }

  /** What firing does to the recorded sizes: only level `i` executes, for its share of what remained. */
  lemma FiredSizes(p: Position, i: nat, price: int)
    requires i < |p.levels| && p.levels[i].status == LevelActive
    ensures var p', amount := Fired(p, i, price), MulBps(p.remainingSize, p.levels[i].portionBps);
      p'.totalSize == p.totalSize && p'.remainingSize == Clamp(p.remainingSize - amount) && |p'.levels| == |p.levels| &&
      Done(p'.levels[i].status) && p'.levels[i].execAmount == Some(amount) &&
      forall j :: 0 <= j < |p.levels| ==>
        p'.levels[j].portionBps == p.levels[j].portionBps &&
        (j != i ==> p'.levels[j].execAmount == p.levels[j].execAmount && (Done(p.levels[j].status) ==> Done(p'.levels[j].status)))
  {
    var p' := Fired(p, i, price);
    forall j | 0 <= j < |p.levels|
      ensures p'.levels[j].portionBps == p.levels[j].portionBps
      ensures j != i ==> p'.levels[j].execAmount == p.levels[j].execAmount
      ensures j != i ==> (Done(p.levels[j].status) ==> Done(p'.levels[j].status))
    {
      FiredSize(p, i, price, j);
    }
    FiredSize(p, i, price, i);
    hide FiredLevels, MovedSL, MulBps;
  }

  lemma FiredSize(p: Position, i: nat, price: int, j: nat)
    requires i < |p.levels| && p.levels[i].status == LevelActive && j < |p.levels|
    ensures var l, l' := p.levels[j], Fired(p, i, price).levels[j];
      l'.portionBps == l.portionBps &&
      if j == i then Done(l'.status) && l'.execAmount == Some(MulBps(p.remainingSize, l.portionBps))
      else l'.execAmount == l.execAmount && (Done(l.status) ==> Done(l'.status))
  {
    hide MulBps, MovedSL;
  }

  /** Firing a level moves its amount from the remaining size to the level, and loses nothing to the clamp. */
  lemma FiredBalanced(p: Position, i: nat, price: int)
    requires Balanced(p) && i < |p.levels| && p.levels[i].status == LevelActive
    ensures Balanced(Fired(p, i, price))
    ensures Fired(p, i, price).remainingSize + MulBps(p.remainingSize, p.levels[i].portionBps) == p.remainingSize
  {
    var p', amount := Fired(p, i, price), MulBps(p.remainingSize, p.levels[i].portionBps);
    MulBpsWithin(p.remainingSize, p.levels[i].portionBps);
    FiredSizes(p, i, price);
    MovedBalanced(p, p', i, amount);
  }

  lemma MovedBalanced(p: Position, p': Position, i: nat, amount: nat)
    requires Balanced(p) && i < |p.levels| && !Done(p.levels[i].status) && amount <= p.remainingSize
    requires p'.totalSize == p.totalSize && p'.remainingSize == p.remainingSize - amount && |p'.levels| == |p.levels|
    requires Done(p'.levels[i].status) && p'.levels[i].execAmount == Some(amount)
    requires forall j :: 0 <= j < |p.levels| ==>
        p'.levels[j].portionBps == p.levels[j].portionBps &&
        (j != i ==> p'.levels[j].execAmount == p.levels[j].execAmount && (Done(p.levels[j].status) ==> Done(p'.levels[j].status)))
    ensures Balanced(p')
  {
    assert ExecAmounts(p'.levels) == ExecAmounts(p.levels)[i := amount];
    SumUpdate(ExecAmounts(p.levels), i, amount);
  }

  lemma FiredMatches(cfg: Config, p: Position, i: nat, price: int, swaps: seq<Swap>)
    requires Balanced(p) && i < |p.levels| && p.levels[i].status == LevelActive && p.chain in cfg
    requires MatchesLog(p, swaps)
    ensures MatchesLog(Fired(p, i, price), swaps + [SwapOf(cfg, p, i)])
  {
    FiredBalanced(p, i, price);
    FiredLeaves(cfg, p, i, price);
    assert p.levels[i].portionBps <= BPS;
    hide Fired, SwapOf, MulBps, Balanced, MatchesLog;
    MatchesNext(p, Fired(p, i, price), swaps, SwapOf(cfg, p, i));
  }

  lemma FiredLeaves(cfg: Config, p: Position, i: nat, price: int)
    requires i < |p.levels| && p.chain in cfg
    ensures var s, p' := SwapOf(cfg, p, i), Fired(p, i, price);
      p'.totalSize == p.totalSize && p'.remainingSize == Left(p.remainingSize, s.portionBps) &&
      s.amountIn == MulBps(p.remainingSize, p.levels[i].portionBps) && s.portionBps == p.levels[i].portionBps
  {
    hide FiredLevels, MovedSL, MulBps, Prices.MinAmountOut;
  }

  lemma MatchesNext(p: Position, p': Position, swaps: seq<Swap>, s: Swap)
    requires MatchesLog(p, swaps) && p'.totalSize == p.totalSize && p'.remainingSize == Left(p.remainingSize, s.portionBps)
    requires p'.remainingSize + s.amountIn == p.remainingSize && s.portionBps <= BPS
    ensures MatchesLog(p', swaps + [s])
  {
    assert PortionsOf(swaps + [s]) == PortionsOf(swaps) + [s.portionBps];
    RemainingAfterSnoc(p.totalSize, PortionsOf(swaps), s.portionBps);
    assert AmountsOf(swaps + [s]) == AmountsOf(swaps) + [s.amountIn];
    SumSnoc(AmountsOf(swaps), s.amountIn);
  }

  /** A step that stores a position with the same sizes, or nothing, and swaps nothing. */
  lemma QuietStep(cfg: Config, st: State, st': State, p': Position)
    requires Accounts(cfg, st) && StoreOk(cfg, st') && st'.swaps == st.swaps
    requires p'.id in st.store && SameSizes(st.store[p'.id], p')
    requires st'.store == st.store || st'.store == st.store[p'.id := p']
    ensures Accounts(cfg, st')
  {
    assert AccountOf(st.store, SwapsOf(st.swaps, p'.id), p'.id);
    SameSizesBalanced(st.store[p'.id], p');
    forall id
      ensures AccountOf(st'.store, SwapsOf(st'.swaps, id), id)
    {
      assert AccountOf(st.store, SwapsOf(st.swaps, id), id);
    }
  }

  lemma NewPositionAccounts(cfg: Config, id: PosId, q: OpenParams, now: int)
    requires ValidOpen(cfg, q, now)
    ensures Balanced(NewPosition(id, q)) && MatchesLog(NewPosition(id, q), [])
  {
    var p := NewPosition(id, q);
    assert ExecAmounts(p.levels) == [] + ExecAmounts(p.levels);
    SumOfNew([], ExecAmounts(p.levels));
    forall i | 0 <= i < |p.levels|
      ensures p.levels[i].portionBps <= BPS
    {
      assert ValidParams(q.levels, i);
    }
  }

  lemma OpenAccounts(cfg: Config, st: State, op: Op)
    requires Accounts(cfg, st) && op.Open?
    ensures Accounts(cfg, Step(cfg, st, op))
  {
    StepEvolves(cfg, st, op);
    if ValidOpen(cfg, op.params, op.now) {
      NewPositionAccounts(cfg, op.id, op.params, op.now);
    }
    var st' := Step(cfg, st, op);
    forall id
      ensures AccountOf(st'.store, SwapsOf(st'.swaps, id), id)
    {
      assert AccountOf(st.store, SwapsOf(st.swaps, id), id);
    }
  }

  lemma EditAccounts(cfg: Config, st: State, op: Op)
    requires Accounts(cfg, st) && BoundedPortion(op) && (op.UpdateLevel? || op.AddLevel? || op.RemoveLevel?)
    ensures Accounts(cfg, Step(cfg, st, op))
  {
    StepEvolves(cfg, st, op);
    if op.UpdateLevel? && UpdateAccepted(st, op.id, op.level, op.price, op.getOk) {
      QuietStep(cfg, st, Step(cfg, st, op), Repriced(st.store[op.id], op.level, op.price));
    } else if op.AddLevel? && Live(st, op.id, op.getOk) {
      QuietStep(cfg, st, Step(cfg, st, op), Extended(st.store[op.id], op.params'));
    } else if op.RemoveLevel? && RemoveAccepted(st, op.id, op.level, op.getOk) {
      var p := st.store[op.id];
      QuietStep(cfg, st, Step(cfg, st, op), p.(levels := p.levels[op.level := p.levels[op.level].(status := LevelCancelled)]));
    }
  }

  lemma SuspendAccounts(cfg: Config, st: State, p: Position, ok: bool)
    requires Accounts(cfg, st) && p.id in st.store && st.store[p.id] == p && !p.state.IsTerminal()
    ensures Accounts(cfg, SuspendStep(st, p, ok))
  {
    SuspendEvolves(cfg, st, p, ok);
    QuietStep(cfg, st, SuspendStep(st, p, ok), p.(levels := SetStatus(p.levels, p.Those(LevelActive), LevelSuspended)));
  }

  lemma CancelAccounts(cfg: Config, st: State, id: PosId, getOk: bool, ok: bool)
    requires Accounts(cfg, st)
    ensures Accounts(cfg, CancelStep(st, id, getOk, ok))
  {
    if Live(st, id, getOk) {
      CancelEvolves(cfg, st, id, getOk, ok);
      var p := st.store[id];
      assert WellFormed(cfg, id, p);
      QuietStep(cfg, st, CancelStep(st, id, getOk, ok),
                p.(levels := SetStatus(p.levels, p.Those(LevelActive), LevelCancelled), state := StateCancelled));
    }
  }

  lemma RenewAccounts(cfg: Config, st: State, op: Op)
    requires Accounts(cfg, st) && op.Renew?
    ensures Accounts(cfg, RenewStep(st, op.id, op.owner, op.signed, op.nonce, op.deadline, op.amount, op.getOk, op.updateOk))
  {
    if RenewAccepted(st, op.id, op.owner, op.getOk) {
      var st' := RenewStep(st, op.id, op.owner, op.signed, op.nonce, op.deadline, op.amount, op.getOk, op.updateOk);
      RenewEvolves(cfg, st, op.id, op.signed, op.nonce, op.deadline, op.amount, st'.index, op.updateOk);
      assert WellFormed(cfg, op.id, st.store[op.id]);
      QuietStep(cfg, st, st', Renewed(st.store[op.id], op.signed, op.nonce, op.deadline, op.amount));
    }
  }

  lemma SweepAccounts(cfg: Config, st: State, op: Op)
    requires Accounts(cfg, st) && (op.Cancel? || op.Renew?)
    ensures Accounts(cfg, Step(cfg, st, op))
  {
    hide Accounts, CancelStep, RenewStep, ExecuteStep, RestartStep, PriceStep, CutPriceStep;
    if op.Cancel? {
      CancelAccounts(cfg, st, op.id, op.getOk, op.updateOk);
    } else {
      RenewAccounts(cfg, st, op);
    }
  }

  lemma ActivationIsQuiet(p: Position, swaps: seq<Swap>)
    requires Balanced(p) && MatchesLog(p, swaps)
    ensures Balanced(Activated(p)) && MatchesLog(Activated(p), swaps)
  {
    assert ExecAmounts(Activated(p).levels) == ExecAmounts(p.levels);
  }

  lemma RecordAccounts(cfg: Config, st: State, ev: Event, env: Env)
    requires Accounts(cfg, st) && ev in st.inflight && OutcomeOf(cfg, st, ev, env) == Recorded
    ensures Accounts(cfg, ExecuteStep(cfg, st, ev, env))
  {
    var p0, st' := st.store[ev.pos], ExecuteStep(cfg, st, ev, env);
    var swaps := SwapsOf(st.swaps, ev.pos);
    assert AccountOf(st.store, swaps, ev.pos);
    var p := AtSwap(cfg, st, ev, env);
    ActivationIsQuiet(p0, swaps);
    RecordedState(cfg, st, ev, env);
    RecordedFits(cfg, st, st', p, ev, swaps);
  }

  lemma RecordedFits(cfg: Config, st: State, st': State, p: Position, ev: Event, swaps: seq<Swap>)
    requires Accounts(cfg, st) && p.id == ev.pos && ev.pos in st.store && p.chain in cfg
    requires swaps == SwapsOf(st.swaps, p.id) && Balanced(p) && MatchesLog(p, swaps)
    requires ev.level < |p.levels| && p.levels[ev.level].status == LevelActive
    requires WellFormed(cfg, p.id, Fired(p, ev.level, ev.price))
    requires st'.swaps == st.swaps + [SwapOf(cfg, p, ev.level)]
    requires st'.store == st.store[p.id := Fired(p, ev.level, ev.price)]
    ensures Accounts(cfg, st')
  {
    FiredBalanced(p, ev.level, ev.price);
    FiredMatches(cfg, p, ev.level, ev.price, swaps);
    AppendAccounts(cfg, st, st', Fired(p, ev.level, ev.price), SwapOf(cfg, p, ev.level));
  }

  lemma AppendAccounts(cfg: Config, st: State, st': State, p': Position, swap: Swap)
    requires Accounts(cfg, st) && StoreOk(cfg, st') && p'.id in st.store && swap.pos == p'.id
    requires st'.swaps == st.swaps + [swap] && st'.store == st.store[p'.id := p']
    requires Balanced(p') && MatchesLog(p', SwapsOf(st.swaps, p'.id) + [swap])
    ensures Accounts(cfg, st')
  {
    forall id
      ensures AccountOf(st'.store, SwapsOf(st'.swaps, id), id)
    {
      assert AccountOf(st.store, SwapsOf(st.swaps, id), id);
      SwapsOfSnoc(st.swaps, swap, id);
    }
  }

  lemma ExecuteAccounts(cfg: Config, st: State, ev: Event, env: Env)
    requires Accounts(cfg, st) && Accounted(cfg, st, Execute(ev, env))
    ensures Accounts(cfg, ExecuteStep(cfg, st, ev, env))
  {
    var out, s := OutcomeOf(cfg, st, ev, env), st.(inflight := st.inflight - multiset{ev});
    if ev !in st.inflight || out == Skipped || out == Panicked {
      QuietState(cfg, st, ev, env);
    } else if out == Recorded {
      RecordAccounts(cfg, st, ev, env);
    } else if out == Suspended {
      SuspendAccounts(cfg, s, st.store[ev.pos], env.updateOk);
    } else {
      assert WellFormed(cfg, ev.pos, st.store[ev.pos]);
      ExecuteEvolves(cfg, st, ev, env);
      RequeuedState(cfg, st, ev, env);
      QuietStep(cfg, st, ExecuteStep(cfg, st, ev, env), AtSwap(cfg, st, ev, env));
    }
  }

  lemma StepKeepsAccounts(cfg: Config, st: State, op: Op)
    requires Accounts(cfg, st) && Accounted(cfg, st, op) && BoundedPortion(op)
    ensures Accounts(cfg, Step(cfg, st, op))
  {
    if op.Open? {
      OpenAccounts(cfg, st, op);
    } else if op.UpdateLevel? || op.AddLevel? || op.RemoveLevel? {
      EditAccounts(cfg, st, op);
    } else if op.Cancel? || op.Renew? {
      SweepAccounts(cfg, st, op);
    } else if op.Expire? {
      if ExpiryDue(st, op.id, op.now) { SuspendAccounts(cfg, st, st.store[op.id], op.updateOk); }
    } else if op.Execute? {
      ExecuteAccounts(cfg, st, op.event, op.env);
    } else if op.Restart? {
      RestartKeepsRest(st, op.ids);
    }
  }

  predicate Regular(cfg: Config, st: State, op: Op) {
    Accounted(cfg, st, op) && BoundedPortion(op)
  }

  lemma {:induction false} RunKeepsAccounts(cfg: Config, trace: seq<State>, ops: seq<Op>, n: nat)
    requires IsRun(cfg, trace, ops, (s, op) => Regular(cfg, s, op)) && n <= |ops|
    requires Accounts(cfg, trace[0])
    ensures Accounts(cfg, trace[n])
  {
    if n > 0 {
      RunKeepsAccounts(cfg, trace, ops, n - 1);
      StepKeepsAccounts(cfg, trace[n - 1], ops[n - 1]);
    }
  }

  /**
   Size conservation, in every state of every run whose swaps are all stored and whose added levels have
   portions of at most 10000: remaining plus recorded amounts is the opening size, the swaps on chain
   total the same, and the remaining size is in range.
   */
  lemma SizeIsConserved(cfg: Config, trace: seq<State>, ops: seq<Op>, n: nat, id: PosId)
    requires IsRun(cfg, trace, ops, (s, op) => Regular(cfg, s, op)) && trace[0] == EMPTY && n <= |ops|
    requires id in trace[n].store
    ensures var p, swaps := trace[n].store[id], SwapsOf(trace[n].swaps, id);
      var t, r := p.totalSize, p.remainingSize;
      0 <= r <= t && r + Sum(ExecAmounts(p.levels)) == t && r + Sum(AmountsOf(swaps)) == t
  {
    RunKeepsAccounts(cfg, trace, ops, n);
    assert AccountOf(trace[n].store, SwapsOf(trace[n].swaps, id), id);
  }

  /** And in the same states the remaining size decays as the portions swapped say, to within one unit a swap. */
  lemma SizeDecays(cfg: Config, trace: seq<State>, ops: seq<Op>, n: nat, id: PosId)
    requires IsRun(cfg, trace, ops, (s, op) => Regular(cfg, s, op)) && trace[0] == EMPTY && n <= |ops|
    requires id in trace[n].store
    ensures DecayLaw(trace[n].store[id].totalSize, trace[n].store[id].remainingSize, PortionsOf(SwapsOf(trace[n].swaps, id)))
  {
    RunKeepsAccounts(cfg, trace, ops, n);
    assert AccountOf(trace[n].store, SwapsOf(trace[n].swaps, id), id);
    DecayLawHolds(trace[n].store[id].totalSize, PortionsOf(SwapsOf(trace[n].swaps, id)));
  }
}
