/**
 How much a renewed permit has to be for: the most that the levels a position has now can still swap between
 them, in whatever order they fire and whichever of them take others down.
 */
module Renewal {
  import opened Types
  import opened TriggerIndex
  import opened Amounts
  import opened Lifecycle
  import opened SwapOnce
  import opened Accounting
  import opened PermitBudget

  // ---- Levels that fire one after another ----

  predicate Fires(p: Position, i: nat) {
    !p.state.IsTerminal() && i < |p.levels| && p.levels[i].status == LevelActive
  }

  /** The price at which a level fires does not matter to the sizes. */
  function Next(p: Position, i: nat): Position
    requires i < |p.levels|
  {
    Fired(p, i, 0)
  }

  /** Each level is active, in a live position, when its turn comes. */
  predicate FireInTurn(p: Position, order: seq<nat>)
    decreases |order|
  {
    order == [] || (Fires(p, order[0]) && FireInTurn(Next(p, order[0]), order[1..]))
  }

  function Taken(p: Position, order: seq<nat>): int
    requires FireInTurn(p, order)
    decreases |order|
  {
    if order == [] then 0 else AmountIn(p, order[0]) + Taken(Next(p, order[0]), order[1..])
  }

  // ---- The most they can take ----

  lemma FewerFire(p: Position, i: nat)
    requires Fires(p, i)
    ensures |Next(p, i).Those(LevelActive)| < |p.Those(LevelActive)|
  {
    var q := Next(p, i);
    assert q.Those(LevelActive) <= p.Those(LevelActive) - {i};
    SubsetSize(q.Those(LevelActive), p.Those(LevelActive) - {i});
  }

  lemma {:induction false} SubsetSize(a: set<nat>, b: set<nat>)
    requires a <= b
    ensures |a| <= |b|
  {
    if x :| x in a {
      SubsetSize(a - {x}, b - {x});
    }
  }

  /** What is taken at most if one of the levels below `k` is the first to fire. */
  function NeedBelow(p: Position, k: nat): int
    requires k <= |p.levels| && !p.state.IsTerminal()
    decreases |p.Those(LevelActive)|, k
  {
    if k == 0 then 0
    else
      var r := NeedBelow(p, k - 1);
      if p.levels[k - 1].status != LevelActive then r
      else
        FewerFire(p, k - 1);
        Max(r, AmountIn(p, k - 1) + Need(Next(p, k - 1)))
  }

  /** The most that the position's levels can take. */
  function Need(p: Position): int
    decreases |p.Those(LevelActive)|, |p.levels| + 1
  {
    if p.state.IsTerminal() then 0 else NeedBelow(p, |p.levels|)
  }

  function Max(x: int, y: int): int {
    if x < y then y else x
  }

  lemma {:induction false} NeedBelowAtLeast(p: Position, k: nat, i: nat)
    requires k <= |p.levels| && i < k && Fires(p, i)
    ensures AmountIn(p, i) + Need(Next(p, i)) <= NeedBelow(p, k)
  {
    hide Next, Need, AmountIn;
    if i < k - 1 {
      NeedBelowAtLeast(p, k - 1, i);
    }
  }

  /** It is the amount of any level that fires and what the rest can take then, at least, */
  lemma NeedAtLeast(p: Position, i: nat)
    requires Fires(p, i)
    ensures AmountIn(p, i) + Need(Next(p, i)) <= Need(p)
  {
    NeedBelowAtLeast(p, |p.levels|, i);
    hide Next, AmountIn, NeedBelow;
  }

  lemma {:induction false} NeedBelowFrom(p: Position, k: nat) returns (i: Option<nat>)
    requires k <= |p.levels| && !p.state.IsTerminal()
    ensures if i.None? then NeedBelow(p, k) == 0
            else i.value < k && Fires(p, i.value) && NeedBelow(p, k) == AmountIn(p, i.value) + Need(Next(p, i.value))
  {
    hide Next, Need, AmountIn;
    i := None;
    if k > 0 {
      i := NeedBelowFrom(p, k - 1);
      if p.levels[k - 1].status == LevelActive && NeedBelow(p, k - 1) < AmountIn(p, k - 1) + Need(Next(p, k - 1)) {
        i := Some(k - 1);
      }
    }
  }

  /** and of one of them exactly, if there is anything to take. */
  lemma NeedFrom(p: Position) returns (i: Option<nat>)
    ensures if i.None? then Need(p) == 0 else Fires(p, i.value) && Need(p) == AmountIn(p, i.value) + Need(Next(p, i.value))
  {
    i := None;
    if !p.state.IsTerminal() {
      i := NeedBelowFrom(p, |p.levels|);
    }
    hide Next, AmountIn, NeedBelow;
  }

  lemma {:induction false} TakenAtMost(p: Position, order: seq<nat>)
    requires FireInTurn(p, order)
    ensures Taken(p, order) <= Need(p)
    decreases |order|
  {
    hide Need, Next, AmountIn;
    if order == [] {
      NeedNonNegative(p);
    } else {
      TakenAtMost(Next(p, order[0]), order[1..]);
      NeedAtLeast(p, order[0]);
    }
  }

  lemma NeedNonNegative(p: Position)
    ensures Need(p) >= 0
  {
    if !p.state.IsTerminal() { NeedBelowNonNegative(p, |p.levels|); }
  }

  lemma {:induction false} NeedBelowNonNegative(p: Position, k: nat)
    requires k <= |p.levels| && !p.state.IsTerminal()
    ensures NeedBelow(p, k) >= 0
  {
    hide Next, Need, AmountIn;
    if k > 0 { NeedBelowNonNegative(p, k - 1); }
  }

  lemma {:induction false} SomeOrderTakes(p: Position) returns (order: seq<nat>)
    ensures FireInTurn(p, order) && Taken(p, order) == Need(p)
    decreases |p.Those(LevelActive)|
  {
    var i := NeedFrom(p);
    order := [];
    if i.Some? {
      FewerFire(p, i.value);
      var rest := SomeOrderTakes(Next(p, i.value));
      hide Need, Next, AmountIn;
      order := [i.value] + rest;
      assert order[1..] == rest;
    }
  }

  /**
   The least amount: a permit covers whatever of the position's levels fires, in whatever order, exactly when
   it is for at least what they need.
   */
  lemma CoversLevelsExactlyWhen(p: Position, amount: int)
    ensures (forall order: seq<nat> :: FireInTurn(p, order) ==> Taken(p, order) <= amount) <==> Need(p) <= amount
  {
    hide Need, Taken, FireInTurn;
    if Need(p) <= amount {
      forall order: seq<nat> | FireInTurn(p, order)
        ensures Taken(p, order) <= amount
      {
        TakenAtMost(p, order);
      }
    } else {
      var order := SomeOrderTakes(p);
    }
  }

  // ---- In a run ----

  /** The same position with at most the same levels active, as far as sizes go. */
  predicate Within(q: Position, p: Position) {
    && q.remainingSize == p.remainingSize && (p.state.IsTerminal() ==> q.state.IsTerminal()) && |q.levels| == |p.levels|
    && forall i :: 0 <= i < |p.levels| ==>
         q.levels[i].typ == p.levels[i].typ && q.levels[i].portionBps == p.levels[i].portionBps &&
         q.levels[i].cancelOnFire == p.levels[i].cancelOnFire &&
         (q.levels[i].status == LevelActive ==> p.levels[i].status == LevelActive)
  }

  lemma FiredWithin(q: Position, p: Position, i: nat, price: int, price': int)
    requires Within(q, p) && Fires(q, i)
    ensures Fires(p, i) && AmountIn(q, i) == AmountIn(p, i) && Within(Fired(q, i, price), Fired(p, i, price'))
  {
    var q', p' := Fired(q, i, price), Fired(p, i, price');
    StatusAfter(q, i, price);
    StatusAfter(p, i, price');
    hide Fired, MulBps, Left, NoneIs, Position.Those;
    if NoneIs(p'.levels, LevelActive) { NoneWithin(q'.levels, p'.levels); }
  }

  lemma NoneWithin(ls: seq<Level>, ls': seq<Level>)
    requires |ls| == |ls'| && NoneIs(ls', LevelActive)
    requires forall i :: 0 <= i < |ls| && ls[i].status == LevelActive ==> ls'[i].status == LevelActive
    ensures NoneIs(ls, LevelActive)
  {
  }

  lemma StatusAfter(p: Position, i: nat, price: int)
    requires i < |p.levels|
    ensures var p' := Fired(p, i, price);
      |p'.levels| == |p.levels| && p'.remainingSize == Left(p.remainingSize, p.levels[i].portionBps) &&
      (p'.state.IsTerminal() <==> p.levels[i].typ == SL || NoneIs(p'.levels, LevelActive) || p'.remainingSize <= 0) &&
      forall j :: 0 <= j < |p.levels| ==>
        p'.levels[j].typ == p.levels[j].typ && p'.levels[j].portionBps == p.levels[j].portionBps &&
        p'.levels[j].cancelOnFire == p.levels[j].cancelOnFire &&
        (p'.levels[j].status == LevelActive <==>
          p.levels[j].status == LevelActive && j != i && p.levels[i].typ == TP && j !in p.levels[i].cancelOnFire)
  {
    var p' := Fired(p, i, price);
    forall j | 0 <= j < |p.levels|
      ensures p'.levels[j].typ == p.levels[j].typ && p'.levels[j].portionBps == p.levels[j].portionBps
      ensures p'.levels[j].cancelOnFire == p.levels[j].cancelOnFire
      ensures p'.levels[j].status == LevelActive <==>
        p.levels[j].status == LevelActive && j != i && p.levels[i].typ == TP && j !in p.levels[i].cancelOnFire
    {
      LevelAfter(p, i, price, j);
    }
    hide MulBps, FiredLevels, TakenDown, MovedSL;
  }

  lemma LevelAfter(p: Position, i: nat, price: int, j: nat)
    requires i < |p.levels| && j < |p.levels|
    ensures var l, l' := p.levels[j], Fired(p, i, price).levels[j];
      l'.typ == l.typ && l'.portionBps == l.portionBps && l'.cancelOnFire == l.cancelOnFire &&
      (l'.status == LevelActive <==> l.status == LevelActive && j != i && p.levels[i].typ == TP && j !in p.levels[i].cancelOnFire)
  {
    hide MulBps, MovedSL;
  }

  /** Fewer levels need no more. */
  lemma {:induction false} NeedWithin(q: Position, p: Position)
    requires Within(q, p)
    ensures Need(q) <= Need(p)
    decreases |q.Those(LevelActive)|
  {
    var i := NeedFrom(q);
    if i.Some? {
      FewerFire(q, i.value);
      FiredWithin(q, p, i.value, 0, 0);
      NeedWithin(Next(q, i.value), Next(p, i.value));
      NeedAtLeast(p, i.value);
      hide Need, AmountIn, Fired;
    } else {
      NeedNonNegative(p);
    }
  }

  /** Neither adds a level to the position nor renews its permit. */
  predicate Settled(cfg: Config, st: State, op: Op, id: PosId) {
    Regular(cfg, st, op) && !(op.AddLevel? && op.id == id) && !(op.Renew? && op.id == id)
  }

  /** A step takes from a position what it takes from its need, at most. */
  lemma StepTakes(cfg: Config, st: State, op: Op, id: PosId)
    requires Accounts(cfg, st) && id in st.store && Settled(cfg, st, op, id)
    ensures id in Step(cfg, st, op).store
    ensures var p, p' := st.store[id], Step(cfg, st, op).store[id];
      p.remainingSize - p'.remainingSize + Need(p') <= Need(p)
  {
    hide Need, AmountIn, Fired;
    if op.Execute? {
      ExecutionTakes(cfg, st, op.event, op.env, id);
      StepExecutes(cfg, st, op.event, op.env);
    } else {
      OthersWithin(cfg, st, op, id);
      NeedWithin(Step(cfg, st, op).store[id], st.store[id]);
    }
  }

  lemma OthersWithin(cfg: Config, st: State, op: Op, id: PosId)
    requires StoreOk(cfg, st) && id in st.store && !op.Execute? && !(op.AddLevel? && op.id == id) && !(op.Renew? && op.id == id)
    ensures id in Step(cfg, st, op).store && Within(Step(cfg, st, op).store[id], st.store[id])
  {
    hide UpdateStep, AddStep, RemoveStep, CancelStep, RenewStep, ExpireStep, OpenStep, LoadStep, ExecuteStep, RestartStep, PriceStep, CutPriceStep;
    if op.Restart? {
      RestartKeepsRest(st, op.ids);
    } else if op.UpdateLevel? || op.AddLevel? || op.RemoveLevel? {
      EditsWithin(st, op, id);
    } else if op.Cancel? || op.Renew? || op.Expire? {
      SweepsWithin(st, op, id);
    } else if op.Price? || op.CutPrice? {
      PricesKeepStore(cfg, st, op);
    } else {
      AddsOnly(cfg, st, op, id);
    }
  }

  lemma EditsWithin(st: State, op: Op, id: PosId)
    requires (op.UpdateLevel? || op.AddLevel? || op.RemoveLevel?) && !(op.AddLevel? && op.id == id)
    requires id in st.store && (op.id in st.store ==> st.store[op.id].id == op.id)
    ensures var st' := match op
                       case UpdateLevel(o, level, price, getOk, ok) => UpdateStep(st, o, level, price, getOk, ok)
                       case AddLevel(o, lp, getOk, ok) => AddStep(st, o, lp, getOk, ok)
                       case RemoveLevel(o, level, getOk, ok) => RemoveStep(st, o, level, getOk, ok);
      id in st'.store && Within(st'.store[id], st.store[id])
  {
    hide Register, Remove, UpdateTriggerPrice, FiresAbove;
  }

  lemma SweepsWithin(st: State, op: Op, id: PosId)
    requires (op.Cancel? || op.Renew? || op.Expire?) && !(op.Renew? && op.id == id)
    requires id in st.store && (op.id in st.store ==> st.store[op.id].id == op.id)
    ensures var st' := match op
                       case Cancel(o, getOk, ok) => CancelStep(st, o, getOk, ok)
                       case Renew(o, owner, signed, nonce, deadline, amount, getOk, ok) =>
                         RenewStep(st, o, owner, signed, nonce, deadline, amount, getOk, ok)
                       case Expire(o, now, ok) => ExpireStep(st, o, now, ok);
      id in st'.store && Within(st'.store[id], st.store[id])
  {
    hide Register, Remove, RegisterAll;
  }

  lemma AddsOnly(cfg: Config, st: State, op: Op, id: PosId)
    requires (op.Open? || op.Load?) && id in st.store
    ensures id in Step(cfg, st, op).store && Step(cfg, st, op).store[id] == st.store[id]
  {
    hide RegisterAll, ValidOpen;
  }

  lemma PricesKeepStore(cfg: Config, st: State, op: Op)
    requires op.Price? || op.CutPrice?
    ensures Step(cfg, st, op).store == st.store
  {
    hide OnPrice;
  }

  lemma ExecutionTakes(cfg: Config, st: State, ev: Event, env: Env, id: PosId)
    requires Accounts(cfg, st) && id in st.store && Accounted(cfg, st, Execute(ev, env))
    ensures var st' := ExecuteStep(cfg, st, ev, env);
      id in st'.store && st.store[id].remainingSize - st'.store[id].remainingSize + Need(st'.store[id]) <= Need(st.store[id])
  {
    var p, st' := st.store[id], ExecuteStep(cfg, st, ev, env);
    if ev in st.inflight && OutcomeOf(cfg, st, ev, env) == Recorded && ev.pos == id {
      RecordedState(cfg, st, ev, env);
      var q, i := AtSwap(cfg, st, ev, env), ev.level;
      hide ExecuteStep, OutcomeOf, Activates, Need, AmountIn, Fired;
      assert Within(q, p) && Fires(q, i);
      FiredWithin(q, p, i, ev.price, 0);
      NeedWithin(Fired(q, i, ev.price), Next(p, i));
      NeedAtLeast(p, i);
      StatusAfter(q, i, ev.price);
      LeavesRest(cfg, st, p, i);
    } else {
      UnrecordedWithin(cfg, st, ev, env, id);
      NeedWithin(st'.store[id], p);
    }
  }

  lemma LeavesRest(cfg: Config, st: State, p: Position, i: nat)
    requires Accounts(cfg, st) && p.id in st.store && st.store[p.id] == p && i < |p.levels|
    ensures p.remainingSize - Left(p.remainingSize, p.levels[i].portionBps) == AmountIn(p, i)
  {
    assert AccountOf(st.store, SwapsOf(st.swaps, p.id), p.id);
    MulBpsWithin(p.remainingSize, p.levels[i].portionBps);
    hide MulBps;
  }

  lemma UnrecordedWithin(cfg: Config, st: State, ev: Event, env: Env, id: PosId)
    requires StoreOk(cfg, st) && id in st.store && Accounted(cfg, st, Execute(ev, env))
    requires !(ev in st.inflight && OutcomeOf(cfg, st, ev, env) == Recorded && ev.pos == id)
    ensures id in ExecuteStep(cfg, st, ev, env).store && Within(ExecuteStep(cfg, st, ev, env).store[id], st.store[id])
  {
    var out := OutcomeOf(cfg, st, ev, env);
    StoresItsOwn(cfg, st, ev, env);
    if ev !in st.inflight || out == Skipped || out == Panicked {
      QuietState(cfg, st, ev, env);
    } else if out == Requeued {
      assert WellFormed(cfg, ev.pos, st.store[ev.pos]);
      RequeuedState(cfg, st, ev, env);
    }
    hide Fired, FiredIndex, Register, Remove, SwapOf, GrantsAt, Debit, Covers;
  }

  lemma {:induction false} RunTakes(cfg: Config, trace: seq<State>, ops: seq<Op>, m: nat, n: nat, id: PosId)
    requires IsRun(cfg, trace, ops, (s, op) => Regular(cfg, s, op)) && trace[0] == EMPTY && m <= n <= |ops|
    requires id in trace[m].store && forall i :: m <= i < n ==> Settled(cfg, trace[i], ops[i], id)
    ensures id in trace[n].store
    ensures trace[m].store[id].remainingSize - trace[n].store[id].remainingSize + Need(trace[n].store[id]) <= Need(trace[m].store[id])
  {
    hide Step, Need, Settled, Regular;
    if m < n {
      RunTakes(cfg, trace, ops, m, n - 1, id);
      RunKeepsAccounts(cfg, trace, ops, n - 1);
      StepTakes(cfg, trace[n - 1], ops[n - 1], id);
    }
  }

  /**
   Over any run from there in which no level is added and the permit is not renewed again, whatever is
   repriced, removed, suspended or retried: no more is swapped than the position needs.
   */
  lemma SpentWithinNeed(cfg: Config, trace: seq<State>, ops: seq<Op>, m: nat, n: nat, id: PosId)
    requires IsRun(cfg, trace, ops, (s, op) => Regular(cfg, s, op)) && trace[0] == EMPTY && m <= n <= |ops|
    requires id in trace[m].store && forall i :: m <= i < n ==> Settled(cfg, trace[i], ops[i], id)
    ensures Spent(trace[n], id) - Spent(trace[m], id) <= Need(trace[m].store[id])
  {
    hide Step, Need, Settled, Regular;
    RunTakes(cfg, trace, ops, m, n, id);
    NeedNonNegative(trace[n].store[id]);
    SpentIsTaken(cfg, trace, ops, m, n, id);
  }

  // ---- The need and the remaining size ----

  ghost predicate Sized(p: Position) {
    p.remainingSize >= 0 && forall i :: 0 <= i < |p.levels| ==> p.levels[i].portionBps <= BPS
  }

  lemma NextSized(p: Position, i: nat)
    requires Sized(p) && i < |p.levels|
    ensures Sized(Next(p, i)) && 0 <= AmountIn(p, i) && Next(p, i).remainingSize == p.remainingSize - AmountIn(p, i)
    ensures p.remainingSize > 0 ==> (AmountIn(p, i) == p.remainingSize <==> p.levels[i].portionBps == BPS)
  {
    StatusAfter(p, i, 0);
    MulBpsWithin(p.remainingSize, p.levels[i].portionBps);
    hide MulBps, Fired;
  }

  /**
   The levels need at most what remains, and all of it exactly when one that fires takes all: a renewal for
   less than the remaining size can be enough.
   */
  lemma {:induction false} NeedIsAllExactlyWhen(p: Position)
    requires Sized(p) && p.remainingSize > 0
    ensures Need(p) <= p.remainingSize
    ensures Need(p) == p.remainingSize <==> exists i: nat :: Fires(p, i) && p.levels[i].portionBps == BPS
    decreases |p.Those(LevelActive)|
  {
    var i := NeedFrom(p);
    if i.Some? {
      FewerFire(p, i.value);
      NextSized(p, i.value);
      if Next(p, i.value).remainingSize > 0 {
        NeedIsAllExactlyWhen(Next(p, i.value));
        NothingNew(p, i.value);
      } else {
        NothingLeft(p, i.value);
      }
    }
    forall j: nat | Fires(p, j) && p.levels[j].portionBps == BPS
      ensures Need(p) >= p.remainingSize
    {
      NextSized(p, j);
      NeedAtLeast(p, j);
      NeedNonNegative(Next(p, j));
    }
  }

  /** A level that fires after another was active before it, with the same portion. */
  lemma NothingNew(p: Position, i: nat)
    requires Fires(p, i)
    ensures forall j: nat :: Fires(Next(p, i), j) ==> Fires(p, j) && Next(p, i).levels[j].portionBps == p.levels[j].portionBps
  {
    StatusAfter(p, i, 0);
  }

  lemma NothingLeft(p: Position, i: nat)
    requires i < |p.levels| && Next(p, i).remainingSize <= 0
    ensures Need(Next(p, i)) == 0
  {
    StatusAfter(p, i, 0);
  }
}
