/**
 How a level comes to be swapped twice: a swap that happened and is not stored, and a write that undoes what
 is stored. Each with its exact condition, and with runs from the empty manager that end in a second swap.
 */
module SwapTwice {
  import opened Types
  import opened TriggerIndex
  import opened Lifecycle
  import opened SwapOnce
  import opened Coverage
  import opened FailedWrites

  predicate Any(st: State, op: Op) {
    true
  }

  /** Everything outside answers. */
  const GOOD := Env(0, true, true, true, Confirmed, true, Confirmed, true)

  /** The swap is made, at the latest when it is attempted. */
  predicate Obliging(env: Env) {
    env.getOk && env.feeOk && env.breakerOk && env.swap != Failed
  }

  /** The new position gets to the store. */
  predicate Stores(p: Position, i: nat, env: Env)
    requires i < |p.levels|
  {
    env.swap == Confirmed && !HasNegativeIndex(p.levels[i]) && env.persistOk
  }

  // ---- A swap that is not stored ----

  lemma RecordsExactlyWhen(cfg: Config, st: State, ev: Event, env: Env)
    requires OutcomeOf(cfg, st, ev, env).Swaps()
    ensures Eligible(cfg, st, ev, env)
    ensures OutcomeOf(cfg, st, ev, env) == Recorded <==> Stores(st.store[ev.pos], ev.level, env)
  {
  }

  /** After a swap the level is still active exactly when its confirmation, its listed levels or its store write failed. */
  lemma StaysActiveExactlyWhen(cfg: Config, st: State, ev: Event, env: Env)
    requires StoreOk(cfg, st) && ev in st.inflight && OutcomeOf(cfg, st, ev, env).Swaps()
    ensures var st', p := ExecuteStep(cfg, st, ev, env), st.store[ev.pos];
      ev.pos in st'.store && ev.level < |st'.store[ev.pos].levels| && st'.swaps == st.swaps + [SwapOf(cfg, p, ev.level)] &&
      (st'.store[ev.pos].levels[ev.level].status == LevelActive <==> !Stores(p, ev.level, env)) &&
      (!Stores(p, ev.level, env) ==> st'.store[ev.pos].(permit := p.permit) == p)
  {
    hide ExecuteStep, OutcomeOf, Activates, Fired, StoreOk, Stores;
    RecordsExactlyWhen(cfg, st, ev, env);
    if OutcomeOf(cfg, st, ev, env) == Recorded {
      RecordedState(cfg, st, ev, env);
      FiredEvolves(cfg, AtSwap(cfg, st, ev, env), ev.level, ev.price);
    } else {
      UnstoredState(cfg, st, ev, env);
    }
  }

  // ---- Runs that fire a level ----

  /** A position that trades on its own approval, with a level ready to fire. */
  predicate Ready(cfg: Config, st: State, id: PosId, i: nat) {
    && Live(st, id, true) && st.store[id].id == id && st.store[id].chain in cfg && !st.store[id].permit.signed
    && i < |st.store[id].levels| && st.store[id].levels[i].status == LevelActive
    && !HasNegativeIndex(st.store[id].levels[i])
  }

  /** The price of a registered level puts it in flight and changes nothing else of a position. */
  lemma PriceFires(cfg: Config, st: State, id: PosId, i: nat) returns (ev: Event)
    requires Ready(cfg, st, id, i) && Has(st.index, st.store[id].Pair(), st.store[id].Up(i), st.store[id].EntryOf(i))
    ensures var st' := PriceStep(st, st.store[id].Pair(), st.store[id].levels[i].triggerPrice);
      ev in st'.inflight && ev.pos == id && ev.level == i && st'.store == st.store && st'.swaps == st.swaps
  {
    var p := st.store[id];
    ev := EventOf(p.EntryOf(i), p.levels[i].triggerPrice, p.chain);
    EntryReaches(st, p.Pair(), p.Up(i), p.EntryOf(i));
  }

  /** Executing an event of a ready level swaps it, and leaves it ready unless the swap is stored. */
  lemma ReadySwaps(cfg: Config, st: State, ev: Event, env: Env)
    requires StoreOk(cfg, st) && Ready(cfg, st, ev.pos, ev.level) && ev in st.inflight && Obliging(env)
    ensures var st', p := ExecuteStep(cfg, st, ev, env), st.store[ev.pos];
      StoreOk(cfg, st') && st'.swaps == st.swaps + [SwapOf(cfg, p, ev.level)] &&
      (!Stores(p, ev.level, env) ==> Ready(cfg, st', ev.pos, ev.level))
  {
    assert OutcomeOf(cfg, st, ev, env).Swaps();
    StaysActiveExactlyWhen(cfg, st, ev, env);
    ExecuteEvolves(cfg, st, ev, env);
    hide ExecuteStep, OutcomeOf, SwapOf;
  }

  lemma StepIs(cfg: Config, st: State, pair: TokenPair, price: int, ev: Event, env: Env)
    ensures Step(cfg, st, Price(pair, price)) == PriceStep(st, pair, price)
    ensures Step(cfg, st, Execute(ev, env)) == ExecuteStep(cfg, st, ev, env)
  {
    hide PriceStep, ExecuteStep;
  }

  /** A run goes on with the level's price and the execution of its event. */
  lemma FireOn(cfg: Config, trace: seq<State>, ops: seq<Op>, id: PosId, i: nat, env: Env) returns (trace': seq<State>, ops': seq<Op>)
    requires IsRun(cfg, trace, ops, Any) && StoreOk(cfg, trace[|ops|]) && Obliging(env)
    requires Ready(cfg, trace[|ops|], id, i)
    requires var st := trace[|ops|]; Has(st.index, st.store[id].Pair(), st.store[id].Up(i), st.store[id].EntryOf(i))
    ensures IsRun(cfg, trace', ops', Any) && ops <= ops' && trace <= trace' && StoreOk(cfg, trace'[|ops'|])
    ensures var p, st' := trace[|ops|].store[id], trace'[|ops'|];
      st'.swaps == trace[|ops|].swaps + [SwapOf(cfg, p, i)] && (!Stores(p, i, env) ==> Ready(cfg, st', id, i))
  {
    hide Step, PriceStep, ExecuteStep, Has, SwapOf, HasNegativeIndex;
    var st := trace[|ops|];
    var pair, trigger := st.store[id].Pair(), st.store[id].levels[i].triggerPrice;
    var ev := PriceFires(cfg, st, id, i);
    var st1 := Step(cfg, st, Price(pair, trigger));
    StepIs(cfg, st, pair, trigger, ev, env);
    StepIs(cfg, st1, pair, trigger, ev, env);
    assert StoreOk(cfg, st1) && Ready(cfg, st1, id, i);
    ReadySwaps(cfg, st1, ev, env);
    RunExtends(cfg, trace, ops, Any, Price(pair, trigger));
    RunExtends(cfg, trace + [st1], ops + [Price(pair, trigger)], Any, Execute(ev, env));
    trace', ops' := trace + [st1] + [Step(cfg, st1, Execute(ev, env))], ops + [Price(pair, trigger)] + [Execute(ev, env)];
  }

  /** Whatever happened before, a restart and the level's price swap an active level. */
  lemma RestartAndFire(cfg: Config, trace: seq<State>, ops: seq<Op>, id: PosId, i: nat, env: Env)
    returns (trace': seq<State>, ops': seq<Op>)
    requires IsRun(cfg, trace, ops, Any) && StoreOk(cfg, trace[|ops|]) && Obliging(env) && Ready(cfg, trace[|ops|], id, i)
    ensures IsRun(cfg, trace', ops', Any) && ops <= ops' && trace <= trace' && StoreOk(cfg, trace'[|ops'|])
    ensures var p, st' := trace[|ops|].store[id], trace'[|ops'|];
      st'.swaps == trace[|ops|].swaps + [SwapOf(cfg, p, i)] && (!Stores(p, i, env) ==> Ready(cfg, st', id, i))
  {
    var st := trace[|ops|];
    var restart := Restart([id]);
    var st1 := Step(cfg, st, restart);
    assert LoadAll(Crash(st), [id][..0]) == Crash(st);
    assert st1 == LoadStep(Crash(st), id);
    var p := st.store[id];
    RegisterAllHas(map[], p, p.Those(LevelActive), |p.levels|, p.Pair(), p.Up(i), p.EntryOf(i));
    RunExtends(cfg, trace, ops, Any, restart);
    trace', ops' := FireOn(cfg, trace + [st1], ops + [restart], id, i, env);
  }

  /** One take-profit for the whole of a long position without a permit. */
  function Sample(chain: ChainId): OpenParams {
    OpenParams(1, 2, 3, Long, 100, chain, 18, 6, [LevelParams(TP, 5, 10000, None, [])], None)
  }

  lemma SampleOpens(cfg: Config, chain: ChainId, id: PosId) returns (trace: seq<State>, ops: seq<Op>)
    requires chain in cfg
    ensures IsRun(cfg, trace, ops, Any) && trace[0] == EMPTY && ops != []
    ensures var st := trace[|ops|]; StoreOk(cfg, st) && st.swaps == [] && Ready(cfg, st, id, 0)
    ensures var st := trace[|ops|]; Has(st.index, st.store[id].Pair(), st.store[id].Up(0), st.store[id].EntryOf(0))
  {
    var q := Sample(chain);
    var open := Open(id, q, 0, true, true);
    var bps := BpsOfParams(q.levels);
    assert bps[..0] == [] && Amounts.Sum(bps) == 10000;
    assert ValidParams(q.levels, 0);
    assert ValidOpen(cfg, q, 0);
    var p, st := NewPosition(id, q), Step(cfg, EMPTY, open);
    RegisterAllHas(map[], p, p.Those(LevelActive), 1, p.Pair(), p.Up(0), p.EntryOf(0));
    assert IsRun(cfg, [EMPTY], [], Any);
    RunExtends(cfg, [EMPTY], [], Any, open);
    trace, ops := [EMPTY] + [st], [] + [open];
  }

  /**
   A swap that is not stored is made again. For every way in which the store can miss the first one, there
   is a run from the empty manager in which one level of one position is swapped twice.
   */
  lemma UnstoredIsSwappedAgain(cfg: Config, chain: ChainId, id: PosId, env: Env)
    requires chain in cfg && Obliging(env) && (env.swap == Unseen || !env.persistOk)
    ensures exists trace: seq<State>, ops: seq<Op> :: IsRun(cfg, trace, ops, Any) && trace[0] == EMPTY && SwapsTwice(trace[|ops|], id)
  {
    var trace, ops := SampleOpens(cfg, chain, id);
    var trace1, ops1 := RestartAndFire(cfg, trace, ops, id, 0, env);
    var trace2, ops2 := RestartAndFire(cfg, trace1, ops1, id, 0, GOOD);
    assert SwapsTwice(trace2[|ops2|], id);
  }

  /** The log holds two swaps of the position's first level. */
  predicate SwapsTwice(st: State, id: PosId) {
    |st.swaps| == 2 && st.swaps[0].pos == id == st.swaps[1].pos && st.swaps[0].level == 0 == st.swaps[1].level
  }

  // ---- A write that comes late ----

  /** The operations that do not take the position's lock. */
  predicate Unlocked(op: Op) {
    op.UpdateLevel? || op.AddLevel? || op.RemoveLevel? || op.Cancel? || op.Renew? || op.Expire?
  }

  /** An operation that read its position in one state and makes its changes in another. */
  function Late(cfg: Config, read: State, now: State, op: Op): State
    requires Unlocked(op) && op.id in read.store
  {
    Step(cfg, now.(store := now.store[op.id := read.store[op.id]]), op)
  }

  /** The operation is accepted in the state it read, and its store write succeeds. */
  predicate Writes(read: State, op: Op)
    requires Unlocked(op)
  {
    match op
    case UpdateLevel(id, level, price, getOk, updateOk) => UpdateAccepted(read, id, level, price, getOk) && updateOk
    case AddLevel(id, _, getOk, updateOk) => Live(read, id, getOk) && updateOk
    case RemoveLevel(id, level, getOk, updateOk) => RemoveAccepted(read, id, level, getOk) && updateOk
    case Cancel(id, getOk, updateOk) => Live(read, id, getOk) && updateOk
    case Renew(id, owner, _, _, _, _, getOk, updateOk) => RenewAccepted(read, id, owner, getOk) && updateOk
    case Expire(id, now, updateOk) => ExpiryDue(read, id, now) && updateOk
  }

  /**
   The steps have to be atomic, and only executeTrigger takes the position's lock. When another operation
   reads a position, lets an execution go by, and then stores what it made of what it read, the executed
   level stays done exactly if the operation cancels the position or removes that very level. In every
   other case the level is open again, with its swap already in the log.
   */
  lemma LateWriteKeepsDoneExactlyWhen(cfg: Config, st: State, ev: Event, env: Env, op: Op)
    requires StoreOk(cfg, st) && ev in st.inflight && OutcomeOf(cfg, st, ev, env) == Recorded
    requires Unlocked(op) && op.id == ev.pos && Writes(st, op)
    ensures var st' := Late(cfg, st, ExecuteStep(cfg, st, ev, env), op);
      ev.pos in st'.store && ev.level < |st'.store[ev.pos].levels| &&
      (Done(st'.store[ev.pos].levels[ev.level].status) <==> op.Cancel? || (op.RemoveLevel? && op.level == ev.level)) &&
      (Once(st') ==> Done(st'.store[ev.pos].levels[ev.level].status))
  {
    RecordedState(cfg, st, ev, env);
    var swap, st1 := SwapOf(cfg, AtSwap(cfg, st, ev, env), ev.level), ExecuteStep(cfg, st, ev, env);
    var p, st' := st.store[ev.pos], Late(cfg, st, st1, op);
    assert WellFormed(cfg, ev.pos, p) && p.levels[ev.level].status == LevelActive;
    hide ExecuteStep, OutcomeOf, Once, Fired, FiredIndex, SwapOf;
    LateStore(cfg, p, st1.(store := st1.store[ev.pos := p]), op, ev.level);
    assert swap in st'.swaps && swap.pos == ev.pos && swap.level == ev.level by {
      LateSwaps(cfg, st1.(store := st1.store[ev.pos := p]), op);
      SwapNames(cfg, AtSwap(cfg, st, ev, env), ev.level);
    }
    OnceMeans(st', swap);
  }

  lemma SwapNames(cfg: Config, p: Position, i: nat)
    requires i < |p.levels| && p.chain in cfg
    ensures SwapOf(cfg, p, i).pos == p.id && SwapOf(cfg, p, i).level == i
  {
  }

  lemma OnceMeans(st: State, s: Swap)
    requires s in st.swaps
    ensures Once(st) ==> SwapDone(st.store, s)
  {
  }

  lemma LateSwaps(cfg: Config, st: State, op: Op)
    requires Unlocked(op)
    ensures Step(cfg, st, op).swaps == st.swaps
  {
  }

  /** What an unlocked operation stores, as far as one active level goes. */
  lemma LateStore(cfg: Config, p: Position, st: State, op: Op, i: nat)
    requires Unlocked(op) && op.id == p.id && op.id in st.store && st.store[op.id] == p && Writes(st, op)
    requires i < |p.levels| && p.levels[i].status == LevelActive
    ensures var st' := Step(cfg, st, op);
      op.id in st'.store && i < |st'.store[op.id].levels| &&
      (Done(st'.store[op.id].levels[i].status) <==> op.Cancel? || (op.RemoveLevel? && op.level == i))
  {
  }

  /** A repricing that comes late leaves the level open at its new price, and registered. */
  lemma LateReprice(cfg: Config, read: State, now: State, id: PosId, price: int)
    requires StoreOk(cfg, read) && StoreOk(cfg, now) && Ready(cfg, read, id, 0) && price > 0
    ensures var late := Late(cfg, read, now, UpdateLevel(id, 0, price, true, true));
      StoreOk(cfg, late) && late.swaps == now.swaps && Ready(cfg, late, id, 0) &&
      Has(late.index, late.store[id].Pair(), late.store[id].Up(0), late.store[id].EntryOf(0))
  {
    var p := Repriced(read.store[id], 0, price);
    assert WellFormed(cfg, id, p);
    RegisterHas(Unregister(now.index, p.Pair(), id, 0), p.Pair(), p.Up(0), p.EntryOf(0), p.Pair(), p.Up(0), p.EntryOf(0));
    hide Register, Unregister;
  }

  /** A run, an operation that read in its `m`-th state and writes at its end, and a run from there. */
  ghost predicate LateRun(cfg: Config, trace: seq<State>, ops: seq<Op>, m: nat, op: Op, trace': seq<State>, ops': seq<Op>) {
    && IsRun(cfg, trace, ops, Any) && trace[0] == EMPTY && m <= |ops|
    && Unlocked(op) && op.id in trace[m].store && Writes(trace[m], op)
    && IsRun(cfg, trace', ops', Any) && trace'[0] == Late(cfg, trace[m], trace[|ops|], op)
  }

  /** And it is then swapped again: by a repricing that comes late, and the new price. */
  lemma LateWriteSwapsTwice(cfg: Config, chain: ChainId, id: PosId, price: int)
    requires chain in cfg && price > 0
    ensures exists trace: seq<State>, ops: seq<Op>, m: nat, op: Op, trace': seq<State>, ops': seq<Op> ::
      LateRun(cfg, trace, ops, m, op, trace', ops') && SwapsTwice(trace'[|ops'|], id)
  {
    var trace, ops := SampleOpens(cfg, chain, id);
    var m := |ops|;
    var trace1, ops1 := FireOn(cfg, trace, ops, id, 0, GOOD);
    var op := UpdateLevel(id, 0, price, true, true);
    var late := Late(cfg, trace1[m], trace1[|ops1|], op);
    assert Writes(trace1[m], op);
    LateReprice(cfg, trace[m], trace1[|ops1|], id, price);
    hide Late, Ready, Has, Step, Writes;
    assert IsRun(cfg, [late], [], Any);
    var trace2, ops2 := FireOn(cfg, [late], [], id, 0, GOOD);
    assert LateRun(cfg, trace1, ops1, m, op, trace2, ops2);
    FirstLevelTwice(cfg, trace[m].store[id], late.store[id], trace2[|ops2|], id);
  }

  lemma FirstLevelTwice(cfg: Config, p: Position, q: Position, st: State, id: PosId)
    requires p.id == q.id == id && p.chain in cfg && q.chain in cfg && p.levels != [] && q.levels != []
    requires st.swaps == [] + [SwapOf(cfg, p, 0)] + [SwapOf(cfg, q, 0)]
    ensures SwapsTwice(st, id)
  {
  }
}
