/** The position manager: operations that change the store and the trigger engine in place. */
module PositionManager {
  import opened Types
  import opened TriggerIndex
  import opened Lifecycle
  import opened LevelLoops
  import SwapOnce
  import Opening
  import Edits
  import Revival
  import TriggerEngine

  // ---- What a sweep over the levels adds up to ----

  /** The levels below `k` with a status. */
  function Below(p: Position, status: LevelStatus, k: nat): set<nat> {
    set i | i in p.Those(status) && i < k
  }

  lemma BelowNext(p: Position, status: LevelStatus, k: nat)
    requires k < |p.levels|
    ensures Below(p, status, k + 1) == if p.levels[k].status == status then Below(p, status, k) + {k} else Below(p, status, k)
    ensures k !in Below(p, status, k)
  {
  }

  lemma BelowEnds(p: Position, status: LevelStatus)
    ensures Below(p, status, 0) == {} && Below(p, status, |p.levels|) == p.Those(status)
  {
  }

  lemma StatusesNext(ls: seq<Level>, those: set<nat>, to: LevelStatus, k: nat)
    requires k < |ls| && k !in those
    ensures |SetStatus(ls, those, to)| == |ls| && SetStatus(ls, those, to)[k] == ls[k]
    ensures SetStatus(ls, those + {k}, to) == SetStatus(ls, those, to)[k := ls[k].(status := to)]
  {
  }

  lemma StatusesNone(ls: seq<Level>, to: LevelStatus)
    ensures SetStatus(ls, {}, to) == ls
  {
  }

  function Reactivated(p: Position): Position {
    p.(levels := SetStatus(p.levels, p.Those(LevelSuspended), LevelActive))
  }

  lemma ReactivatedNone(ix: Index, p: Position)
    ensures |Reactivated(p).levels| == |p.levels|
    ensures RegisterAll(ix, Reactivated(p), p.Those(LevelSuspended), 0) == ix
  {
  }

  lemma ReactivatedNext(ix: Index, p: Position, k: nat)
    requires k < |p.levels|
    ensures |Reactivated(p).levels| == |p.levels|
    ensures RegisterAll(ix, Reactivated(p), p.Those(LevelSuspended), k + 1) ==
      if p.levels[k].status == LevelSuspended
      then Register(RegisterAll(ix, Reactivated(p), p.Those(LevelSuspended), k), p.Pair(), p.Up(k), p.EntryOf(k))
      else RegisterAll(ix, Reactivated(p), p.Those(LevelSuspended), k)
  {
  }

  /** Unregistering one level after another is one removal. */
  lemma RemoveNext(ix: Index, pair: TokenPair, pos: PosId, those: set<nat>, k: nat)
    ensures Unregister(Remove(ix, pair, OfLevels(pos, those)), pair, pos, k) == Remove(ix, pair, OfLevels(pos, those + {k}))
  {
    if pair in ix {
      RejectTwice(ix[pair].above, pos, those, {k});
      RejectTwice(ix[pair].below, pos, those, {k});
      RemoveAt(ix, pair, OfLevels(pos, those));
      RemoveAt(ix, pair, OfLevels(pos, those + {k}));
      RemoveAt(Remove(ix, pair, OfLevels(pos, those)), pair, OfLevels(pos, {k}));
    }
  }

  lemma RemoveAt(ix: Index, pair: TokenPair, sel: Selector)
    requires pair in ix
    ensures Remove(ix, pair, sel) == ix[pair := Sides(Reject(ix[pair].above, sel), Reject(ix[pair].below, sel))]
  {
  }

  lemma RemoveNone(ix: Index, pair: TokenPair, pos: PosId)
    ensures Remove(ix, pair, OfLevels(pos, {})) == ix
  {
    if pair in ix {
      SelectUniform(ix[pair].above, Not(OfLevels(pos, {})), true);
      SelectUniform(ix[pair].below, Not(OfLevels(pos, {})), true);
      RemoveAt(ix, pair, OfLevels(pos, {}));
    }
  }

  /** The last part of an execution, from the swap on. */
  function SwapStep(cfg: Config, st: State, p: Position, ev: Event, env: Env): State
    requires p.chain in cfg && ev.level < |p.levels|
  {
    if env.swap == Failed || !Covers(st.grants, p, ev.level) then RequeueStep(st, p, ev.level)
    else
      var s := st.(swaps := st.swaps + [SwapOf(cfg, p, ev.level)], grants := Debit(st.grants, p, ev.level));
      if env.swap == Unseen then RequeueStep(s, p, ev.level)
      else if HasNegativeIndex(p.levels[ev.level]) then Crash(s)
      else if !env.persistOk then s
      else Put(s, Fired(p, ev.level, ev.price), FiredIndex(st.index, p, ev.level, ev.price), true)
  }

  function RequeueStep(st: State, p: Position, i: nat): State
    requires i < |p.levels|
  {
    st.(index := Register(st.index, p.Pair(), p.Up(i), p.EntryOf(i)))
  }

  /** An execution from the circuit breaker on, in the order the code takes it. */
  function ActiveStep(cfg: Config, st: State, p: Position, ev: Event, env: Env): State
    requires p.chain in cfg && ev.level < |p.levels|
  {
    if !env.breakerOk then RequeueStep(st, p, ev.level)
    else if p.permit.signed then PermittedStep(cfg, st, p, ev, env)
    else SwapStep(cfg, st, p, ev, env)
  }

  function PermittedStep(cfg: Config, st: State, p: Position, ev: Event, env: Env): State
    requires p.chain in cfg && ev.level < |p.levels| && p.permit.signed
  {
    if PermitExpired(p.permit, env.now) then SuspendStep(st, p, env.updateOk)
    else if p.permit.activated then SwapStep(cfg, st, p, ev, env)
    else if NilField(p.permit) then Crash(st)
    else if !WithinPermit2Bounds(p.permit) || p.permit.amount.value < 0 || env.activate == Failed then RequeueStep(st, p, ev.level)
    else
      var s := st.(grants := st.grants[p.Grants() := p.permit.amount.value]);
      if env.activate == Unseen then RequeueStep(s, p, ev.level)
      else SwapStep(cfg, Put(s, Activated(p), s.index, env.updateOk), Activated(p), ev, env)
  }

  /** The step by outcome and the step in order agree: from the swap on, */
  lemma SettlesInOrder(cfg: Config, st: State, p: Position, ev: Event, env: Env, out: Outcome)
    requires p.chain in cfg && ev.level < |p.levels|
    requires out == if env.swap == Failed || !Covers(st.grants, p, ev.level) then Requeued
                    else if env.swap == Unseen then Unconfirmed
                    else if HasNegativeIndex(p.levels[ev.level]) then SwapPanicked
                    else if !env.persistOk then Unrecorded
                    else Recorded
    ensures SettleStep(cfg, st, p, ev, out) == SwapStep(cfg, st, p, ev, env)
  {
    hide Register, Fired, FiredIndex, SwapOf, HasNegativeIndex, Covers, Debit;
  }

  /** and from the permit on, */
  lemma PermittedInOrder(cfg: Config, st: State, ev: Event, env: Env)
    requires ev in st.inflight && Eligible(cfg, st, ev, env) && st.store[ev.pos].id == ev.pos && st.store[ev.pos].permit.signed
    ensures ExecuteStep(cfg, st, ev, env) ==
      PermittedStep(cfg, st.(inflight := st.inflight - multiset{ev}), st.store[ev.pos], ev, env)
  {
    if st.store[ev.pos].permit.activated || Activates(cfg, st, ev, env) {
      PermitGoesOn(cfg, st, ev, env);
    } else {
      PermitStops(cfg, st, ev, env);
    }
  }

  lemma PermitStops(cfg: Config, st: State, ev: Event, env: Env)
    requires ev in st.inflight && Eligible(cfg, st, ev, env) && st.store[ev.pos].id == ev.pos && st.store[ev.pos].permit.signed
    requires !st.store[ev.pos].permit.activated && !Activates(cfg, st, ev, env)
    ensures ExecuteStep(cfg, st, ev, env) ==
      PermittedStep(cfg, st.(inflight := st.inflight - multiset{ev}), st.store[ev.pos], ev, env)
  {
    hide Register, SettleStep, SwapStep, RequeueStep, SuspendStep, HasNegativeIndex, Covers, WithinPermit2Bounds;
    RequeuesInOrder(cfg, ActivateStep(cfg, st, ev, env), AtSwap(cfg, st, ev, env), ev);
  }

  lemma PermitGoesOn(cfg: Config, st: State, ev: Event, env: Env)
    requires ev in st.inflight && Eligible(cfg, st, ev, env) && st.store[ev.pos].id == ev.pos && st.store[ev.pos].permit.signed
    requires st.store[ev.pos].permit.activated || Activates(cfg, st, ev, env)
    ensures ExecuteStep(cfg, st, ev, env) ==
      PermittedStep(cfg, st.(inflight := st.inflight - multiset{ev}), st.store[ev.pos], ev, env)
  {
    hide Register, SettleStep, SwapStep, RequeueStep, SuspendStep, HasNegativeIndex, Covers, WithinPermit2Bounds;
    var p0, p, s, out := st.store[ev.pos], AtSwap(cfg, st, ev, env), ActivateStep(cfg, st, ev, env), OutcomeOf(cfg, st, ev, env);
    if !PermitExpired(p0.permit, env.now) && !NilField(p0.permit) {
      CoversSame(s.grants, p0, p, ev.level);
      SettlesInOrder(cfg, s, p, ev, env, out);
    }
  }

  lemma CoversSame(grants: map<Grantee, int>, p0: Position, p: Position, i: nat)
    requires i < |p0.levels| && (p == p0 || p == Activated(p0))
    ensures Covers(grants, p, i) == Covers(grants, p0, i)
  {
  }

  /** and from the circuit breaker on. */
  lemma ExecutesInOrder(cfg: Config, st: State, ev: Event, env: Env)
    requires ev in st.inflight && Live(st, ev.pos, env.getOk) && ev.level < |st.store[ev.pos].levels|
    requires st.store[ev.pos].levels[ev.level].status == LevelActive && st.store[ev.pos].chain in cfg && env.feeOk
    requires st.store[ev.pos].id == ev.pos
    ensures ExecuteStep(cfg, st, ev, env) ==
      ActiveStep(cfg, st.(inflight := st.inflight - multiset{ev}), st.store[ev.pos], ev, env)
  {
    if env.breakerOk && st.store[ev.pos].permit.signed {
      PermittedInOrder(cfg, st, ev, env);
    } else {
      UnpermittedInOrder(cfg, st, ev, env);
    }
    hide ExecuteStep, OutcomeOf, PermittedStep, SwapStep, RequeueStep;
  }

  lemma UnpermittedInOrder(cfg: Config, st: State, ev: Event, env: Env)
    requires ev in st.inflight && Live(st, ev.pos, env.getOk) && ev.level < |st.store[ev.pos].levels|
    requires st.store[ev.pos].levels[ev.level].status == LevelActive && st.store[ev.pos].chain in cfg && env.feeOk
    requires !(env.breakerOk && st.store[ev.pos].permit.signed)
    ensures var s, p := st.(inflight := st.inflight - multiset{ev}), st.store[ev.pos];
      ExecuteStep(cfg, st, ev, env) == if !env.breakerOk then RequeueStep(s, p, ev.level) else SwapStep(cfg, s, p, ev, env)
  {
    hide Register, SettleStep, SwapStep, HasNegativeIndex, Covers, WithinPermit2Bounds;
    var p, s, out := st.store[ev.pos], ActivateStep(cfg, st, ev, env), OutcomeOf(cfg, st, ev, env);
    assert s == st.(inflight := st.inflight - multiset{ev}) && AtSwap(cfg, st, ev, env) == p;
    if env.breakerOk {
      SettlesInOrder(cfg, s, p, ev, env, out);
    } else {
      RequeuesInOrder(cfg, s, p, ev);
    }
  }

  lemma RequeuesInOrder(cfg: Config, st: State, p: Position, ev: Event)
    requires p.chain in cfg && ev.level < |p.levels|
    ensures SettleStep(cfg, st, p, ev, Requeued) == RequeueStep(st, p, ev.level)
  {
  }

  predicate SwapEnds(grants: map<Grantee, int>, p: Position, ev: Event, env: Env)
    requires ev.level < |p.levels|
  {
    Covers(grants, p, ev.level) && env.swap == Confirmed && HasNegativeIndex(p.levels[ev.level])
  }

  predicate ActiveEnds(cfg: Config, st: State, p: Position, ev: Event, env: Env)
    requires ev.level < |p.levels|
  {
    env.breakerOk && if p.permit.signed then PermittedEnds(st, p, ev, env) else SwapEnds(st.grants, p, ev, env)
  }

  predicate PermittedEnds(st: State, p: Position, ev: Event, env: Env)
    requires ev.level < |p.levels| && p.permit.signed
  {
    !PermitExpired(p.permit, env.now) &&
    if p.permit.activated then SwapEnds(st.grants, p, ev, env)
    else
      NilField(p.permit) ||
      (WithinPermit2Bounds(p.permit) && p.permit.amount.value >= 0 && env.activate == Confirmed &&
       SwapEnds(st.grants[p.Grants() := p.permit.amount.value], Activated(p), ev, env))
  }

  lemma EndsInOrder(cfg: Config, st: State, ev: Event, env: Env)
    requires ev in st.inflight && Live(st, ev.pos, env.getOk) && ev.level < |st.store[ev.pos].levels|
    requires st.store[ev.pos].levels[ev.level].status == LevelActive && st.store[ev.pos].chain in cfg && env.feeOk
    ensures Ends(cfg, st, ev, env) <==>
      ActiveEnds(cfg, st.(inflight := st.inflight - multiset{ev}), st.store[ev.pos], ev, env)
  {
    hide HasNegativeIndex, Permit2.Paid, Permit2.Debited;
  }

  /** Whether the step ends the process. */
  predicate Ends(cfg: Config, st: State, ev: Event, env: Env) {
    ev in st.inflight && OutcomeOf(cfg, st, ev, env) in {Panicked, SwapPanicked}
  }

  class Manager {
    const cfg: Config
    const trigger: TriggerEngine.Engine
    var store: map<PosId, Position>
    var inflight: multiset<Event>    // the execution channel
    ghost var swaps: seq<Swap>       // what has happened on chain
    var grants: map<Grantee, int>    // Permit2's allowances, which decide whether a swap goes through

    /** The state of `Lifecycle` that the manager is in. */
    ghost function View(): State
      reads this, trigger
    {
      State(store, trigger.Contents, inflight, swaps, grants)
    }

    /** What is left of it when the process ends: the store and the chain. */
    ghost function Remains(): State
      reads this, trigger
    {
      Crash(View())
    }

    ghost predicate Valid()
      reads this, trigger, trigger.owner.Keys
    {
      trigger.Valid() && StoreOk(cfg, View())
    }

    constructor (cfg: Config)
      ensures Valid() && fresh(trigger) && fresh(trigger.owner.Keys) && this.cfg == cfg && View() == EMPTY
    {
      this.cfg := cfg;
      trigger := new TriggerEngine.Engine();
      store, inflight, swaps, grants := map[], multiset{}, [], map[];
    }

    /** A new process over what another one has left. */
    constructor Resume(cfg: Config, store: map<PosId, Position>, ghost swaps: seq<Swap>, grants: map<Grantee, int>)
      requires StoreOk(cfg, State(store, map[], multiset{}, swaps, grants))
      ensures Valid() && fresh(trigger) && fresh(trigger.owner.Keys) && this.cfg == cfg
      ensures View() == State(store, map[], multiset{}, swaps, grants)
    {
      this.cfg := cfg;
      trigger := new TriggerEngine.Engine();
      this.store, this.inflight, this.swaps, this.grants := store, multiset{}, swaps, grants;
    }

    /** A manager that has ended is replaced by one that loads what the store lists. */
    static method Restart(dead: Manager, ids: seq<PosId>) returns (m: Manager)
      requires StoreOk(dead.cfg, dead.Remains())
      ensures m.Valid() && fresh(m) && m.cfg == dead.cfg && m.View() == RestartStep(dead.View(), ids)
    {
      m := new Manager.Resume(dead.cfg, dead.store, dead.swaps, dead.grants);
      m.Load(ids);
    }

    // ---- Internal helpers ----

    /** Registers the active levels of a position. */
    method RegisterPositionTriggers(p: Position)
      requires trigger.Valid() && forall i :: 0 <= i < |p.levels| ==> p.levels[i].index == i
      modifies trigger, trigger.owner.Keys
      ensures trigger.Valid() && trigger.Grown()
      ensures trigger.Contents == RegisterAll(old(trigger.Contents), p, p.Those(LevelActive), |p.levels|)
    {
      hide TriggerEngine.Engine.Valid;
      for i := 0 to |p.levels|
        invariant trigger.Valid() && trigger.Grown()
        invariant trigger.Contents == RegisterAll(old(trigger.Contents), p, p.Those(LevelActive), i)
      {
        var level := p.levels[i];
        if level.status == LevelActive {
          trigger.Register(p.Pair(), p.id, level.index, level.typ, p.direction, level.triggerPrice);
        }
      }
    }

    /** Takes every active level out of the index and gives it another status: cancelled or suspended. */
    method Retire(p: Position, to: LevelStatus) returns (q: Position)
      requires trigger.Valid() && to != LevelActive
      modifies trigger, trigger.owner.Keys
      ensures trigger.Valid() && trigger.Grown()
      ensures q == p.(levels := SetStatus(p.levels, p.Those(LevelActive), to))
      ensures trigger.Contents == Remove(old(trigger.Contents), p.Pair(), OfLevels(p.id, p.Those(LevelActive)))
    {
      hide TriggerEngine.Engine.Valid, SetStatus, Remove, Unregister, Below;
      q := p;
      ghost var ix := trigger.Contents;
      BelowEnds(p, LevelActive);
      StatusesNone(p.levels, to);
      RemoveNone(ix, p.Pair(), p.id);
      for i := 0 to |p.levels|
        invariant trigger.Valid() && trigger.Grown()
        invariant q == p.(levels := SetStatus(p.levels, Below(p, LevelActive, i), to))
        invariant trigger.Contents == Remove(ix, p.Pair(), OfLevels(p.id, Below(p, LevelActive, i)))
      {
        BelowNext(p, LevelActive, i);
        StatusesNext(p.levels, Below(p, LevelActive, i), to, i);
        RemoveNext(ix, p.Pair(), p.id, Below(p, LevelActive, i), i);
        if q.levels[i].status == LevelActive {
          q := q.(levels := q.levels[i := q.levels[i].(status := to)]);
          trigger.Unregister(p.Pair(), p.id, i);
        }
      }
    }

    /** Reactivates the suspended levels of a position whose permit has just been replaced. */
    method Reactivate(p: Position) returns (q: Position)
      requires trigger.Valid()
      modifies trigger, trigger.owner.Keys
      ensures trigger.Valid() && trigger.Grown()
      ensures q == p.(levels := SetStatus(p.levels, p.Those(LevelSuspended), LevelActive))
      ensures trigger.Contents == RegisterAll(old(trigger.Contents), q, p.Those(LevelSuspended), |q.levels|)
    {
      hide TriggerEngine.Engine.Valid, SetStatus, Register, RegisterAll, Below;
      q := p;
      ghost var final := Reactivated(p);
      ReactivatedNone(trigger.Contents, p);
      BelowEnds(p, LevelSuspended);
      StatusesNone(p.levels, LevelActive);
      for i := 0 to |p.levels|
        invariant trigger.Valid() && trigger.Grown()
        invariant q == p.(levels := SetStatus(p.levels, Below(p, LevelSuspended, i), LevelActive))
        invariant trigger.Contents == RegisterAll(old(trigger.Contents), final, p.Those(LevelSuspended), i)
      {
        BelowNext(p, LevelSuspended, i);
        StatusesNext(p.levels, Below(p, LevelSuspended, i), LevelActive, i);
        ReactivatedNext(old(trigger.Contents), p, i);
        if q.levels[i].status == LevelSuspended {
          q := q.(levels := q.levels[i := q.levels[i].(status := LevelActive)]);
          trigger.Register(q.Pair(), q.id, i, q.levels[i].typ, q.direction, q.levels[i].triggerPrice);
        }
      }
    }

    /** Unregisters the levels that a firing has cancelled. */
    method UnregisterAll(pair: TokenPair, pos: PosId, cancelled: seq<nat>)
      requires trigger.Valid()
      modifies trigger, trigger.owner.Keys
      ensures trigger.Valid() && trigger.Grown()
      ensures trigger.Contents == Remove(old(trigger.Contents), pair, OfLevels(pos, IndexSet(cancelled)))
    {
      hide TriggerEngine.Engine.Valid;
      ghost var ix := trigger.Contents;
      RemoveNone(ix, pair, pos);
      assert IndexSet(cancelled[..0]) == {};
      for k := 0 to |cancelled|
        invariant trigger.Valid() && trigger.Grown()
        invariant trigger.Contents == Remove(ix, pair, OfLevels(pos, IndexSet(cancelled[..k])))
      {
        assert IndexSet(cancelled[..k + 1]) == IndexSet(cancelled[..k]) + {cancelled[k]};
        RemoveNext(ix, pair, pos, IndexSet(cancelled[..k]), cancelled[k]);
        trigger.Unregister(pair, pos, cancelled[k]);
      }
      assert cancelled[..|cancelled|] == cancelled;
    }

    // ---- Operations ----

    method OpenPosition(id: PosId, q: OpenParams, now: int, approveOk: bool, saveOk: bool) returns (ok: bool)
      requires Valid()
      modifies this, trigger, trigger.owner.Keys
      ensures Valid() && trigger.Grown()
      ensures View() == OpenStep(cfg, old(View()), id, q, now, approveOk, saveOk)
      ensures ok <==> Opening.Acceptable(cfg, q, now) && approveOk && saveOk && id !in old(store)
    {
      hide TriggerEngine.Engine.Valid;
      Opening.AcceptsExactlyWhen(cfg, q, now);
      hide Opening.Acceptable;
      if q.size <= 0 || |q.levels| == 0 || q.chain !in cfg {
        return false;
      }
      var levelsOk := CheckLevels(q.levels);
      if !levelsOk {
        return false;
      }
      if q.permit.Some? && !ValidPermit(q.permit.value, q.owner, q.size, now, cfg[q.chain].minPermitLifetime) {
        return false;
      }
      if !approveOk {
        return false;
      }
      var levels := BuildLevels(q.levels);
      var permit := NO_PERMIT;
      if q.permit.Some? {
        permit := Permit(true, if q.permit.value.nonce.Some? then q.permit.value.nonce else Some(0), q.permit.value.deadline,
                         if q.permit.value.amount.Some? then q.permit.value.amount else Some(q.size),
                         if q.direction == Long then q.tokenBase else q.tokenQuote, false);
      }
      var p := Position(id, q.owner, q.tokenBase, q.tokenQuote, q.direction, q.size, q.size, StateActive, q.chain,
                        q.decimalsBase, q.decimalsQuote, levels, permit);
      assert p == NewPosition(id, q);
      if !saveOk || id in store {
        return false;
      }
      ghost var st := View();
      store := store[id := p];
      RegisterPositionTriggers(p);
      SwapOnce.StepEvolves(cfg, st, Open(id, q, now, approveOk, saveOk));
      return true;
    }

    method UpdateLevel(id: PosId, level: int, price: int, getOk: bool, updateOk: bool) returns (ok: bool)
      requires Valid()
      modifies this, trigger, trigger.owner.Keys
      ensures Valid() && trigger.Grown()
      ensures View() == UpdateStep(old(View()), id, level, price, getOk, updateOk)
      ensures ok <==> Edits.MayUpdate(old(View()), id, level, price, getOk) && updateOk
    {
      hide TriggerEngine.Engine.Valid;
      if price <= 0 || !getOk || id !in store {
        return false;
      }
      var p := store[id];
      if p.state.IsTerminal() || level < 0 || level >= |p.levels| || p.levels[level].status != LevelActive {
        return false;
      }
      ghost var st := View();
      p := p.(levels := p.levels[level := p.levels[level].(triggerPrice := price)]);
      trigger.UpdateTriggerPrice(p.Pair(), p.id, level, p.levels[level].typ, p.direction, price);
      if updateOk {
        store := store[p.id := p];
      }
      SwapOnce.PutEvolves(cfg, st, p, trigger.Contents, updateOk);
      return updateOk;
    }

    method AddLevel(id: PosId, lp: LevelParams, getOk: bool, updateOk: bool) returns (ok: bool)
      requires Valid()
      modifies this, trigger, trigger.owner.Keys
      ensures Valid() && trigger.Grown()
      ensures View() == AddStep(old(View()), id, lp, getOk, updateOk)
      ensures ok <==> Edits.Found(old(View()), id, getOk) && updateOk
    {
      hide TriggerEngine.Engine.Valid;
      if !getOk || id !in store || store[id].state.IsTerminal() {
        return false;
      }
      ghost var st := View();
      var p := store[id];
      var level := NewLevel(|p.levels|, lp);
      p := p.(levels := p.levels + [level]);
      trigger.Register(p.Pair(), p.id, level.index, level.typ, p.direction, level.triggerPrice);
      if updateOk {
        store := store[p.id := p];
      }
      SwapOnce.PutEvolves(cfg, st, p, trigger.Contents, updateOk);
      return updateOk;
    }

    method RemoveLevel(id: PosId, level: int, getOk: bool, updateOk: bool) returns (ok: bool)
      requires Valid()
      modifies this, trigger, trigger.owner.Keys
      ensures Valid() && trigger.Grown()
      ensures View() == RemoveStep(old(View()), id, level, getOk, updateOk)
      ensures ok <==> Edits.Found(old(View()), id, getOk) && 0 <= level < |old(store)[id].levels| && updateOk
    {
      hide TriggerEngine.Engine.Valid;
      if !getOk || id !in store || store[id].state.IsTerminal() || level < 0 || level >= |store[id].levels| {
        return false;
      }
      ghost var st := View();
      var p := store[id];
      p := p.(levels := p.levels[level := p.levels[level].(status := LevelCancelled)]);
      trigger.Unregister(p.Pair(), p.id, level);
      if updateOk {
        store := store[p.id := p];
      }
      SwapOnce.PutEvolves(cfg, st, p, trigger.Contents, updateOk);
      return updateOk;
    }

    method CancelPosition(id: PosId, getOk: bool, updateOk: bool) returns (ok: bool)
      requires Valid()
      modifies this, trigger, trigger.owner.Keys
      ensures Valid() && trigger.Grown()
      ensures View() == CancelStep(old(View()), id, getOk, updateOk)
      ensures ok <==> Edits.Found(old(View()), id, getOk) && updateOk
    {
      hide TriggerEngine.Engine.Valid;
      if !getOk || id !in store || store[id].state.IsTerminal() {
        return false;
      }
      ghost var st := View();
      var p := Retire(store[id], LevelCancelled);
      p := p.(state := StateCancelled);
      if updateOk {
        store := store[p.id := p];
      }
      SwapOnce.CancelEvolves(cfg, st, id, getOk, updateOk);
      return updateOk;
    }

    method RenewPermit(id: PosId, owner: Address, signed: bool, nonce: Option<int>, deadline: int, amount: Option<int>,
                       getOk: bool, updateOk: bool) returns (ok: bool)
      requires Valid()
      modifies this, trigger, trigger.owner.Keys
      ensures Valid() && trigger.Grown()
      ensures View() == RenewStep(old(View()), id, owner, signed, nonce, deadline, amount, getOk, updateOk)
      ensures ok <==> Revival.MayRenew(old(View()), Renew(id, owner, signed, nonce, deadline, amount, getOk, updateOk)) && updateOk
    {
      hide TriggerEngine.Engine.Valid;
      if !getOk || id !in store || store[id].owner != owner || store[id].state.IsTerminal() {
        return false;
      }
      ghost var st := View();
      var p := store[id];
      var permit := p.permit.(signed := signed);
      if nonce.Some? {
        permit := permit.(nonce := nonce);
      }
      permit := permit.(deadline := deadline);
      if amount.Some? {
        permit := permit.(amount := amount);
      }
      permit := permit.(activated := false);
      p := Reactivate(p.(permit := permit));
      assert p == Renewed(st.store[id], signed, nonce, deadline, amount);
      if updateOk {
        store := store[p.id := p];
      }
      SwapOnce.RenewEvolves(cfg, st, id, signed, nonce, deadline, amount, trigger.Contents, updateOk);
      return updateOk;
    }

    /** The permit monitor's visit to one listed position: suspends an expired one, warns of one that expires soon. */
    method VisitPermit(id: PosId, now: int, updateOk: bool) returns (warnings: seq<Warning>)
      requires Valid()
      modifies this, trigger, trigger.owner.Keys
      ensures Valid() && trigger.Grown()
      ensures View() == ExpireStep(old(View()), id, now, updateOk)
      ensures warnings == WarningOf(cfg, old(View()), id, now)
    {
      hide TriggerEngine.Engine.Valid, SetStatus, Remove;
      ghost var st := View();
      if id !in store || store[id].state.IsTerminal() || !store[id].permit.signed || store[id].permit.deadline == 0 {
        return [];
      }
      var p := store[id];
      assert WellFormed(cfg, id, p);
      var remaining := LifetimeNanos(p.permit.deadline, now);
      if remaining <= 0 {
        var hasActive := HasActive(p.levels);
        HasThose(p);
        if hasActive {
          p := Retire(p, LevelSuspended);
          if updateOk {
            store := store[p.id := p];
          }
          SwapOnce.SuspendEvolves(cfg, st, st.store[id], updateOk);
        }
        return [];
      } else if remaining <= WarningThreshold(cfg[p.chain]) {
        var activeLevels := CountActive(p);
        return [Warning(id, p.owner, p.permit.deadline, activeLevels)];
      } else {
        return [];
      }
    }

    static method CountActive(p: Position) returns (n: nat)
      ensures n == |p.Those(LevelActive)|
    {
      n := 0;
      BelowEnds(p, LevelActive);
      for k := 0 to |p.levels|
        invariant n == |Below(p, LevelActive, k)|
      {
        BelowNext(p, LevelActive, k);
        if p.levels[k].status == LevelActive {
          n := n + 1;
        }
      }
    }

    /** One round of the permit monitor, if the host listens; `updates` says which store writes succeed. */
    method CheckPermitExpiry(ids: seq<PosId>, now: int, updates: seq<bool>, listening: bool) returns (warnings: seq<Warning>)
      requires Valid() && |updates| == |ids|
      modifies this, trigger, trigger.owner.Keys
      ensures Valid() && trigger.Grown()
      ensures (View(), warnings) == if listening then MonitorStep(cfg, old(View()), ids, now, updates) else (old(View()), [])
    {
      hide TriggerEngine.Engine.Valid, ExpireStep, WarningOf;
      warnings := [];
      if !listening {
        return;
      }
      assert ids[..0] == [];
      for k := 0 to |ids|
        invariant Valid() && trigger.Grown()
        invariant (View(), warnings) == MonitorStep(cfg, old(View()), ids[..k], now, updates)
      {
        assert ids[..k + 1][..k] == ids[..k];
        var more := VisitPermit(ids[k], now, updates[k]);
        warnings := warnings + more;
      }
      assert ids[..|ids|] == ids;
    }

    static lemma HasThose(p: Position)
      ensures (exists i :: 0 <= i < |p.levels| && p.levels[i].status == LevelActive) <==> p.Those(LevelActive) != {}
    {
      if i :| 0 <= i < |p.levels| && p.levels[i].status == LevelActive {
        assert i in p.Those(LevelActive);
      }
    }

    /** At start-up, registers what the store lists. */
    method Load(ids: seq<PosId>)
      requires Valid()
      modifies trigger, trigger.owner.Keys
      ensures Valid() && trigger.Grown()
      ensures View() == LoadAll(old(View()), ids)
    {
      hide TriggerEngine.Engine.Valid;
      assert ids[..0] == [];
      for k := 0 to |ids|
        invariant Valid() && trigger.Grown()
        invariant View() == LoadAll(old(View()), ids[..k])
      {
        assert ids[..k + 1][..k] == ids[..k];
        if ids[k] in store && !store[ids[k]].state.IsTerminal() {
          assert WellFormed(cfg, ids[k], store[ids[k]]);
          RegisterPositionTriggers(store[ids[k]]);
        }
      }
      assert ids[..|ids|] == ids;
    }

    /** Puts events on the execution channel, one by one. */
    method Enqueue(events: seq<Event>)
      modifies `inflight
      ensures inflight == old(inflight) + multiset(events)
    {
      for k := 0 to |events|
        invariant inflight == old(inflight) + multiset(events[..k])
      {
        assert events[..k + 1] == events[..k] + [events[k]];
        inflight := inflight + multiset{events[k]};
      }
      assert events[..|events|] == events;
    }

    /** Puts what a price fires on the channel; `room` is how much gets there before the context is cancelled, if it is. */
    method HandlePriceUpdate(pair: TokenPair, price: int, room: Option<nat>)
      requires Valid()
      modifies this, trigger
      ensures Valid() && trigger.Grown()
      ensures View() == if room.None? then PriceStep(old(View()), pair, price) else CutPriceStep(old(View()), pair, price, room.value)
    {
      hide TriggerEngine.Engine.Valid, OnPrice;
      var events := trigger.OnPrice(pair, price);
      if room.Some? && room.value < |events| {
        Enqueue(events[..room.value]);
      } else {
        AllFit(events);
        Enqueue(events);
      }
    }

    static lemma AllFit(events: seq<Event>)
      ensures events[..|events|] == events
    {
    }

    /** Puts the trigger of a level that could not be executed back for the next price update. */
    method Requeue(p: Position, i: nat)
      requires trigger.Valid() && i < |p.levels|
      modifies trigger, trigger.owner.Keys
      ensures trigger.Valid() && trigger.Grown()
      ensures trigger.Contents == Register(old(trigger.Contents), p.Pair(), p.Up(i), p.EntryOf(i))
    {
      hide TriggerEngine.Engine.Valid;
      trigger.Register(p.Pair(), p.id, i, p.levels[i].typ, p.direction, p.levels[i].triggerPrice);
    }

    /** Once the new position is stored, brings the trigger index in line with it. */
    method Follow(p: Position, i: nat, price: int, cancelled: seq<nat>, moved: Option<nat>)
      requires trigger.Valid() && i < |p.levels|
      requires IndexSet(cancelled) == TakenDown(p, i) && moved == MovedSL(p, i, price)
      modifies trigger, trigger.owner.Keys
      ensures trigger.Valid() && trigger.Grown()
      ensures trigger.Contents == FiredIndex(old(trigger.Contents), p, i, price)
    {
      hide TriggerEngine.Engine.Valid;
      UnregisterAll(p.Pair(), p.id, cancelled);
      if moved.Some? {
        var p' := Fired(p, i, price);
        trigger.UpdateTriggerPrice(p.Pair(), p.id, moved.value, p'.levels[moved.value].typ, p.direction,
                                   p'.levels[moved.value].triggerPrice);
      }
    }

    /** Executes one fired trigger, whose event has been taken off the channel; a panic ends the process. */
    method ExecuteTrigger(ev: Event, env: Env) returns (ended: bool)
      requires Valid() && ev in inflight
      modifies this, trigger, trigger.owner.Keys
      ensures ended <==> Ends(cfg, old(View()), ev, env)
      ensures if ended then Remains() == ExecuteStep(cfg, old(View()), ev, env) && StoreOk(cfg, Remains())
              else View() == ExecuteStep(cfg, old(View()), ev, env) && Valid() && trigger.Grown()
    {
      hide TriggerEngine.Engine.Valid;
      ghost var st := View();
      SwapOnce.ExecuteEvolves(cfg, st, ev, env);
      inflight := inflight - multiset{ev};
      if !env.getOk || ev.pos !in store {
        return false;
      }
      var p := store[ev.pos];
      if p.state.IsTerminal() || ev.level >= |p.levels| || p.levels[ev.level].status != LevelActive {
        return false;
      }
      if p.chain !in cfg || !env.feeOk {
        return false;
      }
      ExecutesInOrder(cfg, st, ev, env);
      EndsInOrder(cfg, st, ev, env);
      hide ExecuteStep, Ends, ActiveStep, ActiveEnds, PermittedStep, PermittedEnds;
      ended := ExecuteActive(p, ev, env);
    }

    method ExecuteActive(p: Position, ev: Event, env: Env) returns (ended: bool)
      requires trigger.Valid() && p.chain in cfg && ev.level < |p.levels| && p.levels[ev.level].status == LevelActive
      modifies this, trigger, trigger.owner.Keys
      ensures ended <==> ActiveEnds(cfg, old(View()), p, ev, env)
      ensures if ended then Remains() == ActiveStep(cfg, old(View()), p, ev, env)
              else View() == ActiveStep(cfg, old(View()), p, ev, env) && trigger.Valid() && trigger.Grown()
    {
      hide TriggerEngine.Engine.Valid, Register, PermittedStep, SwapStep, SwapEnds, PermittedEnds;
      if !env.breakerOk {
        Requeue(p, ev.level);
        return false;
      }
      if p.permit.signed {
        ended := ExecutePermitted(p, ev, env);
      } else {
        ended := SwapAndRecord(p, ev, env);
      }
    }

    method ExecutePermitted(p: Position, ev: Event, env: Env) returns (ended: bool)
      requires trigger.Valid() && p.chain in cfg && ev.level < |p.levels| && p.levels[ev.level].status == LevelActive
      requires p.permit.signed
      modifies this, trigger, trigger.owner.Keys
      ensures ended <==> PermittedEnds(old(View()), p, ev, env)
      ensures if ended then Remains() == PermittedStep(cfg, old(View()), p, ev, env)
              else View() == PermittedStep(cfg, old(View()), p, ev, env) && trigger.Valid() && trigger.Grown()
    {
      hide TriggerEngine.Engine.Valid, Register, SetStatus, Remove, SwapStep, SwapEnds;
      if p.permit.deadline > 0 && p.permit.deadline <= env.now {
        var q := Retire(p, LevelSuspended);
        if env.updateOk {
          store := store[q.id := q];
        }
        return false;
      }
      var p' := p;
      if !p.permit.activated {
        if p.permit.nonce.None? || (WithinPermit2Bounds(p.permit) && p.permit.amount.None?) {
          return true;
        }
        if !WithinPermit2Bounds(p.permit) || p.permit.amount.value < 0 || env.activate == Failed {
          Requeue(p, ev.level);
          return false;
        }
        grants := grants[p.Grants() := p.permit.amount.value];
        if env.activate == Unseen {
          Requeue(p, ev.level);
          return false;
        }
        p' := p.(permit := p.permit.(activated := true));
        if env.updateOk {
          store := store[p'.id := p'];
        }
      }
      ended := SwapAndRecord(p', ev, env);
    }

    method SwapAndRecord(p: Position, ev: Event, env: Env) returns (ended: bool)
      requires trigger.Valid() && p.chain in cfg && ev.level < |p.levels| && p.levels[ev.level].status == LevelActive
      modifies this, trigger, trigger.owner.Keys
      ensures ended <==> SwapEnds(old(grants), p, ev, env)
      ensures if ended then Remains() == SwapStep(cfg, old(View()), p, ev, env)
              else View() == SwapStep(cfg, old(View()), p, ev, env) && trigger.Valid() && trigger.Grown()
    {
      hide TriggerEngine.Engine.Valid, Register, Fired, FiredIndex, SwapOf, HasNegativeIndex;
      if env.swap == Failed || !Covers(grants, p, ev.level) {
        Requeue(p, ev.level);
        return false;
      }
      swaps := swaps + [SwapOf(cfg, p, ev.level)];
      grants := Debit(grants, p, ev.level);
      if env.swap == Unseen {
        Requeue(p, ev.level);
        return false;
      }
      var ok, p', cancelled, moved := Fire(p, ev.level, ev.price);
      if !ok {
        return true;
      }
      if !env.persistOk {
        return false;
      }
      store := store[p'.id := p'];
      Follow(p, ev.level, ev.price, cancelled, moved);
      return false;
    }
  }
}
