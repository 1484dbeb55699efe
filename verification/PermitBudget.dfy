/**
 The permit of one position: what of it reaches the chain, when it expires, and that between renewals its
 swaps together stay within the amount its owner signed for.
 */
module PermitBudget {
  import opened Types
  import opened TriggerIndex
  import opened Amounts
  import opened Lifecycle
  import opened SwapOnce
  import opened Accounting
  import opened Permit2

  function Spent(st: State, id: PosId): int {
    Sum(AmountsOf(SwapsOf(st.swaps, id)))
  }

  /** The step is one the accounting holds for, and does not renew this position's permit. */
  predicate Unrenewed(cfg: Config, st: State, op: Op, id: PosId) {
    Regular(cfg, st, op) && !(op.Renew? && op.id == id)
  }

  /** The permit of a stored position changes, if at all, by being activated within Permit2's bounds. */
  predicate PermitKept(p: Position, p': Position) {
    && p'.totalSize == p.totalSize
    && (p'.permit == p.permit ||
        (p'.permit == Activated(p).permit && p.permit.signed && p.permit.amount.Some? && WithinPermit2Bounds(p.permit)))
  }

  lemma ExecuteKeepsPermit(cfg: Config, st: State, ev: Event, env: Env, id: PosId)
    requires StoreOk(cfg, st) && id in st.store
    ensures id in ExecuteStep(cfg, st, ev, env).store && PermitKept(st.store[id], ExecuteStep(cfg, st, ev, env).store[id])
  {
    var out := OutcomeOf(cfg, st, ev, env);
    if ev !in st.inflight || out == Skipped || out == Panicked {
      QuietState(cfg, st, ev, env);
    } else if out != Suspended {
      assert WellFormed(cfg, ev.pos, st.store[ev.pos]);
      if out == Requeued {
        RequeuedState(cfg, st, ev, env);
      } else if out == Recorded {
        RecordedState(cfg, st, ev, env);
      } else {
        UnstoredState(cfg, st, ev, env);
      }
    }
  }

  lemma StepKeepsPermit(cfg: Config, st: State, op: Op, id: PosId)
    requires StoreOk(cfg, st) && id in st.store && !(op.Renew? && op.id == id)
    ensures id in Step(cfg, st, op).store && PermitKept(st.store[id], Step(cfg, st, op).store[id])
  {
    hide ExecuteStep, RestartStep, Register, RegisterAll, Remove, UpdateTriggerPrice, SetStatus;
    if op.Execute? {
      ExecuteKeepsPermit(cfg, st, op.event, op.env, id);
    } else if op.Restart? {
      RestartKeepsRest(st, op.ids);
    }
  }

  // ---- What the chain is given ----

  /** What a permit call carries: words of 256 bits, of which the contract takes 160, 48, 48 and 256. */
  datatype PermitCall = PermitCall(amount: int, expiration: int, nonce: int, sigDeadline: int)

  const TWO_256: int := 0x1_0000_0000_0000_0000_0000_0000_0000_0000_0000_0000_0000_0000_0000_0000_0000_0000

  /** The deadline goes through uint64, the nonce through the low 64 bits of its magnitude. */
  function Pack(p: Permit): PermitCall
    requires p.amount.Some? && p.nonce.Some?
  {
    PermitCall(p.amount.value % TWO_256, Uint64(p.deadline), LowBits(p.nonce.value), p.deadline % TWO_256)
  }

  /** What the owner signed. */
  function Signed(p: Permit): PermitCall
    requires p.amount.Some? && p.nonce.Some?
  {
    PermitCall(p.amount.value, p.deadline, p.nonce.value, p.deadline)
  }

  /** The contract accepts the words as values of its types. */
  predicate Decodes(c: PermitCall) {
    && c.amount <= 0xFFFF_FFFF_FFFF_FFFF_FFFF_FFFF_FFFF_FFFF_FFFF_FFFF
    && c.expiration <= 0xFFFF_FFFF_FFFF && c.nonce <= 0xFFFF_FFFF_FFFF
  }

  /**
   activatePermit's checks are there to prevent silent truncation. What arrives is what was signed exactly
   when they pass, the amount is not negative, and the nonce has 64 bits: a longer one is cut before it is
   checked.
   */
  lemma PermitArrivesExactlyWhen(p: Permit)
    requires p.amount.Some? && p.nonce.Some? && -0x8000_0000_0000_0000 <= p.deadline < 0x8000_0000_0000_0000
    ensures Decodes(Pack(p)) && Pack(p) == Signed(p) <==>
      WithinPermit2Bounds(p) && p.amount.value >= 0 && 0 <= p.nonce.value < 0x1_0000_0000_0000_0000
  {
  }

  /** Whatever its sign and length, the nonce that arrives is what its magnitude leaves of multiples of 2^64. */
  lemma NonceArrives(p: Permit, k: nat, w: nat)
    requires p.amount.Some? && p.nonce.Some? && w < 0x1_0000_0000_0000_0000
    requires p.nonce.value == k * 0x1_0000_0000_0000_0000 + w || -p.nonce.value == k * 0x1_0000_0000_0000_0000 + w
    ensures Pack(p).nonce == w
  {
    ModIs(k * 0x1_0000_0000_0000_0000 + w, k, w);
  }

  lemma TruncatedNonceExample()
    ensures var p := Permit(true, Some(0x1_0000_0000_0000_0007), 1, Some(1), 0, false);
      WithinPermit2Bounds(p) && Decodes(Pack(p)) && Pack(p).nonce == 7
  {
  }

  // ---- Deadlines ----

  /**
   Seconds that look like time left once they are nanoseconds in 64 bits: 10^9 is 2^9 * 1953125, so what
   remains of them is a matter of 55 bits.
   */
  predicate LooksAhead(seconds: int) {
    0 < seconds * 1953125 % 0x80_0000_0000_0000 < 0x40_0000_0000_0000
  }

  /**
   The permit monitor multiplies seconds to nanoseconds in 64 bits. It judges a deadline rightly exactly
   when one ahead looks ahead and one past does not.
   */
  lemma MonitorIsRightExactlyWhen(deadline: int, now: int)
    ensures (LifetimeNanos(deadline, now) <= 0 <==> deadline <= now) <==> (deadline > now <==> LooksAhead(deadline - now))
  {
    var s := deadline - now;
    var m := (s + 0x8000_0000_0000_0000) / 0x1_0000_0000_0000_0000;
    var k, r := s * 1953125 / 0x80_0000_0000_0000, s * 1953125 % 0x80_0000_0000_0000;
    assert Wrap64(s) == s - 0x1_0000_0000_0000_0000 * m;
    assert Wrap64(s) * 1_000_000_000 == 0x1_0000_0000_0000_0000 * (k - m * 1_000_000_000) + 512 * r;
    WrapsTo(k - m * 1_000_000_000, 512 * r);
  }

  lemma WrapsTo(k: int, v: int)
    requires 0 <= v < 0x1_0000_0000_0000_0000
    ensures Wrap64(0x1_0000_0000_0000_0000 * k + v) == if v < 0x8000_0000_0000_0000 then v else v - 0x1_0000_0000_0000_0000
  {
    if v < 0x8000_0000_0000_0000 {
      ModIs(0x1_0000_0000_0000_0000 * k + v + 0x8000_0000_0000_0000, k, v + 0x8000_0000_0000_0000);
    } else {
      ModIs(0x1_0000_0000_0000_0000 * k + v + 0x8000_0000_0000_0000, k + 1, v - 0x8000_0000_0000_0000);
    }
  }

  lemma ModIs(x: int, k: int, r: int)
    requires 0 <= r < 0x1_0000_0000_0000_0000 && x == 0x1_0000_0000_0000_0000 * k + r
    ensures x % 0x1_0000_0000_0000_0000 == r
  {
  }

  /**
   In particular it does whenever the deadline is less than 2^63 nanoseconds, some 292 years, away.
   */
  lemma MonitorIsRightWithinRange(deadline: int, now: int)
    requires -0x8000_0000_0000_0000 <= (deadline - now) * 1_000_000_000 < 0x8000_0000_0000_0000
    ensures LifetimeNanos(deadline, now) <= 0 <==> deadline <= now
  {
    MonitorIsRightExactlyWhen(deadline, now);
  }

  /** Beyond it the product wraps: Permit2's largest expiration, 2^48 - 1, counts as expired in January 2025. */
  lemma MonitorWrapsExample()
    ensures LifetimeNanos(MAX_UINT48, 1_735_689_600) <= 0
  {
  }

  /** After a round of the monitor whose writes succeed, no listed position is left active on a permit judged expired. */
  lemma {:induction false} MonitorSuspendsAll(cfg: Config, st: State, ids: seq<PosId>, now: int, updates: seq<bool>, id: PosId)
    requires |ids| <= |updates| && (forall i :: 0 <= i < |updates| ==> updates[i]) && id in ids && StoreOk(cfg, st)
    ensures var (st', _) := MonitorStep(cfg, st, ids, now, updates);
      !ExpiryDue(st', id, now) && StoreOk(cfg, st')
  {
    hide SetStatus;
    var n := |ids| - 1;
    var (s, _) := MonitorStep(cfg, st, ids[..n], now, updates);
    if id in ids[..n] {
      MonitorSuspendsAll(cfg, st, ids[..n], now, updates, id);
    } else {
      MonitorKeepsStoreOk(cfg, st, ids[..n], now, updates);
    }
    if ExpiryDue(s, ids[n], now) {
      SuspendEvolves(cfg, s, s.store[ids[n]], updates[n]);
      NoneStaysActive(s.store[ids[n]]);
    }
  }

  lemma NoneStaysActive(p: Position)
    ensures p.(levels := SetStatus(p.levels, p.Those(LevelActive), LevelSuspended)).Those(LevelActive) == {}
  {
  }

  lemma {:induction false} MonitorKeepsStoreOk(cfg: Config, st: State, ids: seq<PosId>, now: int, updates: seq<bool>)
    requires |ids| <= |updates| && StoreOk(cfg, st)
    ensures StoreOk(cfg, MonitorStep(cfg, st, ids, now, updates).0)
  {
    if ids != [] {
      var n := |ids| - 1;
      MonitorKeepsStoreOk(cfg, st, ids[..n], now, updates);
      var (s, _) := MonitorStep(cfg, st, ids[..n], now, updates);
      if ExpiryDue(s, ids[n], now) {
        assert WellFormed(cfg, ids[n], s.store[ids[n]]);
        SuspendEvolves(cfg, s, s.store[ids[n]], updates[n]);
      }
    }
  }

  /** An accepted permit has at least the configured lifetime left, for any deadline: wrapping only ever takes away. */
  lemma AcceptedPermitLives(pp: PermitParams, owner: Address, size: int, now: int, minLifetime: int, p: Permit, later: int)
    requires ValidPermit(pp, owner, size, now, minLifetime) && 0 <= now && pp.deadline < 0x8000_0000_0000_0000
    requires p.deadline == pp.deadline
    requires now <= later && (later - now) * 1_000_000_000 < minLifetime
    ensures !PermitExpired(p, later)
  {
    WrapTakesAway((pp.deadline - now) * 1_000_000_000);
  }

  lemma WrapTakesAway(x: int)
    requires x >= -0x8000_0000_0000_0000
    ensures Wrap64(x) <= x
    ensures x < 0x8000_0000_0000_0000 ==> Wrap64(x) == x
  {
  }

  // ---- Conservation between renewals ----

  /** Between any two states of a run, what is spent on a position is what its remaining size loses. */
  lemma SpentIsTaken(cfg: Config, trace: seq<State>, ops: seq<Op>, m: nat, n: nat, id: PosId)
    requires IsRun(cfg, trace, ops, (s, op) => Regular(cfg, s, op)) && trace[0] == EMPTY && m <= n <= |ops|
    requires id in trace[m].store
    ensures id in trace[n].store && 0 <= trace[n].store[id].remainingSize
    ensures Spent(trace[n], id) - Spent(trace[m], id) == trace[m].store[id].remainingSize - trace[n].store[id].remainingSize
  {
    RunKeepsAccounts(cfg, trace, ops, m);
    RunKeepsAccounts(cfg, trace, ops, n);
    KeepsTotal(cfg, trace, ops, m, n, id);
    assert AccountOf(trace[m].store, SwapsOf(trace[m].swaps, id), id);
    assert AccountOf(trace[n].store, SwapsOf(trace[n].swaps, id), id);
  }

  lemma {:induction false} KeepsTotal(cfg: Config, trace: seq<State>, ops: seq<Op>, m: nat, n: nat, id: PosId)
    requires IsRun(cfg, trace, ops, (s, op) => Regular(cfg, s, op)) && trace[0] == EMPTY && m <= n <= |ops|
    requires id in trace[m].store
    ensures id in trace[n].store && trace[n].store[id].totalSize == trace[m].store[id].totalSize
  {
    hide Step;
    if m < n {
      KeepsTotal(cfg, trace, ops, m, n - 1, id);
      RunKeepsAccounts(cfg, trace, ops, n - 1);
      StepKeepsTotal(cfg, trace[n - 1], ops[n - 1], id);
    }
  }

  lemma StepKeepsTotal(cfg: Config, st: State, op: Op, id: PosId)
    requires StoreOk(cfg, st) && id in st.store
    ensures id in Step(cfg, st, op).store && Step(cfg, st, op).store[id].totalSize == st.store[id].totalSize
  {
    if op.Renew? && op.id == id {
    } else {
      StepKeepsPermit(cfg, st, op, id);
    }
  }

  /**
   A permit for at least the remaining size covers any portions that fire, as AddLevel may still bring, and
   a permit for less does not. RenewPermit takes any amount.
   */
  lemma CoversExactlyWhen(remaining: nat, amount: int)
    ensures (forall portions: seq<uint16> :: Portions(portions) ==> remaining - RemainingAfter(remaining, portions) <= amount)
      <==> remaining <= amount
  {
    if remaining <= amount {
      forall portions: seq<uint16> | Portions(portions)
        ensures remaining - RemainingAfter(remaining, portions) <= amount
      {
        RemainingWithin(remaining, portions);
      }
    } else {
      var all: seq<uint16> := [BPS];
      assert Portions(all) && all[..0] == [];
      assert RemainingAfter(remaining, all) == Left(remaining, BPS) == 0;
    }
  }

  // ---- From the opening ----

  /** A signed position holds a permit for at least its size; an activated one is within 160 bits. */
  ghost predicate Permitted(p: Position, swaps: seq<Swap>) {
    && (p.permit.signed ==> p.permit.amount.Some? && p.totalSize <= p.permit.amount.value)
    && (p.permit.activated ==> p.permit.signed && p.permit.amount.Some? && p.permit.amount.value <= MAX_UINT160)
    && forall s :: s in swaps ==> PaidFrom(p.permit, s)
  }

  /** The swap went through the permit if there is one, and its amount fits in 160 bits. */
  predicate PaidFrom(permit: Permit, s: Swap) {
    && 0 <= s.amountIn
    && (s.mode == ExecPermit2Allowance <==> permit.signed)
    && (permit.signed ==> s.amountIn <= MAX_UINT160)
  }

  ghost predicate Budgeted(cfg: Config, st: State, id: PosId) {
    Accounts(cfg, st) && (id in st.store ==> Permitted(st.store[id], SwapsOf(st.swaps, id)))
  }

  lemma PermittedKept(p: Position, p': Position, swaps: seq<Swap>)
    requires Permitted(p, swaps) && PermitKept(p, p')
    ensures Permitted(p', swaps)
  {
  }

  /** A swap of a signed position happens only under an activated permit. */
  lemma SwapIsPaid(cfg: Config, st: State, ev: Event, env: Env)
    requires Budgeted(cfg, st, ev.pos) && ev in st.inflight && OutcomeOf(cfg, st, ev, env).Swaps()
    ensures PaidFrom(st.store[ev.pos].permit, SwapOf(cfg, st.store[ev.pos], ev.level))
  {
    var p := st.store[ev.pos];
    assert AccountOf(st.store, SwapsOf(st.swaps, ev.pos), ev.pos);
    MulBpsWithin(p.remainingSize, p.levels[ev.level].portionBps);
  }

  /** What a step does to the swaps of one position. */
  lemma StepKeepsPaid(cfg: Config, st: State, op: Op, id: PosId)
    requires Budgeted(cfg, st, id) && id in st.store
    ensures Permitted(st.store[id], SwapsOf(Step(cfg, st, op).swaps, id))
  {
    StepSwaps(cfg, st, op);
    if Step(cfg, st, op).swaps != st.swaps {
      SwapsOfSnoc(st.swaps, SwapOf(cfg, st.store[op.event.pos], op.event.level), id);
      if op.event.pos == id {
        SwapIsPaid(cfg, st, op.event, op.env);
      }
    }
  }

  lemma StepKeepsBudget(cfg: Config, st: State, op: Op, id: PosId)
    requires Budgeted(cfg, st, id) && Unrenewed(cfg, st, op, id)
    ensures Budgeted(cfg, Step(cfg, st, op), id)
  {
    var st' := Step(cfg, st, op);
    StepKeepsAccounts(cfg, st, op);
    if id in st.store {
      StepKeepsPermit(cfg, st, op, id);
      StepKeepsPaid(cfg, st, op, id);
      PermittedKept(st.store[id], st'.store[id], SwapsOf(st'.swaps, id));
    } else if id in st'.store {
      assert AccountOf(st.store, SwapsOf(st.swaps, id), id);
      OpenedIsPermitted(cfg, st, op, id);
    }
  }

  lemma OpenedIsPermitted(cfg: Config, st: State, op: Op, id: PosId)
    requires StoreOk(cfg, st) && id !in st.store && id in Step(cfg, st, op).store
    ensures Step(cfg, st, op).swaps == st.swaps && Permitted(Step(cfg, st, op).store[id], [])
  {
    OnlyOpenAdds(cfg, st, op, id);
    NewIsPermitted(cfg, id, op.params, op.now);
  }

  lemma OnlyOpenAdds(cfg: Config, st: State, op: Op, id: PosId)
    requires StoreOk(cfg, st) && id !in st.store && id in Step(cfg, st, op).store
    ensures op.Open? && ValidOpen(cfg, op.params, op.now)
    ensures Step(cfg, st, op).swaps == st.swaps && Step(cfg, st, op).store[id] == NewPosition(id, op.params)
  {
    if op.Execute? {
      StoresItsOwn(cfg, st, op.event, op.env);
    } else if op.Restart? {
      RestartKeepsRest(st, op.ids);
    }
  }

  lemma NewIsPermitted(cfg: Config, id: PosId, q: OpenParams, now: int)
    requires ValidOpen(cfg, q, now)
    ensures Permitted(NewPosition(id, q), [])
  {
  }

  lemma {:induction false} RunKeepsBudget(cfg: Config, trace: seq<State>, ops: seq<Op>, n: nat, id: PosId)
    requires IsRun(cfg, trace, ops, (s, op) => Unrenewed(cfg, s, op, id)) && n <= |ops|
    requires Budgeted(cfg, trace[0], id)
    ensures Budgeted(cfg, trace[n], id)
  {
    if n > 0 {
      RunKeepsBudget(cfg, trace, ops, n - 1, id);
      StepKeepsBudget(cfg, trace[n - 1], ops[n - 1], id);
    }
  }

  ghost predicate WithinPermit(permit: Permit, swaps: seq<Swap>) {
    && (forall s :: s in swaps ==> s.mode == ExecPermit2Allowance && Uint160(s.amountIn) == s.amountIn)
    && permit.amount.Some? && Sum(AmountsOf(swaps)) <= permit.amount.value
    && (permit.activated ==> AllowanceAfter(permit.amount.value, AmountsOf(swaps)).Some?)
  }

  lemma PermittedIsWithin(p: Position, swaps: seq<Swap>)
    requires Permitted(p, swaps) && p.permit.signed && Sum(AmountsOf(swaps)) <= p.totalSize
    ensures WithinPermit(p.permit, swaps)
  {
    forall i | 0 <= i < |swaps|
      ensures 0 <= AmountsOf(swaps)[i] <= MAX_UINT160
    {
      assert PaidFrom(p.permit, swaps[i]);
    }
    if p.permit.activated {
      AllowanceSuffices(p.permit.amount.value, AmountsOf(swaps));
    }
  }

  /**
   The permit budget, in every state of every run in which the permit is not renewed: each swap is made
   under the permit with an amount that the 160-bit cast leaves alone, and their total is at most what was
   signed for, so that an allowance of its own would pay for them all. What the allowance that Permit2
   really keeps pays for is the subject of `Solvency`.
   */
  lemma PermitCoversAllSwaps(cfg: Config, trace: seq<State>, ops: seq<Op>, n: nat, id: PosId)
    requires IsRun(cfg, trace, ops, (s, op) => Unrenewed(cfg, s, op, id)) && trace[0] == EMPTY && n <= |ops|
    requires id in trace[n].store && trace[n].store[id].permit.signed
    ensures WithinPermit(trace[n].store[id].permit, SwapsOf(trace[n].swaps, id))
  {
    var st := trace[n];
    RunKeepsBudget(cfg, trace, ops, n, id);
    assert AccountOf(st.store, SwapsOf(st.swaps, id), id);
    PermittedIsWithin(st.store[id], SwapsOf(st.swaps, id));
  }
}
