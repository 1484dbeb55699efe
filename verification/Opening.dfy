/**
 What OpenPosition accepts and what it stores, in terms of the parameters alone; and that over every run each
 position is one that was opened so, with a permit its owner signed.
 */
module Opening {
  import opened Types
  import opened TriggerIndex
  import opened Amounts
  import opened Lifecycle
  import opened SwapOnce
  import opened Coverage
  import opened Identity
  import PermitBudget

  // ---- What is accepted ----

  predicate SoundLevel(lp: LevelParams, count: nat) {
    && lp.triggerPrice > 0 && 1 <= lp.portionBps <= 10000
    && forall k :: 0 <= k < |lp.cancelOnFire| ==> 0 <= lp.cancelOnFire[k] < count
  }

  function Portions(lps: seq<LevelParams>): seq<int> {
    seq(|lps|, i requires 0 <= i < |lps| => lps[i].portionBps)
  }

  /** The nanoseconds left until a deadline, as a 64-bit duration. */
  function Nanos64(seconds: int): int {
    (seconds * 1_000_000_000 + 0x8000_0000_0000_0000) % 0x1_0000_0000_0000_0000 - 0x8000_0000_0000_0000
  }

  /** Signed by the owner, for the size at least, still good, and for as long as the chain asks for. */
  predicate SoundPermit(pp: PermitParams, owner: Address, size: int, now: int, minLifetime: int) {
    && pp.signer == Some(owner)
    && (pp.amount.Some? ==> pp.amount.value >= size)
    && pp.deadline > now
    && Nanos64(pp.deadline - now) >= minLifetime
  }

  predicate Acceptable(cfg: Config, q: OpenParams, now: int) {
    && q.size > 0 && q.chain in cfg && |q.levels| > 0
    && (forall i :: 0 <= i < |q.levels| ==> SoundLevel(q.levels[i], |q.levels|))
    && Sum(Portions(q.levels)) % 0x1_0000_0000 <= 10000
    && (q.permit.Some? ==> SoundPermit(q.permit.value, q.owner, q.size, now, cfg[q.chain].minPermitLifetime))
  }

  lemma NanosAre(deadline: int, now: int)
    ensures LifetimeNanos(deadline, now) == Nanos64(deadline - now)
  {
    var s := deadline - now;
    var m := (s + 0x8000_0000_0000_0000) / 0x1_0000_0000_0000_0000;
    assert Wrap64(s) == s - 0x1_0000_0000_0000_0000 * m;
    assert Wrap64(s) * 1_000_000_000 == s * 1_000_000_000 - 0x1_0000_0000_0000_0000 * (m * 1_000_000_000);
    SameRemainder(s * 1_000_000_000 + 0x8000_0000_0000_0000, m * 1_000_000_000);
  }

  lemma SameRemainder(x: int, k: int)
    ensures (x - 0x1_0000_0000_0000_0000 * k) % 0x1_0000_0000_0000_0000 == x % 0x1_0000_0000_0000_0000
  {
    var q, r := x / 0x1_0000_0000_0000_0000, x % 0x1_0000_0000_0000_0000;
    PermitBudget.ModIs(x - 0x1_0000_0000_0000_0000 * k, q - k, r);
  }

  /** A permit is accepted exactly if it is sound: nobody else's signature, no smaller amount, no shorter life. */
  lemma PermitAcceptedExactlyWhen(pp: PermitParams, owner: Address, size: int, now: int, minLifetime: int)
    ensures ValidPermit(pp, owner, size, now, minLifetime) <==> SoundPermit(pp, owner, size, now, minLifetime)
    ensures 0 < (pp.deadline - now) * 1_000_000_000 < 0x8000_0000_0000_0000 ==>
      (ValidPermit(pp, owner, size, now, minLifetime) <==>
        pp.signer == Some(owner) && (pp.amount.Some? ==> pp.amount.value >= size) && (pp.deadline - now) * 1_000_000_000 >= minLifetime)
  {
    NanosAre(pp.deadline, now);
    hide LifetimeNanos;
  }

  lemma AcceptsExactlyWhen(cfg: Config, q: OpenParams, now: int)
    ensures ValidOpen(cfg, q, now) <==> Acceptable(cfg, q, now)
  {
    if q.permit.Some? && q.chain in cfg {
      PermitAcceptedExactlyWhen(q.permit.value, q.owner, q.size, now, cfg[q.chain].minPermitLifetime);
    }
    assert BpsOfParams(q.levels) == Portions(q.levels);
    forall i | 0 <= i < |q.levels|
      ensures ValidParams(q.levels, i) <==> SoundLevel(q.levels[i], |q.levels|)
    {
    }
    hide ValidPermit, SoundPermit, ValidParams, SoundLevel, BpsOfParams, Portions, Sum;
  }

  // ---- What is stored ----

  predicate OpenedLevel(lp: LevelParams, i: nat, l: Level) {
    && l.index == i && l.typ == lp.typ && l.triggerPrice == lp.triggerPrice && l.portionBps == lp.portionBps
    && l.moveSLTo == lp.moveSLTo && l.cancelOnFire == lp.cancelOnFire
    && l.status == LevelActive && l.execPrice == None && l.execAmount == None
  }

  /** The permit is kept as it was signed: for the token the position sells, and not yet activated. */
  predicate OpenedPermit(q: OpenParams, p: Permit) {
    && p.signed == q.permit.Some? && !p.activated
    && (q.permit.Some? ==>
          var pp := q.permit.value;
          && p.nonce == Some(if pp.nonce.Some? then pp.nonce.value else 0) && p.deadline == pp.deadline
          && p.amount == Some(if pp.amount.Some? then pp.amount.value else q.size)
          && p.token == if q.direction == Long then q.tokenBase else q.tokenQuote)
    && (q.permit.None? ==> p == Permit(false, None, 0, None, 0, false))
  }

  ghost predicate OpenedAs(id: PosId, q: OpenParams, p: Position) {
    && p.id == id && p.owner == q.owner && p.tokenBase == q.tokenBase && p.tokenQuote == q.tokenQuote
    && p.direction == q.direction && p.totalSize == q.size && p.remainingSize == q.size && p.state == StateActive
    && p.chain == q.chain && p.decimalsBase == q.decimalsBase && p.decimalsQuote == q.decimalsQuote
    && |p.levels| == |q.levels| && (forall i :: 0 <= i < |q.levels| ==> OpenedLevel(q.levels[i], i, p.levels[i]))
    && OpenedPermit(q, p.permit)
  }

  /** The index entries of a position's active levels: each at its price, on the side its type and direction give. */
  predicate EntryOfLevel(p: Position, up: bool, x: Entry) {
    && x.pos == p.id && x.level < |p.levels| && p.levels[x.level].status == LevelActive
    && x.price == p.levels[x.level].triggerPrice && x.typ == p.levels[x.level].typ
    && up == ((x.typ == TP) == (p.direction == Long))
  }

  /** Opening stores the position that was asked for and registers its levels, or changes nothing. */
  lemma OpenMeans(cfg: Config, st: State, id: PosId, q: OpenParams, now: int, approveOk: bool, saveOk: bool)
    ensures var st' := Step(cfg, st, Open(id, q, now, approveOk, saveOk));
      if Acceptable(cfg, q, now) && approveOk && saveOk && id !in st.store then
        id in st'.store && OpenedAs(id, q, st'.store[id]) && st'.store == st.store[id := st'.store[id]] &&
        st' == st.(store := st'.store, index := st'.index) &&
        forall pair: TokenPair, up: bool, x: Entry :: Has(st'.index, pair, up, x) <==>
          Has(st.index, pair, up, x) || (pair == TokenPair(q.tokenBase, q.tokenQuote, q.chain) && EntryOfLevel(st'.store[id], up, x))
      else st' == st
  {
    AcceptsExactlyWhen(cfg, q, now);
    var p, st' := NewPosition(id, q), OpenStep(cfg, st, id, q, now, approveOk, saveOk);
    if Acceptable(cfg, q, now) && approveOk && saveOk && id !in st.store {
      forall pair: TokenPair, up: bool, x: Entry
        ensures Has(st'.index, pair, up, x) <==>
          Has(st.index, pair, up, x) || (pair == TokenPair(q.tokenBase, q.tokenQuote, q.chain) && EntryOfLevel(p, up, x))
      {
        RegisterAllHas(st.index, p, p.Those(LevelActive), |p.levels|, pair, up, x);
        hide Has, RegisterAll;
      }
    }
    hide ValidOpen, Acceptable, RegisterAll, Has, EntryOfLevel;
  }

  // ---- Over every run ----

  /** The position was opened by operation `k`, with these parameters. */
  ghost predicate OpenedAt(cfg: Config, trace: seq<State>, ops: seq<Op>, k: nat, id: PosId)
    requires k < |ops| < |trace|
  {
    && ops[k].Open? && ops[k].id == id && Acceptable(cfg, ops[k].params, ops[k].now)
    && id in trace[k + 1].store && OpenedAs(id, ops[k].params, trace[k + 1].store[id])
  }

  predicate RenewsIt(op: Op, id: PosId) {
    op.Renew? && op.id == id
  }

  lemma OnlyOpening(cfg: Config, st: State, op: Op, id: PosId)
    requires StoreOk(cfg, st) && id !in st.store && id in Step(cfg, st, op).store
    ensures op.Open? && op.id == id && Acceptable(cfg, op.params, op.now) && OpenedAs(id, op.params, Step(cfg, st, op).store[id])
  {
    PermitBudget.OnlyOpenAdds(cfg, st, op, id);
    assert op.id == id by {
      hide ExecuteStep, RestartStep, RegisterAll, ValidOpen;
    }
    OpenMeans(cfg, st, id, op.params, op.now, op.approveOk, op.saveOk);
    hide Acceptable, OpenedAs, ExecuteStep;
  }

  /**
   Every position in every state of every run is one that was opened as asked and has kept its identity; unless
   it was renewed since, its permit is the one its owner signed.
   */
  lemma {:induction false} EveryPositionWasOpened(cfg: Config, trace: seq<State>, ops: seq<Op>, ok: (State, Op) -> bool, n: nat, id: PosId)
    returns (k: nat)
    requires IsRun(cfg, trace, ops, ok) && trace[0] == EMPTY && n <= |ops| && id in trace[n].store
    ensures k < n && OpenedAt(cfg, trace, ops, k, id) && SameIdentity(trace[k + 1].store[id], trace[n].store[id])
    ensures (forall i :: k < i < n ==> !RenewsIt(ops[i], id)) ==>
      trace[n].store[id].permit == trace[k + 1].store[id].permit.(activated := trace[n].store[id].permit.activated)
  {
    hide Step, StoreOk, OpenedAs, Acceptable;
    EmptyStoreOk(cfg);
    k := 0;
    if n > 0 {
      RunKeepsStoreOk(cfg, trace, ops, ok, n - 1);
      if id in trace[n - 1].store {
        k := EveryPositionWasOpened(cfg, trace, ops, ok, n - 1, id);
        StepKeepsIdentity(cfg, trace[n - 1], ops[n - 1], id);
        IdentityTwice(trace[k + 1].store[id], trace[n - 1].store[id], trace[n].store[id]);
        if !RenewsIt(ops[n - 1], id) {
          PermitBudget.StepKeepsPermit(cfg, trace[n - 1], ops[n - 1], id);
        }
      } else {
        k := n - 1;
        OnlyOpening(cfg, trace[n - 1], ops[n - 1], id);
        NothingChanged(trace[n].store[id]);
      }
    }
  }

  /** So no signed position that was not renewed trades on anybody else's signature, for less than its size. */
  lemma SignedByItsOwner(cfg: Config, trace: seq<State>, ops: seq<Op>, ok: (State, Op) -> bool, n: nat, id: PosId) returns (k: nat)
    requires IsRun(cfg, trace, ops, ok) && trace[0] == EMPTY && n <= |ops| && id in trace[n].store
    requires trace[n].store[id].permit.signed && forall i :: 0 <= i < n ==> !RenewsIt(ops[i], id)
    ensures k < n && ops[k].Open? && ops[k].id == id && ops[k].params.permit.Some?
    ensures var p, pp := trace[n].store[id], ops[k].params.permit.value;
      pp.signer == Some(p.owner) && p.permit.deadline == pp.deadline > ops[k].now &&
      p.permit.amount.Some? && p.permit.amount.value >= p.totalSize && p.permit.token == p.TokenIn()
  {
    k := EveryPositionWasOpened(cfg, trace, ops, ok, n, id);
    hide Step;
  }
}
