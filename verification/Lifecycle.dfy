/**
 The position life cycle as a transition system. A state is the store, the trigger index, the bag of
 fired events not yet executed, and a log of the swaps made on chain. Each operation of the manager is
 one atomic step; what the outside world answers is a parameter of the step.
 */
module Lifecycle {
  import opened Types
  import opened TriggerIndex
  import opened Amounts
  import Permit2
  import Prices

  datatype Level = Level(
    index: nat,
    typ: LevelType,
    triggerPrice: int,
    portionBps: uint16,
    status: LevelStatus,
    moveSLTo: Option<int>,
    cancelOnFire: seq<int>,
    execPrice: Option<int>,
    execAmount: Option<int>)

  datatype LevelParams = LevelParams(
    typ: LevelType, triggerPrice: int, portionBps: uint16, moveSLTo: Option<int>, cancelOnFire: seq<int>)

  /** A position's Permit2 data; `signed` when a signature is present. */
  datatype Permit = Permit(
    signed: bool, nonce: Option<int>, deadline: int, amount: Option<int>, token: Address, activated: bool)

  /** Permit2 keeps one allowance of the executor per owner and token, on each chain. */
  datatype Grantee = Grantee(chain: ChainId, token: Address, owner: Address)

  const NO_PERMIT := Permit(false, None, 0, None, 0, false)

  datatype Position = Position(
    id: PosId,
    owner: Address,
    tokenBase: Address,
    tokenQuote: Address,
    direction: Direction,
    totalSize: int,
    remainingSize: int,
    state: PositionState,
    chain: ChainId,
    decimalsBase: nat,
    decimalsQuote: nat,
    levels: seq<Level>,
    permit: Permit)
  {
    function Pair(): TokenPair {
      TokenPair(tokenBase, tokenQuote, chain)
    }

    predicate Up(i: nat)
      requires i < |levels|
    {
      FiresAbove(levels[i].typ, direction)
    }

    function TokenIn(): Address {
      if direction == Long then tokenBase else tokenQuote
    }

    /** The Permit2 allowance that its swaps draw on. */
    function DrawsOn(): Grantee {
      Grantee(chain, TokenIn(), owner)
    }

    /** The one that activating its permit replaces. */
    function Grants(): Grantee {
      Grantee(chain, permit.token, owner)
    }

    function EntryOf(i: nat): Entry
      requires i < |levels|
    {
      Entry(levels[i].triggerPrice, id, i, levels[i].typ)
    }

    /** The indices of the levels with a status. */
    function Those(status: LevelStatus): set<nat> {
      set i: nat | i < |levels| && levels[i].status == status
    }
  }

  datatype PermitParams = PermitParams(nonce: Option<int>, deadline: int, amount: Option<int>, signer: Option<Address>)

  datatype OpenParams = OpenParams(
    owner: Address, tokenBase: Address, tokenQuote: Address, direction: Direction, size: int, chain: ChainId,
    decimalsBase: nat, decimalsQuote: nat, levels: seq<LevelParams>, permit: Option<PermitParams>)

  datatype ExecMode = ExecLegacy | ExecPermit2Allowance

  /** A swap that happened on chain. */
  datatype Swap = Swap(
    pos: PosId, level: nat, portionBps: uint16, tokenIn: Address, tokenOut: Address, amountIn: int, minAmountOut: int, mode: ExecMode)

  datatype ChainConfig = ChainConfig(
    tpSlippageBps: uint16, slSlippageBps: uint16, minPermitLifetime: int, permitExpiryWarning: int)

  type Config = map<ChainId, ChainConfig>

  datatype State = State(
    store: map<PosId, Position>,
    index: Index,
    inflight: multiset<Event>,
    swaps: seq<Swap>,
    grants: map<Grantee, int>)   // Permit2's allowances, on chain

  const EMPTY := State(map[], map[], multiset{}, [], map[])

  /** How a transaction goes: unseen, it takes effect, but the keeper fails to learn so and takes it for failed. */
  datatype Tx = Confirmed | Failed | Unseen

  /** What the outside world does during executeTrigger. */
  datatype Env = Env(
    now: int,
    getOk: bool,
    feeOk: bool,
    breakerOk: bool,
    activate: Tx,
    updateOk: bool,    // the store write of a suspension or of an activation
    swap: Tx,
    persistOk: bool)   // the retried store write after the swap

  datatype Op =
    | Open(id: PosId, params: OpenParams, now: int, approveOk: bool, saveOk: bool)
    | UpdateLevel(id: PosId, level: int, price: int, getOk: bool, updateOk: bool)
    | AddLevel(id: PosId, params': LevelParams, getOk: bool, updateOk: bool)
    | RemoveLevel(id: PosId, level: int, getOk: bool, updateOk: bool)
    | Cancel(id: PosId, getOk: bool, updateOk: bool)
    | Renew(id: PosId, owner: Address, signed: bool, nonce: Option<int>, deadline: int, amount: Option<int>,
            getOk: bool, updateOk: bool)
    | Expire(id: PosId, now: int, updateOk: bool)
    | Load(id: PosId)
    | Restart(ids: seq<PosId>)
    | Price(pair: TokenPair, price: int)
    | CutPrice(pair: TokenPair, price: int, sent: nat)
    | Execute(event: Event, env: Env)

  // ---- Pieces ----

  /** Two's-complement int64. */
  function Wrap64(x: int): int {
    (x + 0x8000_0000_0000_0000) % 0x1_0000_0000_0000_0000 - 0x8000_0000_0000_0000
  }

  /** `time.Duration(deadline-now) * time.Second`, in nanoseconds, in int64 arithmetic. */
  function LifetimeNanos(deadline: int, now: int): int {
    Wrap64(Wrap64(deadline - now) * 1_000_000_000)
  }

  const MAX_UINT48: int := 0xFFFF_FFFF_FFFF

  /** `uint64` of an int64. */
  function Uint64(x: int): int {
    x % 0x1_0000_0000_0000_0000
  }

  /** `big.Int.Uint64`: the low 64 bits of the magnitude. */
  function LowBits(x: int): int {
    Uint64(if x < 0 then -x else x)
  }

  /** The Permit2 type bounds that activatePermit checks before it builds the call. */
  predicate WithinPermit2Bounds(p: Permit) {
    && (p.amount.Some? ==> p.amount.value <= Permit2.MAX_UINT160)
    && Uint64(p.deadline) <= MAX_UINT48
    && p.nonce.Some? && LowBits(p.nonce.value) <= MAX_UINT48
  }

  /** A nil nonce is dereferenced on the way into activatePermit, a nil amount when it packs the call. */
  predicate NilField(p: Permit) {
    p.signed && !p.activated && (p.nonce.None? || (WithinPermit2Bounds(p) && p.amount.None?))
  }

  function NewLevel(i: nat, lp: LevelParams): Level {
    Level(i, lp.typ, lp.triggerPrice, lp.portionBps, LevelActive, lp.moveSLTo, lp.cancelOnFire, None, None)
  }

  function Build(lps: seq<LevelParams>): (ls: seq<Level>) {
    seq(|lps|, i requires 0 <= i < |lps| => NewLevel(i, lps[i]))
  }

  function BpsOfParams(lps: seq<LevelParams>): seq<int> {
    seq(|lps|, i requires 0 <= i < |lps| => lps[i].portionBps)
  }

  predicate ValidParams(lps: seq<LevelParams>, i: nat)
    requires i < |lps|
  {
    && lps[i].triggerPrice > 0
    && 1 <= lps[i].portionBps <= BPS
    && forall k :: 0 <= k < |lps[i].cancelOnFire| ==> 0 <= lps[i].cancelOnFire[k] < |lps|
  }

  /** The level checks of OpenPosition; the portions are summed in uint32. */
  predicate ValidLevels(lps: seq<LevelParams>) {
    && lps != []
    && (forall i :: 0 <= i < |lps| ==> ValidParams(lps, i))
    && Sum(BpsOfParams(lps)) % 0x1_0000_0000 <= BPS
  }

  /** ValidatePermitForPosition, with the recovered signer given; token and spender agree by construction. */
  predicate ValidPermit(pp: PermitParams, owner: Address, size: int, now: int, minLifetime: int) {
    && pp.signer == Some(owner)
    && size <= (if pp.amount.Some? then pp.amount.value else size)
    && now < pp.deadline
    && minLifetime <= LifetimeNanos(pp.deadline, now)
  }

  predicate ValidOpen(cfg: Config, q: OpenParams, now: int) {
    && q.size > 0
    && q.chain in cfg
    && ValidLevels(q.levels)
    && (q.permit.Some? ==> ValidPermit(q.permit.value, q.owner, q.size, now, cfg[q.chain].minPermitLifetime))
  }

  function NewPosition(id: PosId, q: OpenParams): Position {
    Position(id, q.owner, q.tokenBase, q.tokenQuote, q.direction, q.size, q.size, StateActive, q.chain,
             q.decimalsBase, q.decimalsQuote, Build(q.levels),
             if q.permit.None? then NO_PERMIT
             else Permit(true, Some(if q.permit.value.nonce.Some? then q.permit.value.nonce.value else 0), q.permit.value.deadline,
                         Some(if q.permit.value.amount.Some? then q.permit.value.amount.value else q.size),
                         if q.direction == Long then q.tokenBase else q.tokenQuote, false))
  }

  function SetStatus(ls: seq<Level>, those: set<nat>, to: LevelStatus): (r: seq<Level>) {
    seq(|ls|, i requires 0 <= i < |ls| => if i in those then ls[i].(status := to) else ls[i])
  }

  /** Registers, in ascending order, the levels of `those` below `k`. */
  function RegisterAll(ix: Index, p: Position, those: set<nat>, k: nat): Index
    requires k <= |p.levels|
  {
    if k == 0 then ix
    else
      var r := RegisterAll(ix, p, those, k - 1);
      if k - 1 in those then Register(r, p.Pair(), p.Up(k - 1), p.EntryOf(k - 1)) else r
  }

  function Put(st: State, p: Position, index: Index, ok: bool): State {
    st.(store := if ok then st.store[p.id := p] else st.store, index := index)
  }

  // ---- The operations on positions ----

  function OpenStep(cfg: Config, st: State, id: PosId, q: OpenParams, now: int, approveOk: bool, saveOk: bool): State {
    // Save inserts a new record; a store that already holds the id refuses it.
    if ValidOpen(cfg, q, now) && approveOk && saveOk && id !in st.store then
      var p := NewPosition(id, q);
      Put(st, p, RegisterAll(st.index, p, p.Those(LevelActive), |p.levels|), true)
    else st
  }

  /** A stored position that is not terminal, when the store answers. */
  predicate Live(st: State, id: PosId, getOk: bool) {
    getOk && id in st.store && !st.store[id].state.IsTerminal()
  }

  predicate UpdateAccepted(st: State, id: PosId, level: int, price: int, getOk: bool) {
    && price > 0 && Live(st, id, getOk)
    && 0 <= level < |st.store[id].levels| && st.store[id].levels[level].status == LevelActive
  }

  function Repriced(p: Position, i: nat, price: int): Position
    requires i < |p.levels|
  {
    p.(levels := p.levels[i := p.levels[i].(triggerPrice := price)])
  }

  function UpdateStep(st: State, id: PosId, level: int, price: int, getOk: bool, updateOk: bool): State {
    if UpdateAccepted(st, id, level, price, getOk) then
      var p := Repriced(st.store[id], level, price);
      Put(st, p, UpdateTriggerPrice(st.index, p.Pair(), p.Up(level), p.EntryOf(level)), updateOk)
    else st
  }

  function Extended(p: Position, lp: LevelParams): Position {
    p.(levels := p.levels + [NewLevel(|p.levels|, lp)])
  }

  function AddStep(st: State, id: PosId, lp: LevelParams, getOk: bool, updateOk: bool): State {
    if Live(st, id, getOk) then
      var p := Extended(st.store[id], lp);
      Put(st, p, Register(st.index, p.Pair(), p.Up(|p.levels| - 1), p.EntryOf(|p.levels| - 1)), updateOk)
    else st
  }

  predicate RemoveAccepted(st: State, id: PosId, level: int, getOk: bool) {
    Live(st, id, getOk) && 0 <= level < |st.store[id].levels|
  }

  function RemoveStep(st: State, id: PosId, level: int, getOk: bool, updateOk: bool): State {
    if RemoveAccepted(st, id, level, getOk) then
      var p := st.store[id];
      Put(st, p.(levels := p.levels[level := p.levels[level].(status := LevelCancelled)]),
          Unregister(st.index, p.Pair(), p.id, level), updateOk)
    else st
  }

  function CancelStep(st: State, id: PosId, getOk: bool, updateOk: bool): State {
    if Live(st, id, getOk) then
      var p := st.store[id];
      var those := p.Those(LevelActive);
      Put(st, p.(levels := SetStatus(p.levels, those, LevelCancelled), state := StateCancelled),
          Remove(st.index, p.Pair(), OfLevels(p.id, those)), updateOk)
    else st
  }

  predicate RenewAccepted(st: State, id: PosId, owner: Address, getOk: bool) {
    Live(st, id, getOk) && st.store[id].owner == owner
  }

  function Renewed(p: Position, signed: bool, nonce: Option<int>, deadline: int, amount: Option<int>): Position {
    p.(levels := SetStatus(p.levels, p.Those(LevelSuspended), LevelActive),
       permit := p.permit.(signed := signed, deadline := deadline, activated := false,
                           nonce := if nonce.Some? then nonce else p.permit.nonce,
                           amount := if amount.Some? then amount else p.permit.amount))
  }

  function RenewStep(st: State, id: PosId, owner: Address, signed: bool, nonce: Option<int>, deadline: int,
                     amount: Option<int>, getOk: bool, updateOk: bool): State {
    if RenewAccepted(st, id, owner, getOk) then
      var p := Renewed(st.store[id], signed, nonce, deadline, amount);
      Put(st, p, RegisterAll(st.index, p, st.store[id].Those(LevelSuspended), |p.levels|), updateOk)
    else st
  }

  function SuspendStep(st: State, p: Position, updateOk: bool): State {
    var those := p.Those(LevelActive);
    Put(st, p.(levels := SetStatus(p.levels, those, LevelSuspended)),
        Remove(st.index, p.Pair(), OfLevels(p.id, those)), updateOk)
  }

  /** The permit monitor's visit to one listed position. */
  predicate ExpiryDue(st: State, id: PosId, now: int) {
    && Live(st, id, true)
    && st.store[id].permit.signed && st.store[id].permit.deadline != 0
    && LifetimeNanos(st.store[id].permit.deadline, now) <= 0
    && st.store[id].Those(LevelActive) != {}
  }

  function ExpireStep(st: State, id: PosId, now: int, updateOk: bool): State {
    if ExpiryDue(st, id, now) then SuspendStep(st, st.store[id], updateOk) else st
  }

  /** What the monitor tells the host of a permit that expires soon. */
  datatype Warning = Warning(id: PosId, owner: Address, deadline: int, activeLevels: nat)

  /** A chain's warning threshold, 48 hours if none is set. */
  function WarningThreshold(c: ChainConfig): int {
    if c.permitExpiryWarning == 0 then 172_800_000_000_000 else c.permitExpiryWarning
  }

  predicate WarningDue(cfg: Config, st: State, id: PosId, now: int) {
    && Live(st, id, true) && st.store[id].chain in cfg
    && st.store[id].permit.signed && st.store[id].permit.deadline != 0
    && 0 < LifetimeNanos(st.store[id].permit.deadline, now) <= WarningThreshold(cfg[st.store[id].chain])
  }

  /** One visit after another to the listed positions; `updates` says which store writes succeed. */
  function MonitorStep(cfg: Config, st: State, ids: seq<PosId>, now: int, updates: seq<bool>): (State, seq<Warning>)
    requires |ids| <= |updates|
  {
    if ids == [] then (st, [])
    else
      var n := |ids| - 1;
      var (s, warnings) := MonitorStep(cfg, st, ids[..n], now, updates);
      (ExpireStep(s, ids[n], now, updates[n]), warnings + WarningOf(cfg, s, ids[n], now))
  }

  function WarningOf(cfg: Config, st: State, id: PosId, now: int): seq<Warning> {
    if WarningDue(cfg, st, id, now)
    then [Warning(id, st.store[id].owner, st.store[id].permit.deadline, |st.store[id].Those(LevelActive)|)]
    else []
  }

  /** Run's registration of one listed position. */
  function LoadStep(st: State, id: PosId): State {
    if Live(st, id, true) then
      var p := st.store[id];
      st.(index := RegisterAll(st.index, p, p.Those(LevelActive), |p.levels|))
    else st
  }

  function LoadAll(st: State, ids: seq<PosId>): State {
    if ids == [] then st else LoadStep(LoadAll(st, ids[..|ids| - 1]), ids[|ids| - 1])
  }

  /** The process ends: the index and the channel are gone, the store and the chain stay. */
  function Crash(st: State): State {
    st.(index := map[], inflight := multiset{})
  }

  /** A new process loads what the store lists. */
  function RestartStep(st: State, ids: seq<PosId>): State {
    LoadAll(Crash(st), ids)
  }

  function PriceStep(st: State, pair: TokenPair, price: int): State {
    var (index, events) := OnPrice(st.index, pair, price);
    st.(index := index, inflight := st.inflight + multiset(events))
  }

  /** The context is cancelled when `sent` of the events are on the channel: the rest, already out of the index, is dropped. */
  function CutPriceStep(st: State, pair: TokenPair, price: int, sent: nat): State {
    var (index, events) := OnPrice(st.index, pair, price);
    st.(index := index, inflight := st.inflight + multiset(if sent <= |events| then events[..sent] else events))
  }

  // ---- Executing a trigger ----

  predicate MovesSL(l: Level) {
    l.typ == TP && l.moveSLTo.Some? && l.moveSLTo.value > 0
  }

  /** The levels that level `i` takes down with it: all other active ones for an SL, the listed ones for a TP. */
  function TakenDown(p: Position, i: nat): set<nat>
    requires i < |p.levels|
  {
    set j: nat | j < |p.levels| && j != i && p.levels[j].status == LevelActive &&
                 (p.levels[i].typ == TP ==> j in p.levels[i].cancelOnFire)
  }

  /** A negative index in CancelOnFire panics when the TP fires; only AddLevel lets one in. */
  predicate HasNegativeIndex(l: Level) {
    l.typ == TP && exists k :: 0 <= k < |l.cancelOnFire| && l.cancelOnFire[k] < 0
  }

  /** The first active stop-loss at or after `k`. */
  function ActiveSL(ls: seq<Level>, k: nat): (r: Option<nat>)
    requires k <= |ls|
    decreases |ls| - k
  {
    if k == |ls| then None
    else if ls[k].typ == SL && ls[k].status == LevelActive then Some(k)
    else ActiveSL(ls, k + 1)
  }

  lemma {:induction false} ActiveSLIsFirst(ls: seq<Level>, k: nat)
    requires k <= |ls|
    ensures var r := ActiveSL(ls, k);
      if r.None? then forall j :: k <= j < |ls| ==> !(ls[j].typ == SL && ls[j].status == LevelActive)
      else k <= r.value < |ls| && ls[r.value].typ == SL && ls[r.value].status == LevelActive &&
           forall j :: k <= j < r.value ==> !(ls[j].typ == SL && ls[j].status == LevelActive)
    decreases |ls| - k
  {
    if k < |ls| {
      ActiveSLIsFirst(ls, k + 1);
    }
  }

  /** The levels once level `i` has fired and taken others down. */
  function FiredLevels(p: Position, i: nat, price: int): (r: seq<Level>)
    requires i < |p.levels|
    ensures |r| == |p.levels|
  {
    var l := p.levels[i].(status := LevelTriggered, execPrice := Some(price),
                          execAmount := Some(MulBps(p.remainingSize, p.levels[i].portionBps)));
    SetStatus(p.levels[i := l], TakenDown(p, i), LevelCancelled)
  }

  /** The stop-loss that level `i` moves, if any. */
  function MovedSL(p: Position, i: nat, price: int): (r: Option<nat>)
    requires i < |p.levels|
    ensures r.Some? ==> r.value < |p.levels|
  {
    ActiveSLIsFirst(FiredLevels(p, i, price), 0);
    if MovesSL(p.levels[i]) then ActiveSL(FiredLevels(p, i, price), 0) else None
  }

  predicate NoneIs(ls: seq<Level>, status: LevelStatus) {
    forall i :: 0 <= i < |ls| ==> ls[i].status != status
  }

  /** The position after level `i` has been swapped. */
  function Fired(p: Position, i: nat, price: int): Position
    requires i < |p.levels|
  {
    var ls := FiredLevels(p, i, price);
    var sl := MovedSL(p, i, price);
    var ls' := if sl.Some? then ls[sl.value := ls[sl.value].(triggerPrice := p.levels[i].moveSLTo.value)] else ls;
    var left := Left(p.remainingSize, p.levels[i].portionBps);
    p.(levels := ls', remainingSize := left,
       state := if p.levels[i].typ == SL || NoneIs(ls', LevelActive) || left <= 0 then StateClosed else StatePartialClosed)
  }

  /** The index after that: what was taken down is unregistered and a moved stop-loss re-registered. */
  function FiredIndex(ix: Index, p: Position, i: nat, price: int): Index
    requires i < |p.levels|
  {
    var ix' := Remove(ix, p.Pair(), OfLevels(p.id, TakenDown(p, i)));
    var sl := MovedSL(p, i, price);
    if sl.None? then ix'
    else
      var p' := Fired(p, i, price);
      UpdateTriggerPrice(ix', p.Pair(), p'.Up(sl.value), p'.EntryOf(sl.value))
  }

  function SwapOf(cfg: Config, p: Position, i: nat): Swap
    requires i < |p.levels| && p.chain in cfg
  {
    var l, c := p.levels[i], cfg[p.chain];
    var amountIn := MulBps(p.remainingSize, l.portionBps);
    var slippage := if l.typ == SL then c.slSlippageBps else c.tpSlippageBps;
    if p.direction == Long then
      Swap(p.id, i, l.portionBps, p.tokenBase, p.tokenQuote, amountIn,
           Prices.MinAmountOut(l.triggerPrice, amountIn, slippage, p.decimalsBase, p.decimalsQuote),
           if p.permit.signed then ExecPermit2Allowance else ExecLegacy)
    else
      Swap(p.id, i, l.portionBps, p.tokenQuote, p.tokenBase, amountIn,
           Prices.MinAmountOut(l.triggerPrice, amountIn, slippage, p.decimalsQuote, p.decimalsBase),
           if p.permit.signed then ExecPermit2Allowance else ExecLegacy)
  }

  /** What executing an event comes to. */
  datatype Outcome =
    | Skipped       // nothing to do, or a lookup failed: the trigger is dropped
    | Requeued      // failed before the swap: the trigger is registered again
    | Suspended     // the permit has expired
    | Panicked      // a nil permit field: the process ends before the swap
    | Unconfirmed   // swapped, but taken for failed: the trigger is registered again
    | SwapPanicked  // swapped, then a negative CancelOnFire index: the process ends
    | Unrecorded    // swapped, but the new position was never stored
    | Recorded      // swapped and stored
  {
    predicate Swaps() {
      Unconfirmed? || SwapPanicked? || Unrecorded? || Recorded?
    }
  }

  predicate PermitExpired(p: Permit, now: int) {
    p.signed && p.deadline > 0 && p.deadline <= now
  }

  /** The level is active, every lookup succeeds and the breaker lets it pass. */
  predicate Eligible(cfg: Config, st: State, ev: Event, env: Env) {
    && Live(st, ev.pos, env.getOk)
    && ev.level < |st.store[ev.pos].levels| && st.store[ev.pos].levels[ev.level].status == LevelActive
    && st.store[ev.pos].chain in cfg && env.feeOk && env.breakerOk
  }

  /** A permit call is made that the chain does not reject outright: a negative amount does not decode as 160 bits. */
  predicate SendsActivation(cfg: Config, st: State, ev: Event, env: Env) {
    && Eligible(cfg, st, ev, env)
    && var permit := st.store[ev.pos].permit;
       permit.signed && !PermitExpired(permit, env.now) && !permit.activated && !NilField(permit) &&
       WithinPermit2Bounds(permit) && permit.amount.value >= 0
  }

  /** The step gets past permit activation, which it stores at once. */
  predicate Activates(cfg: Config, st: State, ev: Event, env: Env) {
    SendsActivation(cfg, st, ev, env) && env.activate == Confirmed
  }

  function Activated(p: Position): Position {
    p.(permit := p.permit.(activated := true))
  }

  function Allowance(grants: map<Grantee, int>, k: Grantee): int {
    if k in grants then grants[k] else 0
  }

  /** The allowances once the step's activation, if it takes effect, has replaced one. */
  function GrantsAt(cfg: Config, st: State, ev: Event, env: Env): map<Grantee, int> {
    if SendsActivation(cfg, st, ev, env) && env.activate != Failed
    then st.grants[st.store[ev.pos].Grants() := st.store[ev.pos].permit.amount.value]
    else st.grants
  }

  function AmountIn(p: Position, i: nat): int
    requires i < |p.levels|
  {
    MulBps(p.remainingSize, p.levels[i].portionBps)
  }

  /** The allowance pays for the swap of level `i`, if the swap draws on one. */
  predicate Covers(grants: map<Grantee, int>, p: Position, i: nat)
    requires i < |p.levels|
  {
    p.permit.signed ==> Permit2.Paid(Allowance(grants, p.DrawsOn()), AmountIn(p, i))
  }

  /** The allowances after the swap of level `i`. */
  function Debit(grants: map<Grantee, int>, p: Position, i: nat): map<Grantee, int>
    requires i < |p.levels| && Covers(grants, p, i)
  {
    if p.permit.signed
    then grants[p.DrawsOn() := Permit2.Debited(Allowance(grants, p.DrawsOn()), AmountIn(p, i)).value]
    else grants
  }

  function OutcomeOf(cfg: Config, st: State, ev: Event, env: Env): Outcome {
    if !Live(st, ev.pos, env.getOk) then Skipped
    else
      var p := st.store[ev.pos];
      if ev.level >= |p.levels| || p.levels[ev.level].status != LevelActive then Skipped
      else if p.chain !in cfg || !env.feeOk then Skipped
      else if !env.breakerOk then Requeued
      else if PermitExpired(p.permit, env.now) then Suspended
      else if NilField(p.permit) then Panicked
      else if p.permit.signed && !p.permit.activated && !Activates(cfg, st, ev, env) then Requeued
      else if env.swap == Failed || !Covers(GrantsAt(cfg, st, ev, env), p, ev.level) then Requeued
      else if env.swap == Unseen then Unconfirmed
      else if HasNegativeIndex(p.levels[ev.level]) then SwapPanicked
      else if !env.persistOk then Unrecorded
      else Recorded
  }

  /** The rest of a step that got to the swap of `p`, with its activation, if any, already in `st`. */
  function SettleStep(cfg: Config, st: State, p: Position, ev: Event, out: Outcome): State
    requires p.chain in cfg && ev.level < |p.levels| && (out.Swaps() ==> Covers(st.grants, p, ev.level))
  {
    if !out.Swaps() then st.(index := Register(st.index, p.Pair(), p.Up(ev.level), p.EntryOf(ev.level)))
    else
      var s := st.(swaps := st.swaps + [SwapOf(cfg, p, ev.level)], grants := Debit(st.grants, p, ev.level));
      if out.Unconfirmed? then s.(index := Register(st.index, p.Pair(), p.Up(ev.level), p.EntryOf(ev.level)))
      else if out.SwapPanicked? then Crash(s)
      else if out.Unrecorded? then s
      else Put(s, Fired(p, ev.level, ev.price), FiredIndex(st.index, p, ev.level, ev.price), true)
  }

  /** The position as it stands when it is swapped: its permit may just have been activated. */
  function AtSwap(cfg: Config, st: State, ev: Event, env: Env): Position
    requires ev.pos in st.store
  {
    if Activates(cfg, st, ev, env) then Activated(st.store[ev.pos]) else st.store[ev.pos]
  }

  /** The state after the activation, if any. */
  function ActivateStep(cfg: Config, st: State, ev: Event, env: Env): State
    requires ev.pos in st.store
  {
    var s := st.(inflight := st.inflight - multiset{ev}, grants := GrantsAt(cfg, st, ev, env));
    if Activates(cfg, st, ev, env) then Put(s, AtSwap(cfg, st, ev, env), s.index, env.updateOk) else s
  }

  function ExecuteStep(cfg: Config, st: State, ev: Event, env: Env): State {
    if ev !in st.inflight then st
    else
      var s := st.(inflight := st.inflight - multiset{ev});
      match OutcomeOf(cfg, st, ev, env)
      case Skipped => s
      case Panicked => Crash(s)
      case Suspended => SuspendStep(s, st.store[ev.pos], env.updateOk)
      case out => SettleStep(cfg, ActivateStep(cfg, st, ev, env), AtSwap(cfg, st, ev, env), ev, out)
  }

  function Step(cfg: Config, st: State, op: Op): State {
    match op
    case Open(id, q, now, approveOk, saveOk) => OpenStep(cfg, st, id, q, now, approveOk, saveOk)
    case UpdateLevel(id, level, price, getOk, updateOk) => UpdateStep(st, id, level, price, getOk, updateOk)
    case AddLevel(id, lp, getOk, updateOk) => AddStep(st, id, lp, getOk, updateOk)
    case RemoveLevel(id, level, getOk, updateOk) => RemoveStep(st, id, level, getOk, updateOk)
    case Cancel(id, getOk, updateOk) => CancelStep(st, id, getOk, updateOk)
    case Renew(id, owner, signed, nonce, deadline, amount, getOk, updateOk) =>
      RenewStep(st, id, owner, signed, nonce, deadline, amount, getOk, updateOk)
    case Expire(id, now, updateOk) => ExpireStep(st, id, now, updateOk)
    case Load(id) => LoadStep(st, id)
    case Restart(ids) => RestartStep(st, ids)
    case Price(pair, price) => PriceStep(st, pair, price)
    case CutPrice(pair, price, sent) => CutPriceStep(st, pair, price, sent)
    case Execute(ev, env) => ExecuteStep(cfg, st, ev, env)
  }

  /**
   A run: `trace` holds the state before each operation, and the last one; each step is allowed in the
   state it is taken in.
   */
  ghost predicate IsRun(cfg: Config, trace: seq<State>, ops: seq<Op>, ok: (State, Op) -> bool) {
    && |trace| == |ops| + 1
    && forall i {:trigger ops[i]} :: 0 <= i < |ops| ==> ok(trace[i], ops[i]) && trace[i + 1] == Step(cfg, trace[i], ops[i])
  }

  function Trace(cfg: Config, st: State, ops: seq<Op>): (trace: seq<State>)
    ensures |trace| == |ops| + 1
  {
    if ops == [] then [st]
    else
      var r := Trace(cfg, st, ops[..|ops| - 1]);
      r + [Step(cfg, r[|ops| - 1], ops[|ops| - 1])]
  }

  /** Every list of operations has a run from every state. */
  lemma {:induction false} TraceIsRun(cfg: Config, st: State, ops: seq<Op>)
    ensures IsRun(cfg, Trace(cfg, st, ops), ops, (s, op) => true) && Trace(cfg, st, ops)[0] == st
  {
    hide Step;
    if ops == [] {
    } else {
      var n := |ops| - 1;
      var r, trace := Trace(cfg, st, ops[..n]), Trace(cfg, st, ops);
      TraceIsRun(cfg, st, ops[..n]);
      assert trace == r + [Step(cfg, r[n], ops[n])];
      forall i | 0 <= i < |ops|
        ensures trace[i + 1] == Step(cfg, trace[i], ops[i])
      {
        assert i < n ==> ops[..n][i] == ops[i];
      }
    }
  }

  /** A run with one more operation. */
  lemma RunExtends(cfg: Config, trace: seq<State>, ops: seq<Op>, ok: (State, Op) -> bool, op: Op)
    requires IsRun(cfg, trace, ops, ok) && ok(trace[|ops|], op)
    ensures IsRun(cfg, trace + [Step(cfg, trace[|ops|], op)], ops + [op], ok)
  {
    hide Step;
    var trace', ops' := trace + [Step(cfg, trace[|ops|], op)], ops + [op];
    forall i | 0 <= i < |ops'|
      ensures ok(trace'[i], ops'[i]) && trace'[i + 1] == Step(cfg, trace'[i], ops'[i])
    {
      assert i < |ops| ==> ops'[i] == ops[i];
    }
  }

  // ---- Well-formedness, kept by every step ----

  predicate WellFormed(cfg: Config, id: PosId, p: Position) {
    p.id == id && p.chain in cfg && forall i :: 0 <= i < |p.levels| ==> p.levels[i].index == i
  }

  ghost predicate StoreOk(cfg: Config, st: State) {
    forall id :: id in st.store ==> WellFormed(cfg, id, st.store[id])
  }
}
