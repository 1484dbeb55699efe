/**
 The on-chain executor as a machine over token ledgers. A call either goes through or reverts, and a
 revert leaves everything as it was. The router is a counterparty that pulls tokens and pays out others.
 */
module SwapExecutor {
  import opened Types
  import opened Amounts
  import opened Permit2
  import Fees

  const MAX_FEE_BPS := 500
  const TWO_256: int := 0x1_0000_0000_0000_0000_0000_0000_0000_0000_0000_0000_0000_0000_0000_0000_0000_0000

  datatype Account = Account(token: Address, holder: Address)
  datatype Approval = Approval(token: Address, owner: Address, spender: Address)
  datatype Grant = Grant(amount: int, expiration: int)
  datatype NonceOf = NonceOf(owner: Address, nonce: int)

  /** Token balances and approvals, and Permit2's grants to the executor and spent signature nonces. */
  datatype Ledger = Ledger(
    balances: map<Account, int>, approvals: map<Approval, int>, grants: map<Account, Grant>, spent: set<NonceOf>)
  {
    function Balance(token: Address, holder: Address): int {
      if Account(token, holder) in balances then balances[Account(token, holder)] else 0
    }

    function Approved(token: Address, owner: Address, spender: Address): int {
      if Approval(token, owner, spender) in approvals then approvals[Approval(token, owner, spender)] else 0
    }
  }

  datatype Parties = Parties(executor: Address, router: Address, feeCollector: Address, keepers: set<Address>)

  datatype SwapParams = SwapParams(
    user: Address, tokenIn: Address, tokenOut: Address, amountIn: nat, minAmountOut: nat, feeBps: uint16)

  /** The router's answer: whose pool it is, how much of the input it takes, and what it pays. */
  datatype Fill = Fill(pool: Address, pulled: nat, paid: nat)

  datatype Pull = FromApproval | FromGrant(now: int) | FromSignature(nonce: int, valid: bool)

  datatype Call =
    | Swap(sender: Address, params: SwapParams, pull: Pull, fill: Fill)
    | ActivatePermit(sender: Address, user: Address, token: Address, grant: Grant, valid: bool)

  // ---- Token operations ----

  function Credit(l: Ledger, token: Address, holder: Address, amount: int): Ledger {
    l.(balances := l.balances[Account(token, holder) := l.Balance(token, holder) + amount])
  }

  function Transfer(l: Ledger, token: Address, from: Address, to: Address, amount: int): Option<Ledger> {
    if l.Balance(token, from) < amount then None
    else Some(Credit(Credit(l, token, from, -amount), token, to, amount))
  }

  function Approve(l: Ledger, token: Address, owner: Address, spender: Address, amount: int): Ledger {
    l.(approvals := l.approvals[Approval(token, owner, spender) := amount])
  }

  function TransferFrom(l: Ledger, token: Address, spender: Address, from: Address, to: Address, amount: int): Option<Ledger> {
    var approved := l.Approved(token, from, spender);
    if approved < amount then None
    else Transfer(Approve(l, token, from, spender, approved - amount), token, from, to, amount)
  }

  // ---- The contract ----

  /** How the input reaches the contract, in each of the three modes. */
  function PullIn(ps: Parties, l: Ledger, p: SwapParams, pull: Pull): Option<Ledger> {
    match pull
    case FromApproval => TransferFrom(l, p.tokenIn, ps.executor, p.user, ps.executor, p.amountIn)
    case FromGrant(now) =>
      var key := Account(p.tokenIn, p.user);
      var grant := if key in l.grants then l.grants[key] else Grant(0, 0);
      var left := Debited(grant.amount, Uint160(p.amountIn));
      if now > grant.expiration || left.None? then None
      else Transfer(l.(grants := l.grants[key := grant.(amount := left.value)]), p.tokenIn, p.user, ps.executor, Uint160(p.amountIn))
    case FromSignature(nonce, valid) =>
      if !valid || NonceOf(p.user, nonce) in l.spent then None
      else Transfer(l.(spent := l.spent + {NonceOf(p.user, nonce)}), p.tokenIn, p.user, ps.executor, p.amountIn)
  }

  /** The router takes its input by the contract's approval, and reverts below the minimum output. */
  function ExactInputSingle(ps: Parties, l: Ledger, p: SwapParams, swapAmount: int, fill: Fill): Option<Ledger> {
    if fill.paid < p.minAmountOut || fill.pulled > swapAmount then None
    else
      var l1 := TransferFrom(l, p.tokenIn, ps.router, ps.executor, fill.pool, fill.pulled);
      if l1.None? then None else Transfer(l1.value, p.tokenOut, fill.pool, p.user, fill.paid)
  }

  /** Fee, approval and swap; `amountIn * feeBps` is checked arithmetic. */
  function SwapAndEmit(ps: Parties, l: Ledger, p: SwapParams, fill: Fill): Option<Ledger> {
    if p.feeBps > 0 && p.amountIn * p.feeBps >= TWO_256 then None
    else
      var fee := if p.feeBps > 0 then p.amountIn * p.feeBps / 10000 else 0;
      var l1 := if p.feeBps > 0 then Transfer(l, p.tokenIn, ps.executor, ps.feeCollector, fee) else Some(l);
      if l1.None? then None
      else ExactInputSingle(ps, Approve(l1.value, p.tokenIn, ps.executor, ps.router, p.amountIn - fee), p, p.amountIn - fee, fill)
  }

  /** One transaction: the ledger after it, or nothing if it reverts. */
  function Execute(ps: Parties, l: Ledger, c: Call): Option<Ledger> {
    if c.sender !in ps.keepers then None
    else
      match c
      case ActivatePermit(_, user, token, grant, valid) =>
        if valid then Some(l.(grants := l.grants[Account(token, user) := grant])) else None
      case Swap(_, p, pull, fill) =>
        if p.amountIn == 0 || p.feeBps > MAX_FEE_BPS then None
        else
          var l1 := PullIn(ps, l, p, pull);
          if l1.None? then None else SwapAndEmit(ps, l1.value, p, fill)
  }

  function Apply(ps: Parties, l: Ledger, c: Call): Ledger {
    var r := Execute(ps, l, c);
    if r.Some? then r.value else l
  }

  function Run(ps: Parties, l: Ledger, calls: seq<Call>): Ledger {
    if calls == [] then l else Apply(ps, Run(ps, l, calls[..|calls| - 1]), calls[|calls| - 1])
  }

  // ---- Who ends up with what ----

  function Fee(p: SwapParams): int {
    MulBps(p.amountIn, p.feeBps)
  }

  predicate Distinct(ps: Parties, p: SwapParams, fill: Fill) {
    && p.tokenIn != p.tokenOut
    && p.user != ps.executor && p.user != ps.feeCollector && p.user != fill.pool
    && ps.executor != ps.feeCollector && ps.executor != fill.pool && ps.feeCollector != fill.pool
  }

  /** What one swap changes in one balance: `got` is what was pulled from the user. */
  function Change(ps: Parties, p: SwapParams, fill: Fill, got: int, token: Address, holder: Address): int {
    if token == p.tokenIn then
      if holder == p.user then -got
      else if holder == ps.feeCollector then Fee(p)
      else if holder == fill.pool then fill.pulled
      else if holder == ps.executor then got - Fee(p) - fill.pulled
      else 0
    else if token == p.tokenOut then
      if holder == p.user then fill.paid else if holder == fill.pool then 0 - fill.paid else 0
    else 0
  }

  /** What reaches the contract: all of it, except that the grant mode cuts the amount to 160 bits. */
  function Received(p: SwapParams, pull: Pull): int {
    if pull.FromGrant? then Uint160(p.amountIn) else p.amountIn
  }

  lemma TransferMoves(l: Ledger, token: Address, from: Address, to: Address, amount: int, t: Address, h: Address)
    requires from != to && Transfer(l, token, from, to, amount).Some?
    ensures var l' := Transfer(l, token, from, to, amount).value;
      l'.Balance(t, h) == l.Balance(t, h) +
        (if t == token && h == to then amount else if t == token && h == from then -amount else 0) &&
      l'.approvals == l.approvals && l'.grants == l.grants && l'.spent == l.spent
  {
  }

  lemma PullInMoves(ps: Parties, l: Ledger, p: SwapParams, pull: Pull, t: Address, h: Address)
    requires p.user != ps.executor && PullIn(ps, l, p, pull).Some?
    ensures var l', got := PullIn(ps, l, p, pull).value, Received(p, pull);
      l'.Balance(t, h) ==
        l.Balance(t, h) + if t == p.tokenIn && h == ps.executor then got else if t == p.tokenIn && h == p.user then -got else 0
  {
    match pull
    case FromApproval =>
      var approved := l.Approved(p.tokenIn, p.user, ps.executor);
      TransferMoves(Approve(l, p.tokenIn, p.user, ps.executor, approved - p.amountIn),
                    p.tokenIn, p.user, ps.executor, p.amountIn, t, h);
    case FromGrant(now) =>
    case FromSignature(nonce, valid) =>
  }

  lemma ExactInputMoves(ps: Parties, l: Ledger, p: SwapParams, swapAmount: int, fill: Fill, t: Address, h: Address)
    requires Distinct(ps, p, fill) && ExactInputSingle(ps, l, p, swapAmount, fill).Some?
    ensures var l' := ExactInputSingle(ps, l, p, swapAmount, fill).value;
      l'.Balance(t, h) == l.Balance(t, h) +
        (if t == p.tokenIn then (if h == fill.pool then fill.pulled else if h == ps.executor then 0 - fill.pulled else 0)
         else if t == p.tokenOut then (if h == p.user then fill.paid else if h == fill.pool then 0 - fill.paid else 0)
         else 0) &&
      l'.Approved(p.tokenIn, ps.executor, ps.router) == l.Approved(p.tokenIn, ps.executor, ps.router) - fill.pulled &&
      l'.grants == l.grants && l'.spent == l.spent &&
      fill.paid >= p.minAmountOut && fill.pulled <= l.Approved(p.tokenIn, ps.executor, ps.router)
  {
    var approved := l.Approved(p.tokenIn, ps.executor, ps.router);
    var l0 := Approve(l, p.tokenIn, ps.executor, ps.router, approved - fill.pulled);
    TransferMoves(l0, p.tokenIn, ps.executor, fill.pool, fill.pulled, t, h);
    var l1 := Transfer(l0, p.tokenIn, ps.executor, fill.pool, fill.pulled).value;
    TransferMoves(l1, p.tokenOut, fill.pool, p.user, fill.paid, t, h);
  }

  lemma FeeIsMulBps(p: SwapParams)
    ensures Fee(p) == if p.feeBps > 0 then p.amountIn * p.feeBps / 10000 else 0
  {
  }

  lemma SwapMoves(ps: Parties, l: Ledger, p: SwapParams, fill: Fill, t: Address, h: Address)
    requires Distinct(ps, p, fill) && SwapAndEmit(ps, l, p, fill).Some?
    ensures var l' := SwapAndEmit(ps, l, p, fill).value;
      l'.Balance(t, h) == l.Balance(t, h) + Change(ps, p, fill, 0, t, h) &&
      l'.Approved(p.tokenIn, ps.executor, ps.router) == p.amountIn - Fee(p) - fill.pulled &&
      l'.grants == l.grants && l'.spent == l.spent && fill.paid >= p.minAmountOut && fill.pulled <= p.amountIn - Fee(p)
  {
    hide ExactInputSingle, Transfer, Fee;
    FeeIsMulBps(p);
    var l1 := if p.feeBps > 0 then Transfer(l, p.tokenIn, ps.executor, ps.feeCollector, Fee(p)).value else l;
    if p.feeBps > 0 {
      TransferMoves(l, p.tokenIn, ps.executor, ps.feeCollector, Fee(p), t, h);
    }
    var l2 := Approve(l1, p.tokenIn, ps.executor, ps.router, p.amountIn - Fee(p));
    ExactInputMoves(ps, l2, p, p.amountIn - Fee(p), fill, t, h);
  }

  /**
   Every balance after a swap that goes through, whatever its mode: the user pays what was pulled and
   gets at least the minimum, the treasury gets the fee, at most 5%, which is the fee the host is told,
   the pool the rest, the contract any difference, and nobody else is touched.
   */
  lemma SwapSettles(ps: Parties, l: Ledger, c: Call, t: Address, h: Address, cfg: Option<Fees.FeeConfig>)
    requires c.Swap? && Distinct(ps, c.params, c.fill) && Execute(ps, l, c).Some?
    ensures var l', p := Execute(ps, l, c).value, c.params;
      l'.Balance(t, h) == l.Balance(t, h) + Change(ps, p, c.fill, Received(p, c.pull), t, h) &&
      c.fill.paid >= p.minAmountOut && 0 <= 10000 * Fee(p) <= 500 * p.amountIn &&
      (p.feeBps == (if cfg.Some? then cfg.value.feeBps else 0) ==> Fee(p) == Fees.ComputeFeeResult(p.amountIn, cfg).totalFee)
  {
    var p := c.params;
    PullInMoves(ps, l, p, c.pull, t, h);
    var l1 := PullIn(ps, l, p, c.pull).value;
    SwapMoves(ps, l1, p, c.fill, t, h);
    MulBpsFloor(p.amountIn, p.feeBps);
    MulMono(p.feeBps, MAX_FEE_BPS, p.amountIn);
  }

  /** An exact-input router takes the whole input after the fee. */
  predicate ExactInput(p: SwapParams, fill: Fill) {
    fill.pulled == p.amountIn - Fee(p)
  }

  /**
   A swap leaves the contract's balances alone exactly when what the router leaves behind is what the
   160-bit cast cut off; with an exact-input router, exactly when the cast cuts nothing.
   */
  lemma ContractIsUntouchedExactlyWhen(ps: Parties, l: Ledger, c: Call)
    requires c.Swap? && Distinct(ps, c.params, c.fill) && Execute(ps, l, c).Some?
    ensures var l', p := Execute(ps, l, c).value, c.params;
      ((forall t :: l'.Balance(t, ps.executor) == l.Balance(t, ps.executor)) <==>
        c.fill.pulled == Received(p, c.pull) - Fee(p)) &&
      (ExactInput(p, c.fill) ==>
        ((forall t :: l'.Balance(t, ps.executor) == l.Balance(t, ps.executor)) <==> !c.pull.FromGrant? || p.amountIn <= MAX_UINT160))
  {
    hide PullIn, SwapAndEmit;
    var l', p := Execute(ps, l, c).value, c.params;
    forall t
      ensures l'.Balance(t, ps.executor) ==
        l.Balance(t, ps.executor) + if t == p.tokenIn then Received(p, c.pull) - Fee(p) - c.fill.pulled else 0
    {
      SwapSettles(ps, l, c, t, ps.executor, None);
    }
    assert Change(ps, p, c.fill, Received(p, c.pull), p.tokenIn, ps.executor) == Received(p, c.pull) - Fee(p) - c.fill.pulled;
    if Received(p, c.pull) - Fee(p) != c.fill.pulled {
      assert l'.Balance(p.tokenIn, ps.executor) != l.Balance(p.tokenIn, ps.executor);
    }
  }

  // ---- When a call goes through ----

  const TWO_160: int := 0x1_0000_0000_0000_0000_0000_0000_0000_0000_0000_0000

  /** What the user has granted to the contract through Permit2: nothing, long ago, unless there is a grant. */
  function GrantOf(l: Ledger, token: Address, user: Address): Grant {
    if Account(token, user) in l.grants then l.grants[Account(token, user)] else Grant(0, 0)
  }

  /** The user lets the contract have the input, and has it. */
  predicate Lets(ps: Parties, l: Ledger, p: SwapParams, pull: Pull) {
    match pull
    case FromApproval =>
      l.Approved(p.tokenIn, p.user, ps.executor) >= p.amountIn && l.Balance(p.tokenIn, p.user) >= p.amountIn
    case FromGrant(now) =>
      var grant, low := GrantOf(l, p.tokenIn, p.user), p.amountIn % TWO_160;
      now <= grant.expiration && (grant.amount == TWO_160 - 1 || low <= grant.amount) && l.Balance(p.tokenIn, p.user) >= low
    case FromSignature(nonce, valid) =>
      valid && NonceOf(p.user, nonce) !in l.spent && l.Balance(p.tokenIn, p.user) >= p.amountIn
  }

  /** The contract can pay the fee and the pool, and the pool pays the minimum. */
  predicate CanSettle(ps: Parties, l: Ledger, p: SwapParams, pull: Pull, fill: Fill) {
    var held := l.Balance(p.tokenIn, ps.executor) + if pull.FromGrant? then p.amountIn % TWO_160 else p.amountIn;
    var fee := p.amountIn * p.feeBps / 10000;
    && (p.feeBps > 0 ==> p.amountIn * p.feeBps < TWO_256 && held >= fee)
    && fill.paid >= p.minAmountOut && fill.pulled <= p.amountIn - fee && held - fee >= fill.pulled
    && l.Balance(p.tokenOut, fill.pool) >= fill.paid
  }

  /** A swap goes through exactly for a keeper, a positive amount, a fee of at most 5%, an input that is let go, and a pool that pays. */
  lemma SwapsExactlyWhen(ps: Parties, l: Ledger, c: Call)
    requires c.Swap? && Distinct(ps, c.params, c.fill)
    ensures Execute(ps, l, c).Some? <==>
      c.sender in ps.keepers && c.params.amountIn > 0 && c.params.feeBps <= 500 &&
      Lets(ps, l, c.params, c.pull) && CanSettle(ps, l, c.params, c.pull, c.fill)
  {
    var p := c.params;
    PullsExactlyWhen(ps, l, p, c.pull);
    if PullIn(ps, l, p, c.pull).Some? {
      var l1 := PullIn(ps, l, p, c.pull).value;
      PullInMoves(ps, l, p, c.pull, p.tokenIn, ps.executor);
      PullInMoves(ps, l, p, c.pull, p.tokenOut, c.fill.pool);
      SettlesExactlyWhen(ps, l1, p, c.fill);
    }
    hide PullIn, SwapAndEmit, Lets;
  }

  lemma PullsExactlyWhen(ps: Parties, l: Ledger, p: SwapParams, pull: Pull)
    requires p.user != ps.executor
    ensures PullIn(ps, l, p, pull).Some? <==> Lets(ps, l, p, pull)
  {
  }

  lemma SettlesExactlyWhen(ps: Parties, l: Ledger, p: SwapParams, fill: Fill)
    requires Distinct(ps, p, fill)
    ensures SwapAndEmit(ps, l, p, fill).Some? <==>
      var held, fee := l.Balance(p.tokenIn, ps.executor), p.amountIn * p.feeBps / 10000;
      (p.feeBps > 0 ==> p.amountIn * p.feeBps < TWO_256 && held >= fee) &&
      fill.paid >= p.minAmountOut && fill.pulled <= p.amountIn - fee && held - fee >= fill.pulled &&
      l.Balance(p.tokenOut, fill.pool) >= fill.paid
  {
    hide Transfer, ExactInputSingle, Approve, Ledger.Balance;
    var held, fee := l.Balance(p.tokenIn, ps.executor), p.amountIn * p.feeBps / 10000;
    if p.feeBps == 0 {
      ApprovedRouter(ps, l, p, p.amountIn, fill);
    } else if p.amountIn * p.feeBps < TWO_256 {
      FeeExactlyWhen(ps, l, p, fee, fill);
      if held >= fee {
        ApprovedRouter(ps, Transfer(l, p.tokenIn, ps.executor, ps.feeCollector, fee).value, p, p.amountIn - fee, fill);
      }
    }
  }

  lemma FeeExactlyWhen(ps: Parties, l: Ledger, p: SwapParams, fee: int, fill: Fill)
    requires Distinct(ps, p, fill)
    ensures var r := Transfer(l, p.tokenIn, ps.executor, ps.feeCollector, fee);
      (r.Some? <==> l.Balance(p.tokenIn, ps.executor) >= fee) &&
      (r.Some? ==> r.value.Balance(p.tokenIn, ps.executor) == l.Balance(p.tokenIn, ps.executor) - fee &&
                   r.value.Balance(p.tokenOut, fill.pool) == l.Balance(p.tokenOut, fill.pool))
  {
  }

  lemma ApprovedRouter(ps: Parties, l: Ledger, p: SwapParams, swapAmount: int, fill: Fill)
    requires Distinct(ps, p, fill)
    ensures ExactInputSingle(ps, Approve(l, p.tokenIn, ps.executor, ps.router, swapAmount), p, swapAmount, fill).Some? <==>
      fill.paid >= p.minAmountOut && fill.pulled <= swapAmount && l.Balance(p.tokenIn, ps.executor) >= fill.pulled &&
      l.Balance(p.tokenOut, fill.pool) >= fill.paid
  {
    RouterExactlyWhen(ps, Approve(l, p.tokenIn, ps.executor, ps.router, swapAmount), p, swapAmount, fill);
    hide ExactInputSingle;
  }

  lemma RouterExactlyWhen(ps: Parties, l: Ledger, p: SwapParams, swapAmount: int, fill: Fill)
    requires Distinct(ps, p, fill) && l.Approved(p.tokenIn, ps.executor, ps.router) == swapAmount
    ensures ExactInputSingle(ps, l, p, swapAmount, fill).Some? <==>
      fill.paid >= p.minAmountOut && fill.pulled <= swapAmount && l.Balance(p.tokenIn, ps.executor) >= fill.pulled &&
      l.Balance(p.tokenOut, fill.pool) >= fill.paid
  {
    var l0 := Approve(l, p.tokenIn, ps.executor, ps.router, swapAmount - fill.pulled);
    if l.Balance(p.tokenIn, ps.executor) >= fill.pulled {
      TransferMoves(l0, p.tokenIn, ps.executor, fill.pool, fill.pulled, p.tokenOut, fill.pool);
    }
  }

  /** What else a swap changes: the approval, the grant or the nonce that let the input go, and the router's approval. */
  lemma SwapUses(ps: Parties, l: Ledger, c: Call, token: Address, owner: Address, spender: Address)
    requires c.Swap? && Distinct(ps, c.params, c.fill) && Execute(ps, l, c).Some?
    ensures var l', p := Execute(ps, l, c).value, c.params;
      l'.Approved(token, owner, spender) ==
        (if token == p.tokenIn && owner == ps.executor && spender == ps.router
         then p.amountIn - p.amountIn * p.feeBps / 10000 - c.fill.pulled
         else l.Approved(token, owner, spender) -
              if c.pull.FromApproval? && token == p.tokenIn && owner == p.user && spender == ps.executor then p.amountIn else 0) &&
      l'.spent == l.spent + (if c.pull.FromSignature? then {NonceOf(p.user, c.pull.nonce)} else {}) &&
      GrantOf(l', token, owner) ==
        var was := GrantOf(l, token, owner);
        if c.pull.FromGrant? && token == p.tokenIn && owner == p.user && was.amount != TWO_160 - 1
        then Grant(was.amount - p.amountIn % TWO_160, was.expiration) else was
  {
    var p := c.params;
    var l1 := PullIn(ps, l, p, c.pull).value;
    PullInUses(ps, l, p, c.pull, token, owner, spender);
    SettlementUses(ps, l1, p, c.fill, token, owner, spender);
    hide PullIn, SwapAndEmit;
  }

  lemma PullInUses(ps: Parties, l: Ledger, p: SwapParams, pull: Pull, token: Address, owner: Address, spender: Address)
    requires p.user != ps.executor && PullIn(ps, l, p, pull).Some?
    ensures var l' := PullIn(ps, l, p, pull).value;
      l'.Approved(token, owner, spender) == l.Approved(token, owner, spender) -
        (if pull.FromApproval? && token == p.tokenIn && owner == p.user && spender == ps.executor then p.amountIn else 0) &&
      l'.spent == l.spent + (if pull.FromSignature? then {NonceOf(p.user, pull.nonce)} else {}) &&
      GrantOf(l', token, owner) ==
        var was := GrantOf(l, token, owner);
        if pull.FromGrant? && token == p.tokenIn && owner == p.user && was.amount != TWO_160 - 1
        then Grant(was.amount - p.amountIn % TWO_160, was.expiration) else was
  {
  }

  lemma SettlementUses(ps: Parties, l: Ledger, p: SwapParams, fill: Fill, token: Address, owner: Address, spender: Address)
    requires Distinct(ps, p, fill) && SwapAndEmit(ps, l, p, fill).Some?
    ensures var l' := SwapAndEmit(ps, l, p, fill).value;
      l'.Approved(token, owner, spender) ==
        (if token == p.tokenIn && owner == ps.executor && spender == ps.router
         then p.amountIn - p.amountIn * p.feeBps / 10000 - fill.pulled else l.Approved(token, owner, spender)) &&
      l'.spent == l.spent && l'.grants == l.grants
  {
    SwapKeepsGrants(ps, l, p, fill);
    if token == p.tokenIn && owner == ps.executor && spender == ps.router {
      SwapMoves(ps, l, p, fill, token, owner);
      FeeIsMulBps(p);
    }
  }

  /** A grant is replaced exactly by a keeper with a valid permit of the owner's, and by what it says. */
  lemma GrantsExactlyWhen(ps: Parties, l: Ledger, c: Call, token: Address, owner: Address)
    requires c.ActivatePermit?
    ensures var l' := Apply(ps, l, c);
      GrantOf(l', token, owner) ==
        (if c.sender in ps.keepers && c.valid && token == c.token && owner == c.user then c.grant else GrantOf(l, token, owner)) &&
      l'.balances == l.balances && l'.approvals == l.approvals && l'.spent == l.spent
  {
  }

  // ---- Sequences of calls ----

  /** Distinct parties, an exact-input router, and amounts that fit in 160 bits where they are cast to it. */
  predicate Proper(ps: Parties, c: Call) {
    c.Swap? ==>
      Distinct(ps, c.params, c.fill) && ExactInput(c.params, c.fill) &&
      (c.pull.FromGrant? ==> c.params.amountIn <= MAX_UINT160)
  }

  ghost predicate AllProper(ps: Parties, calls: seq<Call>) {
    forall i :: 0 <= i < |calls| ==> Proper(ps, calls[i])
  }

  lemma CallLeavesNothing(ps: Parties, l: Ledger, c: Call, token: Address)
    requires Proper(ps, c) && l.Approved(token, ps.executor, ps.router) == 0
    ensures var l' := Apply(ps, l, c);
      l'.Balance(token, ps.executor) == l.Balance(token, ps.executor) && l'.Approved(token, ps.executor, ps.router) == 0
  {
    hide PullIn, SwapAndEmit;
    if c.Swap? && Execute(ps, l, c).Some? {
      var p := c.params;
      SwapSettles(ps, l, c, token, ps.executor, None);
      var l1 := PullIn(ps, l, p, c.pull).value;
      SwapMoves(ps, l1, p, c.fill, token, ps.executor);
      if token != p.tokenIn {
        ApprovalsOfOthers(ps, l, c, token);
      }
    }
  }

  /** A swap touches the contract's approval of the router only for its own input token. */
  lemma ApprovalsOfOthers(ps: Parties, l: Ledger, c: Call, token: Address)
    requires c.Swap? && Distinct(ps, c.params, c.fill) && Execute(ps, l, c).Some? && token != c.params.tokenIn
    ensures Execute(ps, l, c).value.Approved(token, ps.executor, ps.router) == l.Approved(token, ps.executor, ps.router)
  {
    hide SwapAndEmit;
    OtherApprovals(ps, PullIn(ps, l, c.params, c.pull).value, c.params, c.fill, token);
  }

  lemma OtherApprovals(ps: Parties, l: Ledger, p: SwapParams, fill: Fill, token: Address)
    requires SwapAndEmit(ps, l, p, fill).Some? && token != p.tokenIn
    ensures SwapAndEmit(ps, l, p, fill).value.Approved(token, ps.executor, ps.router) == l.Approved(token, ps.executor, ps.router)
  {
  }

  /**
   Between calls the contract holds nothing of anybody's: over any sequence of proper calls, reverted or
   not, in any mix of modes, its balance of every token and its approval of the router are what they were.
   */
  lemma {:induction false} ContractKeepsNothing(ps: Parties, l: Ledger, calls: seq<Call>, token: Address)
    requires AllProper(ps, calls) && l.Approved(token, ps.executor, ps.router) == 0
    ensures var l' := Run(ps, l, calls);
      l'.Balance(token, ps.executor) == l.Balance(token, ps.executor) && l'.Approved(token, ps.executor, ps.router) == 0
  {
    if calls == [] {
    } else {
      var n := |calls| - 1;
      ContractKeepsNothing(ps, l, calls[..n], token);
      CallLeavesNothing(ps, Run(ps, l, calls[..n]), calls[n], token);
    }
  }

  lemma SpentGrows(ps: Parties, l: Ledger, c: Call)
    ensures l.spent <= Apply(ps, l, c).spent
    ensures c.Swap? && c.pull.FromSignature? && Execute(ps, l, c).Some? ==>
      NonceOf(c.params.user, c.pull.nonce) !in l.spent && NonceOf(c.params.user, c.pull.nonce) in Apply(ps, l, c).spent
  {
    hide SwapAndEmit;
    if c.Swap? && Execute(ps, l, c).Some? {
      SwapKeepsGrants(ps, PullIn(ps, l, c.params, c.pull).value, c.params, c.fill);
    }
  }

  /** A signature is single-use: after a swap that went through, no later call can use its nonce again. */
  lemma {:induction false} SignatureIsNotReplayed(ps: Parties, l: Ledger, c: Call, calls: seq<Call>, again: Call)
    requires c.Swap? && c.pull.FromSignature? && Execute(ps, l, c).Some?
    requires again.Swap? && again.pull.FromSignature? && again.params.user == c.params.user && again.pull.nonce == c.pull.nonce
    ensures NonceOf(c.params.user, c.pull.nonce) in Run(ps, Apply(ps, l, c), calls).spent
    ensures Execute(ps, Run(ps, Apply(ps, l, c), calls), again).None?
  {
    if calls == [] {
      SpentGrows(ps, l, c);
    } else {
      var n := |calls| - 1;
      SignatureIsNotReplayed(ps, l, c, calls[..n], again);
      SpentGrows(ps, Run(ps, Apply(ps, l, c), calls[..n]), calls[n]);
    }
    SpentGrows(ps, Run(ps, Apply(ps, l, c), calls), again);
  }

  // ---- Permit2 grants over a sequence of calls ----

  predicate DrawsOn(c: Call, user: Address, token: Address) {
    c.Swap? && c.pull.FromGrant? && c.params.user == user && c.params.tokenIn == token
  }

  /** The amounts that swaps which went through drew on a grant, in order. */
  function Draws(ps: Parties, l: Ledger, calls: seq<Call>, user: Address, token: Address): seq<int> {
    if calls == [] then []
    else
      var n := |calls| - 1;
      var r, l1 := Draws(ps, l, calls[..n], user, token), Run(ps, l, calls[..n]);
      if DrawsOn(calls[n], user, token) && Execute(ps, l1, calls[n]).Some? then r + [calls[n].params.amountIn] else r
  }

  predicate Regrants(c: Call, user: Address, token: Address) {
    c.ActivatePermit? && c.user == user && c.token == token
  }

  lemma CallDraws(ps: Parties, l: Ledger, c: Call, user: Address, token: Address)
    requires !Regrants(c, user, token) && Account(token, user) in l.grants
    ensures var key, l' := Account(token, user), Apply(ps, l, c);
      key in l'.grants &&
      if DrawsOn(c, user, token) && Execute(ps, l, c).Some?
      then Debited(l.grants[key].amount, Uint160(c.params.amountIn)) == Some(l'.grants[key].amount)
      else l'.grants[key] == l.grants[key]
  {
    hide SwapAndEmit;
    if c.Swap? && Execute(ps, l, c).Some? {
      SwapKeepsGrants(ps, PullIn(ps, l, c.params, c.pull).value, c.params, c.fill);
    }
  }

  lemma SwapKeepsGrants(ps: Parties, l: Ledger, p: SwapParams, fill: Fill)
    requires SwapAndEmit(ps, l, p, fill).Some?
    ensures SwapAndEmit(ps, l, p, fill).value.grants == l.grants && SwapAndEmit(ps, l, p, fill).value.spent == l.spent
  {
  }

  /** Until it is granted again, a grant is what was granted less what swaps drew on it, whatever else is called. */
  lemma {:induction false} GrantFollowsDraws(ps: Parties, l: Ledger, calls: seq<Call>, user: Address, token: Address)
    requires Account(token, user) in l.grants
    requires forall i :: 0 <= i < |calls| ==> !Regrants(calls[i], user, token)
    ensures var key, l' := Account(token, user), Run(ps, l, calls);
      key in l'.grants && AllowanceAfter(l.grants[key].amount, Draws(ps, l, calls, user, token)) == Some(l'.grants[key].amount)
  {
    if calls == [] {
    } else {
      var n := |calls| - 1;
      GrantFollowsDraws(ps, l, calls[..n], user, token);
      var l1 := Run(ps, l, calls[..n]);
      CallDraws(ps, l1, calls[n], user, token);
      var r := Draws(ps, l, calls[..n], user, token);
      if DrawsOn(calls[n], user, token) {
        assert (r + [calls[n].params.amountIn])[..|r|] == r;
      }
    }
  }

  /**
   Holding nothing itself, the contract settles a swap by grant only if the grant pays the whole amount: one
   that the 160-bit cast has cut cannot be paid for out of what was pulled.
   */
  lemma SettlesOnlyWhatIsPaid(ps: Parties, l: Ledger, c: Call)
    requires c.Swap? && c.pull.FromGrant? && Distinct(ps, c.params, c.fill) && ExactInput(c.params, c.fill)
    requires l.Balance(c.params.tokenIn, ps.executor) == 0 && Execute(ps, l, c).Some?
    ensures var key := Account(c.params.tokenIn, c.params.user);
      Paid(if key in l.grants then l.grants[key].amount else 0, c.params.amountIn)
  {
    var p := c.params;
    var l1 := PullIn(ps, l, p, c.pull).value;
    PullInMoves(ps, l, p, c.pull, p.tokenIn, ps.executor);
    assert l1.Balance(p.tokenIn, ps.executor) == Uint160(p.amountIn);
    NeedsAll(ps, l1, p, c.fill);
  }

  lemma NeedsAll(ps: Parties, l: Ledger, p: SwapParams, fill: Fill)
    requires Distinct(ps, p, fill) && ExactInput(p, fill) && SwapAndEmit(ps, l, p, fill).Some?
    ensures p.amountIn <= l.Balance(p.tokenIn, ps.executor)
  {
    FeeIsMulBps(p);
    if p.feeBps > 0 {
      TransferMoves(l, p.tokenIn, ps.executor, ps.feeCollector, Fee(p), p.tokenIn, ps.executor);
    }
    hide MulBps;
  }

  // ---- The contract ----

  class Contract {
    const ps: Parties
    var ledger: Ledger

    constructor (ps: Parties, ledger: Ledger)
      ensures this.ps == ps && this.ledger == ledger
    {
      this.ps, this.ledger := ps, ledger;
    }

    predicate Refuses(sender: Address, p: SwapParams)
      reads this
    {
      sender !in ps.keepers || p.amountIn == 0 || p.feeBps > MAX_FEE_BPS
    }

    /** By direct approval. A call that reverts returns nothing and writes nothing. */
    method ExecuteSwap(sender: Address, p: SwapParams, fill: Fill) returns (amountOut: Option<nat>)
      modifies this
      ensures ledger == Apply(ps, old(ledger), Swap(sender, p, FromApproval, fill))
      ensures amountOut == if Execute(ps, old(ledger), Swap(sender, p, FromApproval, fill)).Some?
                           then Some(fill.paid) else None
    {
      hide SwapAndEmit, Transfer, Uint160;
      if Refuses(sender, p) {
        return None;
      }
      var pulled := TransferFrom(ledger, p.tokenIn, ps.executor, p.user, ps.executor, p.amountIn);
      if pulled.None? {
        return None;
      }
      amountOut := Settle(pulled.value, p, fill);
    }

    /** By a Permit2 grant: only the low 160 bits of the amount are pulled. */
    method ExecuteSwapViaPermit2(sender: Address, p: SwapParams, fill: Fill, now: int) returns (amountOut: Option<nat>)
      modifies this
      ensures ledger == Apply(ps, old(ledger), Swap(sender, p, FromGrant(now), fill))
      ensures amountOut == if Execute(ps, old(ledger), Swap(sender, p, FromGrant(now), fill)).Some?
                           then Some(fill.paid) else None
    {
      hide SwapAndEmit, Transfer, Uint160;
      if Refuses(sender, p) {
        return None;
      }
      var l := ledger;
      var key, amount := Account(p.tokenIn, p.user), Uint160(p.amountIn);
      var grant := if key in l.grants then l.grants[key] else Grant(0, 0);
      if now > grant.expiration {
        return None;
      }
      if grant.amount != MAX_UINT160 {
        if amount > grant.amount {
          return None;
        }
        grant := grant.(amount := grant.amount - amount);
      }
      l := l.(grants := l.grants[key := grant]);
      var pulled := Transfer(l, p.tokenIn, p.user, ps.executor, amount);
      if pulled.None? {
        return None;
      }
      amountOut := Settle(pulled.value, p, fill);
    }

    /** By a single-use signature, whose nonce is spent with the pull. */
    method ExecuteSwapWithSignature(sender: Address, p: SwapParams, fill: Fill, nonce: int, valid: bool)
      returns (amountOut: Option<nat>)
      modifies this
      ensures ledger == Apply(ps, old(ledger), Swap(sender, p, FromSignature(nonce, valid), fill))
      ensures amountOut == if Execute(ps, old(ledger), Swap(sender, p, FromSignature(nonce, valid), fill)).Some?
                           then Some(fill.paid) else None
    {
      hide SwapAndEmit, Transfer, Uint160;
      if Refuses(sender, p) || !valid || NonceOf(p.user, nonce) in ledger.spent {
        return None;
      }
      var l := ledger.(spent := ledger.spent + {NonceOf(p.user, nonce)});
      var pulled := Transfer(l, p.tokenIn, p.user, ps.executor, p.amountIn);
      if pulled.None? {
        return None;
      }
      amountOut := Settle(pulled.value, p, fill);
    }

    /** The fee, the approval and the swap, on the ledger as pulled so far; commits it if none reverts. */
    method Settle(pulled: Ledger, p: SwapParams, fill: Fill) returns (amountOut: Option<nat>)
      modifies this
      ensures var r := SwapAndEmit(ps, pulled, p, fill);
        if r.Some? then amountOut == Some(fill.paid) && ledger == r.value else amountOut == None && ledger == old(ledger)
    {
      hide Transfer, ExactInputSingle;
      var l, swapAmount := pulled, p.amountIn;
      if p.feeBps > 0 {
        if p.amountIn * p.feeBps >= TWO_256 {
          return None;
        }
        var feeAmount := p.amountIn * p.feeBps / 10000;
        swapAmount := p.amountIn - feeAmount;
        var paidFee := Transfer(l, p.tokenIn, ps.executor, ps.feeCollector, feeAmount);
        if paidFee.None? {
          return None;
        }
        l := paidFee.value;
      }
      l := Approve(l, p.tokenIn, ps.executor, ps.router, swapAmount);
      var swapped := ExactInputSingle(ps, l, p, swapAmount, fill);
      if swapped.None? {
        return None;
      }
      ledger := swapped.value;
      return Some(fill.paid);
    }

    method ActivatePermit(sender: Address, user: Address, token: Address, grant: Grant, valid: bool) returns (ok: bool)
      modifies this
      ensures ledger == Apply(ps, old(ledger), Call.ActivatePermit(sender, user, token, grant, valid))
      ensures ok <==> sender in ps.keepers && valid
    {
      ok := sender in ps.keepers && valid;
      if ok {
        ledger := ledger.(grants := ledger.grants[Account(token, user) := grant]);
      }
    }
  }
}
