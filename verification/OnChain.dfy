/** The allowances that the manager's steps leave behind are those of the contract's ledger. */
module OnChain {
  import opened Types
  import opened TriggerIndex
  import opened Amounts
  import opened Lifecycle
  import opened SwapOnce
  import opened Accounting
  import opened Permit2
  import opened Solvency
  import opened Insolvency
  import SwapExecutor
  import Minimum

  /** The step draws on the allowance. */
  predicate DrawsIn(cfg: Config, st: State, op: Op, k: Grantee) {
    && op.Execute? && op.event in st.inflight && OutcomeOf(cfg, st, op.event, op.env).Swaps()
    && st.store[op.event.pos].permit.signed && st.store[op.event.pos].DrawsOn() == k
  }

  /** The step replaces it. */
  predicate ReplacesIn(cfg: Config, st: State, op: Op, k: Grantee) {
    op.Execute? && op.event in st.inflight && TakesEffect(cfg, st, op.event, op.env) && st.store[op.event.pos].Grants() == k
  }

  function DrawnIn(cfg: Config, st: State, op: Op, k: Grantee): seq<int> {
    if DrawsIn(cfg, st, op, k) then [AmountIn(st.store[op.event.pos], op.event.level)] else []
  }

  /** The amounts drawn on an allowance from one state of a run to another, in order. */
  function Drawn(cfg: Config, trace: seq<State>, ops: seq<Op>, m: nat, n: nat, k: Grantee): seq<int>
    requires m <= n <= |ops| < |trace|
  {
    if m == n then []
    else
      Drawn(cfg, trace, ops, m, n - 1, k) + DrawnIn(cfg, trace[n - 1], ops[n - 1], k)
  }

  lemma OtherStepsKeepGrants(cfg: Config, st: State, op: Op)
    requires !op.Execute?
    ensures Step(cfg, st, op).grants == st.grants
  {
    hide RestartStep, Register, RegisterAll, Remove, UpdateTriggerPrice, SetStatus;
    if op.Restart? {
      RestartKeepsRest(st, op.ids);
    }
  }

  /** The allowances after the activation and the swap of an execution, if any. */
  function GrantsAfter(cfg: Config, st: State, ev: Event, env: Env): map<Grantee, int> {
    var grants := GrantsAt(cfg, st, ev, env);
    if OutcomeOf(cfg, st, ev, env).Swaps() then Debit(grants, st.store[ev.pos], ev.level) else grants
  }

  lemma ExecuteGrants(cfg: Config, st: State, ev: Event, env: Env)
    requires StoreOk(cfg, st)
    ensures ExecuteStep(cfg, st, ev, env).grants == if ev in st.inflight then GrantsAfter(cfg, st, ev, env) else st.grants
  {
    var out := OutcomeOf(cfg, st, ev, env);
    if ev !in st.inflight || out == Skipped || out == Panicked {
      QuietState(cfg, st, ev, env);
      hide ExecuteStep;
    } else {
      assert WellFormed(cfg, ev.pos, st.store[ev.pos]);
      if out == Requeued {
        RequeuedState(cfg, st, ev, env);
      } else if out == Recorded {
        SameDebit(cfg, st, ev, env);
        RecordedState(cfg, st, ev, env);
      } else if out != Suspended {
        SameDebit(cfg, st, ev, env);
        UnstoredState(cfg, st, ev, env);
      }
    }
    hide Debit, Covers, Fired, FiredIndex, SwapOf, StoreOk;
  }

  lemma SameDebit(cfg: Config, st: State, ev: Event, env: Env)
    requires ev.pos in st.store && OutcomeOf(cfg, st, ev, env).Swaps()
    ensures var p, grants, q := st.store[ev.pos], GrantsAt(cfg, st, ev, env), AtSwap(cfg, st, ev, env);
      ev.level < |p.levels| == |q.levels| && Covers(grants, p, ev.level) && Covers(grants, q, ev.level) &&
      Debit(grants, q, ev.level) == Debit(grants, p, ev.level)
  {
    hide MulBps;
  }

  /** One allowance after another, with at most one debit between them. */
  predicate Follows(before: int, drawn: seq<int>, after: int) {
    |drawn| <= 1 && if drawn == [] then after == before else Debited(before, Uint160(drawn[0])) == Some(after)
  }

  lemma FollowsOn(allowance: int, amounts: seq<int>, before: int, drawn: seq<int>, after: int)
    requires AllowanceAfter(allowance, amounts) == Some(before) && Follows(before, drawn, after)
    ensures AllowanceAfter(allowance, amounts + drawn) == Some(after)
  {
    if drawn == [] {
      assert amounts + drawn == amounts;
    } else {
      assert (amounts + drawn)[..|amounts|] == amounts;
    }
  }

  lemma StepDraws(cfg: Config, st: State, op: Op, k: Grantee)
    requires Accounts(cfg, st) && !ReplacesIn(cfg, st, op, k)
    ensures Follows(Allowance(st.grants, k), DrawnIn(cfg, st, op, k), Allowance(Step(cfg, st, op).grants, k))
  {
    if op.Execute? {
      StepExecutes(cfg, st, op.event, op.env);
      ExecuteGrants(cfg, st, op.event, op.env);
      if op.event in st.inflight {
        ExecuteDraws(cfg, st, op, k);
      }
      hide Step, ExecuteStep, GrantsAt, Debit, Allowance;
    } else {
      OtherStepsKeepGrants(cfg, st, op);
    }
  }

  lemma ExecuteDraws(cfg: Config, st: State, op: Op, k: Grantee)
    requires Accounts(cfg, st) && op.Execute? && !ReplacesIn(cfg, st, op, k) && op.event in st.inflight
    ensures Follows(Allowance(st.grants, k), DrawnIn(cfg, st, op, k), Allowance(GrantsAfter(cfg, st, op.event, op.env), k))
  {
    var ev, env := op.event, op.env;
    UnreplacedGrant(cfg, st, ev, env, k);
    if OutcomeOf(cfg, st, ev, env).Swaps() {
      SwapsOne(cfg, st, ev, env);
      DebitFollows(GrantsAt(cfg, st, ev, env), st.store[ev.pos], ev.level, k);
    }
    hide OutcomeOf, GrantsAt, Debit, AtSwap, Covers, AmountIn, Accounts, Allowance;
  }

  lemma UnreplacedGrant(cfg: Config, st: State, ev: Event, env: Env, k: Grantee)
    requires !(TakesEffect(cfg, st, ev, env) && st.store[ev.pos].Grants() == k)
    ensures Allowance(GrantsAt(cfg, st, ev, env), k) == Allowance(st.grants, k)
  {
  }

  lemma DebitFollows(grants: map<Grantee, int>, p: Position, i: nat, k: Grantee)
    requires i < |p.levels| && Covers(grants, p, i) && AmountIn(p, i) >= 0
    ensures Follows(Allowance(grants, k), if p.permit.signed && p.DrawsOn() == k then [AmountIn(p, i)] else [],
                    Allowance(Debit(grants, p, i), k))
  {
    hide MulBps;
  }

  /** Between two activations an allowance is what it was less what the logged swaps drew, in every run. */
  lemma {:induction false} AllowanceFollowsSwaps(cfg: Config, trace: seq<State>, ops: seq<Op>, m: nat, n: nat, k: Grantee)
    requires IsRun(cfg, trace, ops, RegularIn(cfg)) && trace[0] == EMPTY && m <= n <= |ops|
    requires forall i :: m <= i < n ==> !ReplacesIn(cfg, trace[i], ops[i], k)
    ensures AllowanceAfter(Allowance(trace[m].grants, k), Drawn(cfg, trace, ops, m, n, k)) == Some(Allowance(trace[n].grants, k))
  {
    hide Step, ReplacesIn, DrawnIn, Allowance, AllowanceAfter, Follows, Regular;
    if m < n {
      AllowanceFollowsSwaps(cfg, trace, ops, m, n - 1, k);
      NothingAccounts(cfg);
      AccountsFrom(cfg, trace, ops, n - 1);
      StepDraws(cfg, trace[n - 1], ops[n - 1], k);
      FollowsOn(Allowance(trace[m].grants, k), Drawn(cfg, trace, ops, m, n - 1, k), Allowance(trace[n - 1].grants, k),
                DrawnIn(cfg, trace[n - 1], ops[n - 1], k), Allowance(trace[n].grants, k));
    } else {
      NothingDrawn(Allowance(trace[m].grants, k));
    }
  }

  lemma NothingAccounts(cfg: Config)
    ensures Accounts(cfg, EMPTY)
  {
  }

  lemma {:induction false} AccountsFrom(cfg: Config, trace: seq<State>, ops: seq<Op>, n: nat)
    requires IsRun(cfg, trace, ops, RegularIn(cfg)) && n <= |ops| && Accounts(cfg, trace[0])
    ensures Accounts(cfg, trace[n])
  {
    hide Step;
    if n > 0 {
      AccountsFrom(cfg, trace, ops, n - 1);
      StepKeepsAccounts(cfg, trace[n - 1], ops[n - 1]);
    }
  }

  lemma NothingDrawn(allowance: int)
    ensures AllowanceAfter(allowance, []) == Some(allowance)
  {
  }

  // ---- The run's calls ----

  /** A big.Int as a uint256 argument. */
  function Word(x: int): nat {
    x % SwapExecutor.TWO_256
  }

  /** What a step meets on the chain: calls of others that come first, the fee it is told, and what the pool does. */
  datatype Answer = Answer(others: seq<SwapExecutor.Call>, feeBps: uint16, fill: SwapExecutor.Fill)

  function ActivationCall(keeper: Address, p: Position): SwapExecutor.Call
    requires p.permit.amount.Some?
  {
    SwapExecutor.ActivatePermit(keeper, p.owner, p.permit.token,
                                SwapExecutor.Grant(p.permit.amount.value, Uint64(p.permit.deadline)), true)
  }

  function SwapCall(cfg: Config, keeper: Address, p: Position, i: nat, now: int, answer: Answer): SwapExecutor.Call
    requires i < |p.levels| && p.chain in cfg
  {
    var s := SwapOf(cfg, p, i);
    SwapExecutor.Swap(keeper,
                      SwapExecutor.SwapParams(p.owner, s.tokenIn, s.tokenOut, Word(s.amountIn), Word(s.minAmountOut), answer.feeBps),
                      if p.permit.signed then SwapExecutor.FromGrant(now) else SwapExecutor.FromApproval, answer.fill)
  }

  /** The transactions of one step that take effect on a chain, in order. */
  function CallsOf(cfg: Config, keeper: Address, st: State, op: Op, chain: ChainId, answer: Answer): seq<SwapExecutor.Call> {
    if !op.Execute? || op.event !in st.inflight || op.event.pos !in st.store || st.store[op.event.pos].chain != chain then []
    else
      var p := st.store[op.event.pos];
      (if TakesEffect(cfg, st, op.event, op.env) then [ActivationCall(keeper, p)] else []) +
      (if OutcomeOf(cfg, st, op.event, op.env).Swaps() then [SwapCall(cfg, keeper, p, op.event.level, op.env.now, answer)] else [])
  }

  /** The chain's ledger before step `n`. */
  function LedgerAt(ps: SwapExecutor.Parties, l: SwapExecutor.Ledger, cfg: Config, keeper: Address,
                    trace: seq<State>, ops: seq<Op>, answers: seq<Answer>, chain: ChainId, n: nat): SwapExecutor.Ledger
    requires n <= |ops| == |answers| < |trace|
  {
    if n == 0 then l
    else
      var l1 := SwapExecutor.Run(ps, LedgerAt(ps, l, cfg, keeper, trace, ops, answers, chain, n - 1), answers[n - 1].others);
      SwapExecutor.Run(ps, l1, CallsOf(cfg, keeper, trace[n - 1], ops[n - 1], chain, answers[n - 1]))
  }

  /** None of the calls reverts. */
  predicate GoThrough(ps: SwapExecutor.Parties, l: SwapExecutor.Ledger, calls: seq<SwapExecutor.Call>) {
    calls == [] ||
    (GoThrough(ps, l, calls[..|calls| - 1]) &&
     SwapExecutor.Execute(ps, SwapExecutor.Run(ps, l, calls[..|calls| - 1]), calls[|calls| - 1]).Some?)
  }

  predicate Touches(c: SwapExecutor.Call, k: Grantee) {
    SwapExecutor.Regrants(c, k.owner, k.token) || SwapExecutor.DrawsOn(c, k.owner, k.token)
  }

  /** What the run takes to have happened on the chain did, and nobody else touched the allowance. */
  ghost predicate Truthful(ps: SwapExecutor.Parties, l: SwapExecutor.Ledger, cfg: Config, keeper: Address,
                           trace: seq<State>, ops: seq<Op>, answers: seq<Answer>, k: Grantee)
    requires |ops| == |answers| < |trace|
  {
    forall i :: 0 <= i < |ops| ==>
      var l1 := SwapExecutor.Run(ps, LedgerAt(ps, l, cfg, keeper, trace, ops, answers, k.chain, i), answers[i].others);
      GoThrough(ps, l1, CallsOf(cfg, keeper, trace[i], ops[i], k.chain, answers[i])) &&
      forall j :: 0 <= j < |answers[i].others| ==> !Touches(answers[i].others[j], k)
  }

  function GrantOn(l: SwapExecutor.Ledger, k: Grantee): int {
    var key := SwapExecutor.Account(k.token, k.owner);
    if key in l.grants then l.grants[key].amount else 0
  }

  lemma CallGrants(ps: SwapExecutor.Parties, l: SwapExecutor.Ledger, c: SwapExecutor.Call, k: Grantee)
    ensures var l' := SwapExecutor.Apply(ps, l, c);
      if SwapExecutor.Execute(ps, l, c).None? then l' == l
      else if SwapExecutor.Regrants(c, k.owner, k.token) then GrantOn(l', k) == c.grant.amount
      else if SwapExecutor.DrawsOn(c, k.owner, k.token) then Debited(GrantOn(l, k), Uint160(c.params.amountIn)) == Some(GrantOn(l', k))
      else GrantOn(l', k) == GrantOn(l, k)
  {
    hide SwapExecutor.SwapAndEmit;
    if c.Swap? && SwapExecutor.Execute(ps, l, c).Some? {
      SwapExecutor.SwapKeepsGrants(ps, SwapExecutor.PullIn(ps, l, c.params, c.pull).value, c.params, c.fill);
    }
  }

  lemma {:induction false} OthersKeepGrant(ps: SwapExecutor.Parties, l: SwapExecutor.Ledger, calls: seq<SwapExecutor.Call>, k: Grantee)
    requires forall j :: 0 <= j < |calls| ==> !Touches(calls[j], k)
    ensures GrantOn(SwapExecutor.Run(ps, l, calls), k) == GrantOn(l, k)
  {
    if calls != [] {
      var n := |calls| - 1;
      OthersKeepGrant(ps, l, calls[..n], k);
      CallGrants(ps, SwapExecutor.Run(ps, l, calls[..n]), calls[n], k);
    }
  }

  lemma ActivationAgrees(ps: SwapExecutor.Parties, l: SwapExecutor.Ledger, keeper: Address, p: Position, grants: map<Grantee, int>, k: Grantee)
    requires p.permit.amount.Some? && p.chain == k.chain && GrantOn(l, k) == Allowance(grants, k)
    requires SwapExecutor.Execute(ps, l, ActivationCall(keeper, p)).Some?
    ensures GrantOn(SwapExecutor.Apply(ps, l, ActivationCall(keeper, p)), k) == Allowance(grants[p.Grants() := p.permit.amount.value], k)
  {
    CallGrants(ps, l, ActivationCall(keeper, p), k);
    hide SwapExecutor.Execute, SwapExecutor.Apply;
  }

  lemma SwapAgrees(ps: SwapExecutor.Parties, l: SwapExecutor.Ledger, cfg: Config, keeper: Address, p: Position, i: nat, now: int,
                   answer: Answer, grants: map<Grantee, int>, k: Grantee)
    requires i < |p.levels| && p.chain in cfg && p.chain == k.chain && AmountIn(p, i) >= 0
    requires Covers(grants, p, i) && GrantOn(l, k) == Allowance(grants, k)
    requires SwapExecutor.Execute(ps, l, SwapCall(cfg, keeper, p, i, now, answer)).Some?
    ensures GrantOn(SwapExecutor.Apply(ps, l, SwapCall(cfg, keeper, p, i, now, answer)), k) == Allowance(Debit(grants, p, i), k)
  {
    hide SwapExecutor.Execute, SwapExecutor.Apply, MulBps, GrantOn, Word, Uint160, Prices.MinAmountOut;
    CallGrants(ps, l, SwapCall(cfg, keeper, p, i, now, answer), k);
    if p.permit.signed {
      WordKeeps(AmountIn(p, i));
    }
  }

  lemma WordKeeps(x: int)
    requires 0 <= x <= MAX_UINT160
    ensures Uint160(Word(x)) == x == Uint160(x)
  {
  }

  lemma RunSnoc(ps: SwapExecutor.Parties, l: SwapExecutor.Ledger, calls: seq<SwapExecutor.Call>, c: SwapExecutor.Call)
    ensures SwapExecutor.Run(ps, l, calls + [c]) == SwapExecutor.Apply(ps, SwapExecutor.Run(ps, l, calls), c)
    ensures GoThrough(ps, l, calls + [c]) <==>
      GoThrough(ps, l, calls) && SwapExecutor.Execute(ps, SwapExecutor.Run(ps, l, calls), c).Some?
  {
    hide SwapExecutor.Execute, SwapExecutor.Apply;
    assert (calls + [c])[..|calls|] == calls;
  }

  function Activations(cfg: Config, keeper: Address, st: State, ev: Event, env: Env): seq<SwapExecutor.Call> {
    if TakesEffect(cfg, st, ev, env) then [] + [ActivationCall(keeper, st.store[ev.pos])] else []
  }

  lemma ActivationsAgree(ps: SwapExecutor.Parties, l: SwapExecutor.Ledger, cfg: Config, keeper: Address, st: State, ev: Event, env: Env,
                         k: Grantee)
    requires ev.pos in st.store && st.store[ev.pos].chain == k.chain && GrantOn(l, k) == Allowance(st.grants, k)
    requires GoThrough(ps, l, Activations(cfg, keeper, st, ev, env))
    ensures GrantOn(SwapExecutor.Run(ps, l, Activations(cfg, keeper, st, ev, env)), k) == Allowance(GrantsAt(cfg, st, ev, env), k)
  {
    hide SwapExecutor.Execute, SwapExecutor.Apply, GrantOn, Allowance, SendsActivation;
    if TakesEffect(cfg, st, ev, env) {
      SendsAmount(cfg, st, ev, env);
      RunSnoc(ps, l, [], ActivationCall(keeper, st.store[ev.pos]));
      ActivationAgrees(ps, l, keeper, st.store[ev.pos], st.grants, k);
    }
  }

  lemma SendsAmount(cfg: Config, st: State, ev: Event, env: Env)
    requires SendsActivation(cfg, st, ev, env)
    ensures ev.pos in st.store && st.store[ev.pos].permit.amount.Some?
  {
  }

  /** What the allowance is after the two calls of an execution. */
  lemma CallsAgree(ps: SwapExecutor.Parties, l: SwapExecutor.Ledger, cfg: Config, keeper: Address, st: State, ev: Event, env: Env,
                   answer: Answer, k: Grantee)
    requires Accounts(cfg, st) && ev in st.inflight && ev.pos in st.store && st.store[ev.pos].chain == k.chain
    requires GrantOn(l, k) == Allowance(st.grants, k) && GoThrough(ps, l, CallsOf(cfg, keeper, st, Execute(ev, env), k.chain, answer))
    ensures GrantOn(SwapExecutor.Run(ps, l, CallsOf(cfg, keeper, st, Execute(ev, env), k.chain, answer)), k) ==
      Allowance(GrantsAfter(cfg, st, ev, env), k)
  {
    hide GrantsAt, Debit, Covers, GrantOn, Allowance, AmountIn, Accounts, SwapExecutor.Execute, SwapExecutor.Apply;
    var p, first := st.store[ev.pos], Activations(cfg, keeper, st, ev, env);
    CallsAre(cfg, keeper, st, ev, env, k.chain, answer);
    if OutcomeOf(cfg, st, ev, env).Swaps() {
      SwapsOne(cfg, st, ev, env);
      hide CallsOf, SwapCall, Activations, OutcomeOf, GoThrough;
      RunSnoc(ps, l, first, SwapCall(cfg, keeper, p, ev.level, env.now, answer));
      ActivationsAgree(ps, l, cfg, keeper, st, ev, env, k);
      SwapAgrees(ps, SwapExecutor.Run(ps, l, first), cfg, keeper, p, ev.level, env.now, answer, GrantsAt(cfg, st, ev, env), k);
    } else {
      hide CallsOf, Activations, OutcomeOf, GoThrough;
      ActivationsAgree(ps, l, cfg, keeper, st, ev, env, k);
    }
  }

  lemma CallsAre(cfg: Config, keeper: Address, st: State, ev: Event, env: Env, chain: ChainId, answer: Answer)
    requires ev in st.inflight && ev.pos in st.store && st.store[ev.pos].chain == chain
    ensures var p, first := st.store[ev.pos], Activations(cfg, keeper, st, ev, env);
      var calls := CallsOf(cfg, keeper, st, Execute(ev, env), chain, answer);
      if OutcomeOf(cfg, st, ev, env).Swaps()
      then ev.level < |p.levels| && p.chain in cfg && calls == first + [SwapCall(cfg, keeper, p, ev.level, env.now, answer)]
      else calls == first
  {
    hide SwapCall, ActivationCall, Activates, Covers, GrantsAt, SendsActivation;
    if TakesEffect(cfg, st, ev, env) { SendsAmount(cfg, st, ev, env); }
  }

  lemma SwapsOne(cfg: Config, st: State, ev: Event, env: Env)
    requires Accounts(cfg, st) && ev.pos in st.store && OutcomeOf(cfg, st, ev, env).Swaps()
    ensures var p := st.store[ev.pos];
      ev.level < |p.levels| && p.chain in cfg && AmountIn(p, ev.level) >= 0 && Covers(GrantsAt(cfg, st, ev, env), p, ev.level)
  {
    AccountsAreSized(cfg, st);
    MulBpsWithin(st.store[ev.pos].remainingSize, st.store[ev.pos].levels[ev.level].portionBps);
    hide MulBps;
  }

  /** A step changes the allowance as its calls do. */
  lemma StepAgrees(ps: SwapExecutor.Parties, l: SwapExecutor.Ledger, cfg: Config, keeper: Address, st: State, op: Op,
                   answer: Answer, k: Grantee)
    requires Accounts(cfg, st) && GrantOn(l, k) == Allowance(st.grants, k)
    requires GoThrough(ps, l, CallsOf(cfg, keeper, st, op, k.chain, answer))
    ensures GrantOn(SwapExecutor.Run(ps, l, CallsOf(cfg, keeper, st, op, k.chain, answer)), k) == Allowance(Step(cfg, st, op).grants, k)
  {
    if !op.Execute? {
      hide Step, GrantOn, Allowance, GoThrough;
      OtherStepsKeepGrants(cfg, st, op);
    } else {
      StepExecutes(cfg, st, op.event, op.env);
      hide Step;
      ExecutionAgrees(ps, l, cfg, keeper, st, op.event, op.env, answer, k);
    }
  }

  lemma ExecutionAgrees(ps: SwapExecutor.Parties, l: SwapExecutor.Ledger, cfg: Config, keeper: Address, st: State, ev: Event, env: Env,
                        answer: Answer, k: Grantee)
    requires Accounts(cfg, st) && GrantOn(l, k) == Allowance(st.grants, k)
    requires GoThrough(ps, l, CallsOf(cfg, keeper, st, Execute(ev, env), k.chain, answer))
    ensures GrantOn(SwapExecutor.Run(ps, l, CallsOf(cfg, keeper, st, Execute(ev, env), k.chain, answer)), k) ==
      Allowance(ExecuteStep(cfg, st, ev, env).grants, k)
  {
    hide GoThrough, GrantOn, Allowance, GrantsAfter, ExecuteStep, TakesEffect, SwapCall, ActivationCall, OutcomeOf;
    ExecuteGrants(cfg, st, ev, env);
    if ev in st.inflight {
      if ev.pos in st.store && st.store[ev.pos].chain == k.chain {
        hide CallsOf;
        CallsAgree(ps, l, cfg, keeper, st, ev, env, answer, k);
      } else {
        OtherChain(cfg, st, ev, env, k);
      }
    }
  }

  lemma OtherChain(cfg: Config, st: State, ev: Event, env: Env, k: Grantee)
    requires ev.pos !in st.store || st.store[ev.pos].chain != k.chain
    ensures Allowance(GrantsAfter(cfg, st, ev, env), k) == Allowance(st.grants, k)
  {
    hide MulBps;
  }

  /**
   The same allowance, on chain, over a whole run, activations included: if a grant starts at what the manager
   has for it, what the run takes to have happened on the chain did, and nobody else touches the grant, then
   the calls that the run makes leave it at the manager's allowance in every state.
   */
  lemma {:induction false} ChainFollowsRun(ps: SwapExecutor.Parties, l: SwapExecutor.Ledger, cfg: Config, keeper: Address,
                                           trace: seq<State>, ops: seq<Op>, answers: seq<Answer>, k: Grantee, n: nat)
    requires IsRun(cfg, trace, ops, RegularIn(cfg)) && Accounts(cfg, trace[0]) && |answers| == |ops| && n <= |ops|
    requires Truthful(ps, l, cfg, keeper, trace, ops, answers, k) && GrantOn(l, k) == Allowance(trace[0].grants, k)
    ensures GrantOn(LedgerAt(ps, l, cfg, keeper, trace, ops, answers, k.chain, n), k) == Allowance(trace[n].grants, k)
  {
    hide Step, CallsOf, GoThrough, GrantOn, Allowance, Regular, Touches, Accounts, SwapExecutor.Run, Truthful, LedgerAt;
    if n == 0 {
      LedgerStarts(ps, l, cfg, keeper, trace, ops, answers, k.chain);
    } else {
      ChainFollowsRun(ps, l, cfg, keeper, trace, ops, answers, k, n - 1);
      var l1 := Met(ps, l, cfg, keeper, trace, ops, answers, k, n - 1);
      AccountsFrom(cfg, trace, ops, n - 1);
      StepAgrees(ps, l1, cfg, keeper, trace[n - 1], ops[n - 1], answers[n - 1], k);
    }
  }

  lemma LedgerStarts(ps: SwapExecutor.Parties, l: SwapExecutor.Ledger, cfg: Config, keeper: Address,
                     trace: seq<State>, ops: seq<Op>, answers: seq<Answer>, chain: ChainId)
    requires |ops| == |answers| < |trace|
    ensures LedgerAt(ps, l, cfg, keeper, trace, ops, answers, chain, 0) == l
  {
  }

  /** The ledger that the calls of step `i` meet. */
  lemma Met(ps: SwapExecutor.Parties, l: SwapExecutor.Ledger, cfg: Config, keeper: Address,
            trace: seq<State>, ops: seq<Op>, answers: seq<Answer>, k: Grantee, i: nat) returns (l1: SwapExecutor.Ledger)
    requires i < |ops| == |answers| < |trace| && Truthful(ps, l, cfg, keeper, trace, ops, answers, k)
    ensures GrantOn(l1, k) == GrantOn(LedgerAt(ps, l, cfg, keeper, trace, ops, answers, k.chain, i), k)
    ensures GoThrough(ps, l1, CallsOf(cfg, keeper, trace[i], ops[i], k.chain, answers[i]))
    ensures LedgerAt(ps, l, cfg, keeper, trace, ops, answers, k.chain, i + 1) ==
      SwapExecutor.Run(ps, l1, CallsOf(cfg, keeper, trace[i], ops[i], k.chain, answers[i]))
  {
    hide CallsOf, GoThrough, GrantOn, Touches, SwapExecutor.Run;
    l1 := SwapExecutor.Run(ps, LedgerAt(ps, l, cfg, keeper, trace, ops, answers, k.chain, i), answers[i].others);
    OthersKeepGrant(ps, LedgerAt(ps, l, cfg, keeper, trace, ops, answers, k.chain, i), answers[i].others, k);
  }

  // ---- Calls that revert ----

  /** A swap that the manager's allowance does not cover reverts, when the contract holds nothing and the router takes its whole input. */
  lemma UncoveredReverts(ps: SwapExecutor.Parties, l: SwapExecutor.Ledger, cfg: Config, keeper: Address, p: Position, i: nat, now: int,
                         answer: Answer, grants: map<Grantee, int>)
    requires i < |p.levels| && p.chain in cfg && p.permit.signed && 0 <= AmountIn(p, i) < SwapExecutor.TWO_256
    requires GrantOn(l, p.DrawsOn()) == Allowance(grants, p.DrawsOn()) && !Covers(grants, p, i)
    requires l.Balance(p.TokenIn(), ps.executor) == 0
    requires var c := SwapCall(cfg, keeper, p, i, now, answer);
      SwapExecutor.Distinct(ps, c.params, c.fill) && SwapExecutor.ExactInput(c.params, c.fill)
    ensures SwapExecutor.Execute(ps, l, SwapCall(cfg, keeper, p, i, now, answer)).None?
  {
    hide SwapExecutor.Execute, Prices.MinAmountOut, MulBps;
    if SwapExecutor.Execute(ps, l, SwapCall(cfg, keeper, p, i, now, answer)).Some? {
      SwapExecutor.SettlesOnlyWhatIsPaid(ps, l, SwapCall(cfg, keeper, p, i, now, answer));
    }
  }

  /** So does one whose minimum a pool does not clear that pays at most what the trigger price gives. */
  lemma MissedMinimumReverts(ps: SwapExecutor.Parties, l: SwapExecutor.Ledger, cfg: Config, keeper: Address, p: Position, i: nat, now: int,
                             answer: Answer)
    requires i < |p.levels| && p.chain in cfg && p.levels[i].triggerPrice > 0 && !Minimum.Clears(cfg, p, i, answer.feeBps)
    requires 0 <= SwapOf(cfg, p, i).minAmountOut < SwapExecutor.TWO_256
    requires answer.fill.paid <= Minimum.AtTrigger(p, i, AmountIn(p, i) - MulBps(AmountIn(p, i), answer.feeBps))
    ensures SwapExecutor.Execute(ps, l, SwapCall(cfg, keeper, p, i, now, answer)).None?
  {
    hide SwapExecutor.PullIn, Prices.MinAmountOut, MulBps, Minimum.AtTrigger;
    assert SwapOf(cfg, p, i).amountIn == AmountIn(p, i);
  }
}
