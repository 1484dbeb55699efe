/**
 The keeper's nonce counter: handed-out nonces are outstanding until their transaction is sent or they
 are rolled back, and the counter only says where the next one comes from.
 */
module Nonces {
  import opened Types

  /** The counter, with what it has handed out; `sent` in the order of sending. */
  datatype Allocation = Allocation(first: nat, next: nat, outstanding: set<nat>, sent: seq<nat>)

  datatype Op = Acquire | Rollback(nonce: nat) | Send(nonce: nat)

  /** Only a holder of a nonce sends it or rolls it back. */
  predicate Held(a: Allocation, op: Op) {
    match op
    case Acquire => true
    case Rollback(n) => n in a.outstanding
    case Send(n) => n in a.outstanding
  }

  function Step(a: Allocation, op: Op): Allocation {
    match op
    case Acquire => a.(next := a.next + 1, outstanding := a.outstanding + {a.next})
    case Rollback(n) => a.(next := n, outstanding := a.outstanding - {n})
    case Send(n) => a.(outstanding := a.outstanding - {n}, sent := a.sent + [n])
  }

  ghost predicate NoRepeats(s: seq<nat>) {
    forall i, j :: 0 <= i < j < |s| ==> s[i] != s[j]
  }

  /** Every nonce from the first to the next is outstanding or sent, once, and there are no others. */
  ghost predicate Exact(a: Allocation) {
    && NoRepeats(a.sent)
    && (forall n :: n in a.sent ==> n !in a.outstanding)
    && (forall n :: n in a.outstanding || n in a.sent <==> a.first <= n < a.next)
    && a.first <= a.next
  }

  lemma AcquireIsFresh(a: Allocation)
    requires Exact(a)
    ensures a.next !in a.outstanding && a.next !in a.sent && Exact(Step(a, Acquire))
  {
  }

  lemma SendKeepsExact(a: Allocation, n: nat)
    requires Exact(a) && n in a.outstanding
    ensures Exact(Step(a, Send(n)))
  {
    var s := a.sent + [n];
    forall i, j | 0 <= i < j < |s|
      ensures s[i] != s[j]
    {
      assert i < |a.sent| ==> a.sent[i] in a.sent;
    }
  }

  /**
   rollbackNonce moves the counter back without looking. It keeps the numbering exact exactly when it
   returns the last nonce handed out; being the latest one still outstanding is not enough.
   */
  lemma RollbackKeepsExactlyWhen(a: Allocation, n: nat)
    requires Exact(a) && n in a.outstanding
    ensures Exact(Step(a, Rollback(n))) <==> n + 1 == a.next
  {
    var b := Step(a, Rollback(n));
    if n + 1 == a.next {
    } else {
      assert n + 1 in a.outstanding || n + 1 in a.sent;
      assert n + 1 in b.outstanding || n + 1 in b.sent;
    }
  }

  /** After any other rollback, the next nonce but one is already somebody's: held, or sent and so sent again. */
  lemma EarlyRollbackCollides(a: Allocation, n: nat)
    requires Exact(a) && n in a.outstanding && n + 1 < a.next
    ensures var b := Step(Step(Step(a, Rollback(n)), Acquire), Send(n));
      b.next == n + 1 && (b.next in a.outstanding || b.next in a.sent) &&
      (b.next in a.sent ==> !NoRepeats(Step(Step(b, Acquire), Send(b.next)).sent))
  {
    var b := Step(Step(Step(a, Rollback(n)), Acquire), Send(n));
    if n + 1 in a.sent {
      var i :| 0 <= i < |a.sent| && a.sent[i] == n + 1;
      var s := Step(Step(b, Acquire), Send(n + 1)).sent;
      assert s[i] == s[|s| - 1] && i < |s| - 1;
    }
  }

  /** A resync takes the chain's count; it too is exact only if that is where the counter already stood. */
  lemma ResyncKeepsExactlyWhen(a: Allocation, pending: nat)
    requires Exact(a)
    ensures Exact(a.(next := pending)) <==> pending == a.next
  {
    var b := a.(next := pending);
    if pending < a.next {
      if pending < a.first {
      } else {
        assert pending in a.outstanding || pending in a.sent;
        assert pending in b.outstanding || pending in b.sent;
      }
    } else if a.next < pending {
      assert a.next !in a.outstanding && a.next !in a.sent;
    }
  }

  predicate Orderly(a: Allocation, op: Op) {
    Held(a, op) && (op.Rollback? ==> op.nonce + 1 == a.next)
  }

  function Run(a: Allocation, ops: seq<Op>): Allocation {
    if ops == [] then a else Step(Run(a, ops[..|ops| - 1]), ops[|ops| - 1])
  }

  ghost predicate OrderlyRun(a: Allocation, ops: seq<Op>) {
    ops == [] || (OrderlyRun(a, ops[..|ops| - 1]) && Orderly(Run(a, ops[..|ops| - 1]), ops[|ops| - 1]))
  }

  lemma {:induction false} RunIsExact(first: nat, ops: seq<Op>)
    requires OrderlyRun(Allocation(first, first, {}, []), ops)
    ensures var a := Run(Allocation(first, first, {}, []), ops);
      Exact(a) && a.first == first
  {
    if ops == [] {
    } else {
      RunIsExact(first, ops[..|ops| - 1]);
      var a := Run(Allocation(first, first, {}, []), ops[..|ops| - 1]);
      match ops[|ops| - 1]
      case Acquire => AcquireIsFresh(a);
      case Rollback(n) => RollbackKeepsExactlyWhen(a, n);
      case Send(n) => SendKeepsExact(a, n);
    }
  }

  /**
   Over every interleaving of acquisitions, sends and rollbacks of the last nonce handed out: no nonce
   is sent twice, and once nothing is outstanding the sent ones are all from the first to the next, with
   no gap.
   */
  lemma NoncesAreUsedOnce(first: nat, ops: seq<Op>)
    requires OrderlyRun(Allocation(first, first, {}, []), ops)
    ensures var a := Run(Allocation(first, first, {}, []), ops);
      NoRepeats(a.sent) && (a.outstanding == {} ==> forall n :: n in a.sent <==> first <= n < a.next)
  {
    RunIsExact(first, ops);
  }

  class NonceCounter {
    var nextNonce: nat
    var nonceInit: bool
    ghost var log: Allocation

    ghost predicate Valid()
      reads this
    {
      if nonceInit then log.next == nextNonce else log.outstanding == {} && log.sent == []
    }

    constructor ()
      ensures Valid() && !nonceInit
    {
      nextNonce, nonceInit, log := 0, false, Allocation(0, 0, {}, []);
    }

    /** The first acquisition asks the chain where to start; `pending` is its answer. */
    method AcquireNonce(pending: Option<nat>) returns (nonce: Option<nat>)
      requires Valid()
      modifies this
      ensures Valid()
      ensures nonce == if old(nonceInit) then Some(old(nextNonce)) else pending
      ensures old(nonceInit) ==> nonceInit && log == Step(old(log), Acquire)
      ensures !old(nonceInit) && pending.Some? ==>
        nonceInit && log == Step(Allocation(pending.value, pending.value, {}, []), Acquire)
      ensures nonce.None? ==> !nonceInit && log == old(log)
    {
      if !nonceInit {
        if pending.None? {
          return None;
        }
        nextNonce := pending.value;
        nonceInit := true;
        log := Allocation(pending.value, pending.value, {}, []);
      }
      nonce := Some(nextNonce);
      log := Step(log, Acquire);
      nextNonce := nextNonce + 1;
    }

    method RollbackNonce(nonce: nat)
      requires Valid() && nonceInit && nonce in log.outstanding
      modifies this
      ensures Valid() && nonceInit && nextNonce == nonce && log == Step(old(log), Rollback(nonce))
    {
      nextNonce := nonce;
      log := Step(log, Rollback(nonce));
    }

    /** The transaction with this nonce has been sent. */
    ghost method Sent(nonce: nat)
      requires Valid() && nonceInit && nonce in log.outstanding
      modifies `log
      ensures Valid() && nonceInit && log == Step(old(log), Send(nonce))
    {
      log := Step(log, Send(nonce));
    }

    method ResyncNonce(pending: Option<nat>) returns (ok: bool)
      requires Valid()
      modifies this
      ensures Valid() && ok == pending.Some?
      ensures if ok then nonceInit && log == old(log).(next := pending.value) else log == old(log) && nonceInit == old(nonceInit)
    {
      if pending.None? {
        return false;
      }
      nextNonce := pending.value;
      nonceInit := true;
      log := log.(next := pending.value);
      return true;
    }
  }
}
