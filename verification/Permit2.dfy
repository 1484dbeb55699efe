/** Permit2's AllowanceTransfer, as far as the executor uses it: an amount that debits draw on. */
module Permit2 {
  import opened Types
  import opened Amounts

  const MAX_UINT160: int := 0xFFFF_FFFF_FFFF_FFFF_FFFF_FFFF_FFFF_FFFF_FFFF_FFFF

  /** Solidity's `uint160(x)`. */
  function Uint160(x: int): int {
    x % (MAX_UINT160 + 1)
  }

  /** A debit beyond the allowance reverts; the largest value stands for no limit and is not reduced. */
  function Debited(allowance: int, debit: int): Option<int> {
    if allowance == MAX_UINT160 then Some(allowance)
    else if debit > allowance then None
    else Some(allowance - debit)
  }

  /** A debit that neither the cast cuts nor the allowance falls short of. */
  predicate Paid(allowance: int, amount: int) {
    amount <= MAX_UINT160 && Debited(allowance, amount).Some?
  }

  /** The allowance after a series of debits, each passed through the 160-bit cast. */
  function AllowanceAfter(allowance: int, amounts: seq<int>): Option<int> {
    if amounts == [] then Some(allowance)
    else
      var r := AllowanceAfter(allowance, amounts[..|amounts| - 1]);
      if r.None? then None else Debited(r.value, Uint160(amounts[|amounts| - 1]))
  }

  /** Amounts of at most 160 bits that add up to no more than the allowance are all paid. */
  lemma {:induction false} AllowanceSuffices(allowance: int, amounts: seq<int>)
    requires forall i :: 0 <= i < |amounts| ==> 0 <= amounts[i] <= MAX_UINT160
    requires Sum(amounts) <= allowance <= MAX_UINT160
    ensures Sum(amounts) >= 0
    ensures AllowanceAfter(allowance, amounts) == Some(if allowance == MAX_UINT160 then allowance else allowance - Sum(amounts))
  {
    if amounts == [] {
    } else {
      AllowanceSuffices(allowance, amounts[..|amounts| - 1]);
    }
  }
}
