/** What the positions that share a Permit2 allowance may still draw on it, added up over the store. */
module Demand {
  import opened Types
  import opened Lifecycle

  /** The position draws on the allowance without activating anything first. */
  predicate Draws(p: Position, k: Grantee) {
    p.permit.signed && p.permit.activated && !p.state.IsTerminal() && p.DrawsOn() == k
  }

  function Weight(p: Position, k: Grantee): int {
    if Draws(p, k) then p.remainingSize else 0
  }

  ghost predicate Any(ids: set<PosId>) {
    exists id :: id in ids
  }

  ghost function Pick(ids: set<PosId>): (id: PosId)
    requires Any(ids)
    ensures id in ids
  {
    var id :| id in ids; id
  }

  ghost function Total(store: map<PosId, Position>, ids: set<PosId>, k: Grantee): int
    requires ids <= store.Keys
    decreases |ids|
  {
    if !Any(ids) then 0 else Weight(store[Pick(ids)], k) + Total(store, ids - {Pick(ids)}, k)
  }

  /** The remaining sizes of all that draw on the allowance. */
  ghost function DemandOn(store: map<PosId, Position>, k: Grantee): int {
    Total(store, store.Keys, k)
  }

  /** The order of summation does not matter. */
  lemma {:induction false} TotalTakes(store: map<PosId, Position>, ids: set<PosId>, k: Grantee, id: PosId)
    requires ids <= store.Keys && id in ids
    ensures Total(store, ids, k) == Weight(store[id], k) + Total(store, ids - {id}, k)
    decreases |ids|
  {
    var x := Pick(ids);
    if x != id {
      TotalTakes(store, ids - {x}, k, id);
      TotalTakes(store, ids - {id}, k, x);
      assert ids - {x} - {id} == ids - {id} - {x};
    }
  }

  lemma {:induction false} TotalAtMost(store: map<PosId, Position>, store': map<PosId, Position>, ids: set<PosId>, k: Grantee)
    requires ids <= store.Keys && ids <= store'.Keys
    requires forall id :: id in ids ==> Weight(store[id], k) <= Weight(store'[id], k)
    ensures Total(store, ids, k) <= Total(store', ids, k)
    decreases |ids|
  {
    if Any(ids) {
      TotalAtMost(store, store', ids - {Pick(ids)}, k);
    }
  }

  lemma TotalSame(store: map<PosId, Position>, store': map<PosId, Position>, ids: set<PosId>, k: Grantee)
    requires ids <= store.Keys && ids <= store'.Keys
    requires forall id :: id in ids ==> Weight(store[id], k) == Weight(store'[id], k)
    ensures Total(store, ids, k) == Total(store', ids, k)
  {
    TotalAtMost(store, store', ids, k);
    TotalAtMost(store', store, ids, k);
  }

  lemma DemandReplaced(store: map<PosId, Position>, id: PosId, p: Position, k: Grantee)
    requires id in store
    ensures DemandOn(store[id := p], k) == DemandOn(store, k) - Weight(store[id], k) + Weight(p, k)
  {
    var store', ids := store[id := p], store.Keys;
    assert store'.Keys == ids;
    TotalTakes(store, ids, k, id);
    TotalTakes(store', ids, k, id);
    TotalSame(store, store', ids - {id}, k);
  }

  lemma DemandOpened(store: map<PosId, Position>, id: PosId, p: Position, k: Grantee)
    requires id !in store
    ensures DemandOn(store[id := p], k) == DemandOn(store, k) + Weight(p, k)
  {
    var store' := store[id := p];
    assert store'.Keys - {id} == store.Keys;
    TotalTakes(store', store'.Keys, k, id);
    TotalSame(store, store', store.Keys, k);
  }

  /** One position's weight is within the demand, when no size is negative. */
  lemma WeightWithin(store: map<PosId, Position>, id: PosId, k: Grantee)
    requires id in store && forall o :: o in store ==> store[o].remainingSize >= 0
    ensures 0 <= Weight(store[id], k) <= DemandOn(store, k)
  {
    TotalTakes(store, store.Keys, k, id);
    TotalNonNegative(store, store.Keys - {id}, k);
  }

  lemma {:induction false} TotalNonNegative(store: map<PosId, Position>, ids: set<PosId>, k: Grantee)
    requires ids <= store.Keys && forall o :: o in store ==> store[o].remainingSize >= 0
    ensures Total(store, ids, k) >= 0
    decreases |ids|
  {
    if Any(ids) {
      TotalNonNegative(store, ids - {Pick(ids)}, k);
    }
  }

  /** A positive demand has somebody behind it. */
  lemma {:induction false} SomebodyDraws(store: map<PosId, Position>, ids: set<PosId>, k: Grantee) returns (id: PosId)
    requires ids <= store.Keys && Total(store, ids, k) > 0
    ensures id in ids && Draws(store[id], k) && store[id].remainingSize > 0
    decreases |ids|
  {
    id := Pick(ids);
    if Weight(store[id], k) <= 0 {
      id := SomebodyDraws(store, ids - {id}, k);
    }
  }
}
