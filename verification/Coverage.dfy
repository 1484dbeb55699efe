/**
 No lost trigger: every active level of a live position is in the index, on the right side and at its
 current price, or has a fired event in flight; and the index holds nothing that contradicts the store.
 */
module Coverage {
  import opened Types
  import opened TriggerIndex
  import opened Lifecycle

  ghost predicate Has(ix: Index, pair: TokenPair, up: bool, x: Entry) {
    x in At(ix, pair).Of(up)
  }

  // ---- What the index operations do to membership ----

  lemma RegisterHas(ix: Index, pair: TokenPair, up: bool, e: Entry, q: TokenPair, u: bool, x: Entry)
    ensures Has(Register(ix, pair, up, e), q, u, x) <==> Has(ix, q, u, x) || (q == pair && u == up && x == e)
  {
    InsertMember(At(ix, pair).Of(up), e, x);
  }

  lemma RemoveHas(ix: Index, pair: TokenPair, sel: Selector, q: TokenPair, u: bool, x: Entry)
    ensures Has(Remove(ix, pair, sel), q, u, x) <==> Has(ix, q, u, x) && !(q == pair && sel.Hits(x))
  {
    SelectMember(At(ix, pair).above, Not(sel), x);
    SelectMember(At(ix, pair).below, Not(sel), x);
  }

  lemma OnPriceHas(ix: Index, pair: TokenPair, price: int, q: TokenPair, u: bool, x: Entry)
    ensures Has(OnPrice(ix, pair, price).0, q, u, x) <==> Has(ix, q, u, x) && !(q == pair && Crossed(u, price).Hits(x))
  {
    SelectMember(At(ix, pair).above, Not(AtMost(price)), x);
    SelectMember(At(ix, pair).below, Not(AtLeast(price)), x);
  }

  lemma {:induction false} EventsMember(s: seq<Entry>, price: int, chain: ChainId, x: Entry)
    requires x in s
    ensures EventOf(x, price, chain) in EventsOf(s, price, chain)
  {
    if x != s[|s| - 1] {
      assert s == s[..|s| - 1] + [s[|s| - 1]];
      EventsMember(s[..|s| - 1], price, chain, x);
    }
  }

  /** A crossed entry becomes an event. */
  lemma CrossedFires(ix: Index, pair: TokenPair, price: int, u: bool, x: Entry)
    requires Has(ix, pair, u, x) && Crossed(u, price).Hits(x)
    ensures EventOf(x, price, pair.chain) in OnPrice(ix, pair, price).1
  {
    var fired := Select(At(ix, pair).Of(u), Crossed(u, price));
    SelectMember(At(ix, pair).Of(u), Crossed(u, price), x);
    EventsMember(fired, price, pair.chain, x);
  }

  /** An event comes from a crossed entry. */
  lemma FiredFrom(ix: Index, pair: TokenPair, price: int, ev: Event) returns (u: bool, x: Entry)
    requires ev in OnPrice(ix, pair, price).1
    ensures Has(ix, pair, u, x) && Crossed(u, price).Hits(x) && ev == EventOf(x, price, pair.chain)
  {
    u := ev in EventsOf(Select(At(ix, pair).above, AtMost(price)), price, pair.chain);
    x := EventsFrom(Select(At(ix, pair).Of(u), Crossed(u, price)), price, pair.chain, ev);
    SelectMember(At(ix, pair).Of(u), Crossed(u, price), x);
  }

  lemma {:induction false} EventsFrom(s: seq<Entry>, price: int, chain: ChainId, ev: Event) returns (x: Entry)
    requires ev in EventsOf(s, price, chain)
    ensures x in s && ev == EventOf(x, price, chain)
  {
    x := s[|s| - 1];
    if ev != EventOf(x, price, chain) {
      x := EventsFrom(s[..|s| - 1], price, chain, ev);
    }
  }

  lemma {:induction false} RegisterAllHas(ix: Index, p: Position, those: set<nat>, k: nat, q: TokenPair, u: bool, x: Entry)
    requires k <= |p.levels|
    ensures Has(RegisterAll(ix, p, those, k), q, u, x) <==>
      Has(ix, q, u, x) ||
      (q == p.Pair() && x.level < k && x.level in those && u == p.Up(x.level) && x == p.EntryOf(x.level))
  {
    if k == 0 {
    } else {
      RegisterAllHas(ix, p, those, k - 1, q, u, x);
      if k - 1 in those {
        RegisterHas(RegisterAll(ix, p, those, k - 1), p.Pair(), p.Up(k - 1), p.EntryOf(k - 1), q, u, x);
      }
    }
  }

  // ---- The invariant ----

  /** An index entry that agrees with its position: right pair, side and type; a suspended level has
      no entries and those of an active level carry its current price. */
  predicate EntryFor(p: Position, q: TokenPair, u: bool, x: Entry) {
    && q == p.Pair() && x.level < |p.levels|
    && x.typ == p.levels[x.level].typ && u == p.Up(x.level)
    && p.levels[x.level].status != LevelSuspended
    && (p.levels[x.level].status == LevelActive ==> x.price == p.levels[x.level].triggerPrice)
  }

  ghost predicate InFlight(fl: multiset<Event>, id: PosId, i: nat) {
    exists ev: Event :: ev in fl && ev.pos == id && ev.level == i
  }

  ghost predicate Tracked(p: Position, ix: Index, fl: multiset<Event>, i: nat)
    requires i < |p.levels|
  {
    Has(ix, p.Pair(), p.Up(i), p.EntryOf(i)) || InFlight(fl, p.id, i)
  }

  ghost predicate Agrees(p: Position, ix: Index) {
    forall q: TokenPair, u: bool, x: Entry :: Has(ix, q, u, x) && x.pos == p.id ==> EntryFor(p, q, u, x)
  }

  ghost predicate Covered(p: Position, ix: Index, fl: multiset<Event>) {
    CoveredBut(p, {}, ix, fl)
  }

  ghost predicate CoveredBut(p: Position, those: set<nat>, ix: Index, fl: multiset<Event>) {
    !p.state.IsTerminal() ==>
      forall i :: 0 <= i < |p.levels| && p.levels[i].status == LevelActive && i !in those ==> Tracked(p, ix, fl, i)
  }

  ghost predicate NoStrays(st: State) {
    forall q: TokenPair, u: bool, x: Entry :: Has(st.index, q, u, x) ==> x.pos in st.store
  }

  ghost predicate Watched(cfg: Config, st: State) {
    && StoreOk(cfg, st) && NoStrays(st)
    && forall id :: id in st.store ==> Agrees(st.store[id], st.index) && Covered(st.store[id], st.index, st.inflight)
  }

  // ---- A step that concerns one position ----

  /** Only entries of position `id` differ. */
  ghost predicate OthersKept(ix: Index, ix': Index, id: PosId) {
    forall q: TokenPair, u: bool, x: Entry :: x.pos != id ==> (Has(ix', q, u, x) <==> Has(ix, q, u, x))
  }

  ghost predicate OthersInFlight(fl: multiset<Event>, fl': multiset<Event>, id: PosId) {
    forall ev: Event :: ev in fl && ev.pos != id ==> ev in fl'
  }

  lemma OnePosition(cfg: Config, st: State, st': State, p: Position)
    requires Watched(cfg, st) && st'.store == st.store[p.id := p] && WellFormed(cfg, p.id, p)
    requires OthersKept(st.index, st'.index, p.id) && OthersInFlight(st.inflight, st'.inflight, p.id)
    requires Agrees(p, st'.index) && Covered(p, st'.index, st'.inflight)
    ensures Watched(cfg, st')
  {
    forall q: TokenPair, u: bool, x: Entry | Has(st'.index, q, u, x)
      ensures x.pos in st'.store
    {
      assert x.pos != p.id ==> Has(st.index, q, u, x);
    }
    forall id | id in st.store && id != p.id
      ensures Agrees(st'.store[id], st'.index) && Covered(st'.store[id], st'.index, st'.inflight)
    {
      OtherPosition(st.store[id], p.id, st.index, st'.index, st.inflight, st'.inflight);
    }
  }

  lemma OtherPosition(o: Position, id: PosId, ix: Index, ix': Index, fl: multiset<Event>, fl': multiset<Event>)
    requires o.id != id && Agrees(o, ix) && Covered(o, ix, fl)
    requires OthersKept(ix, ix', id) && OthersInFlight(fl, fl', id)
    ensures Agrees(o, ix') && Covered(o, ix', fl')
  {
    forall q: TokenPair, u: bool, x: Entry | Has(ix', q, u, x) && x.pos == o.id
      ensures EntryFor(o, q, u, x)
    {
      assert Has(ix, q, u, x);
    }
    if !o.state.IsTerminal() {
      forall i | 0 <= i < |o.levels| && o.levels[i].status == LevelActive
        ensures Tracked(o, ix', fl', i)
      {
        assert Tracked(o, ix, fl, i);
        if Has(ix, o.Pair(), o.Up(i), o.EntryOf(i)) {
          assert Has(ix', o.Pair(), o.Up(i), o.EntryOf(i));
        } else {
          var ev :| ev in fl && ev.pos == o.id && ev.level == i;
          assert ev in fl';
        }
      }
    }
  }

  // ---- The ways an operation touches its position ----

  /** The level types, pair and direction that place entries are never changed. */
  predicate SamePlace(p: Position, p': Position) {
    p'.id == p.id && p'.Pair() == p.Pair() && p'.direction == p.direction && |p.levels| <= |p'.levels| &&
    forall i :: 0 <= i < |p.levels| ==> p'.levels[i].typ == p.levels[i].typ
  }

  /** Level `i` is as before, as far as the index is concerned. */
  predicate SameLevel(p: Position, p': Position, i: nat)
    requires i < |p.levels| <= |p'.levels|
  {
    p'.levels[i].status == p.levels[i].status && p'.levels[i].triggerPrice == p.levels[i].triggerPrice
  }

  /** Levels in `those` stop being active and lose their entries; nothing else changes. */
  lemma Sweep(p: Position, p': Position, those: set<nat>, ix: Index, fl: multiset<Event>)
    requires SamePlace(p, p') && |p'.levels| == |p.levels|
    requires Agrees(p, ix) && CoveredBut(p, those, ix, fl) && (p.state.IsTerminal() ==> p'.state.IsTerminal())
    requires forall i :: 0 <= i < |p.levels| && i !in those ==> SameLevel(p, p', i)
    requires forall i :: 0 <= i < |p.levels| && i in those ==> p'.levels[i].status != LevelActive
    ensures var ix' := Remove(ix, p.Pair(), OfLevels(p.id, those));
      OthersKept(ix, ix', p.id) && Agrees(p', ix') && Covered(p', ix', fl)
  {
    var sel := OfLevels(p.id, those);
    var ix' := Remove(ix, p.Pair(), sel);
    forall q: TokenPair, u: bool, x: Entry
      ensures x.pos != p.id ==> (Has(ix', q, u, x) <==> Has(ix, q, u, x))
      ensures Has(ix', q, u, x) && x.pos == p'.id ==> EntryFor(p', q, u, x)
    {
      RemoveHas(ix, p.Pair(), sel, q, u, x);
      if Has(ix', q, u, x) && x.pos == p.id { assert EntryFor(p, q, u, x); }
    }
    if !p'.state.IsTerminal() {
      forall i | 0 <= i < |p'.levels| && p'.levels[i].status == LevelActive
        ensures Tracked(p', ix', fl, i)
      {
        assert i !in those && Tracked(p, ix, fl, i);
        RemoveHas(ix, p.Pair(), sel, p.Pair(), p.Up(i), p.EntryOf(i));
      }
    }
  }

  /** Levels in `those` become active, or already were, and are registered at their prices. */
  lemma Enlist(p: Position, p': Position, those: set<nat>, ix: Index, fl: multiset<Event>)
    requires SamePlace(p, p') && Agrees(p, ix) && Covered(p, ix, fl) && (p.state.IsTerminal() ==> p'.state.IsTerminal())
    requires forall i :: 0 <= i < |p.levels| && i !in those ==> SameLevel(p, p', i)
    requires forall i :: 0 <= i < |p.levels| && i in those ==>
      p.levels[i].status == LevelSuspended || (p.levels[i].status == LevelActive && SameLevel(p, p', i))
    requires forall i :: 0 <= i < |p'.levels| && (i in those || |p.levels| <= i) ==> i in those && p'.levels[i].status == LevelActive
    ensures var ix' := RegisterAll(ix, p', those, |p'.levels|);
      OthersKept(ix, ix', p.id) && Agrees(p', ix') && Covered(p', ix', fl)
  {
    var n := |p'.levels|;
    var ix' := RegisterAll(ix, p', those, n);
    forall q: TokenPair, u: bool, x: Entry
      ensures x.pos != p.id ==> (Has(ix', q, u, x) <==> Has(ix, q, u, x))
      ensures Has(ix', q, u, x) && x.pos == p'.id ==> EntryFor(p', q, u, x)
    {
      RegisterAllHas(ix, p', those, n, q, u, x);
      if Has(ix, q, u, x) && x.pos == p.id { assert EntryFor(p, q, u, x); }
    }
    if !p'.state.IsTerminal() {
      forall i | 0 <= i < n && p'.levels[i].status == LevelActive
        ensures Tracked(p', ix', fl, i)
      {
        RegisterAllHas(ix, p', those, n, p'.Pair(), p'.Up(i), p'.EntryOf(i));
        if i !in those { assert Tracked(p, ix, fl, i); }
      }
    }
  }

  /** A level that is not suspended is registered at its current price: a retry, or a new last level. */
  lemma EnlistOne(p: Position, i: nat, ix: Index, fl: multiset<Event>)
    requires i < |p.levels| && p.levels[i].status == LevelActive && Agrees(p, ix) && CoveredBut(p, {i}, ix, fl)
    ensures var ix' := Register(ix, p.Pair(), p.Up(i), p.EntryOf(i));
      OthersKept(ix, ix', p.id) && Agrees(p, ix') && Covered(p, ix', fl)
  {
    var ix' := Register(ix, p.Pair(), p.Up(i), p.EntryOf(i));
    forall q: TokenPair, u: bool, x: Entry
      ensures x.pos != p.id ==> (Has(ix', q, u, x) <==> Has(ix, q, u, x))
      ensures Has(ix', q, u, x) && x.pos == p.id ==> EntryFor(p, q, u, x)
    {
      RegisterHas(ix, p.Pair(), p.Up(i), p.EntryOf(i), q, u, x);
    }
    if !p.state.IsTerminal() {
      forall j | 0 <= j < |p.levels| && p.levels[j].status == LevelActive
        ensures Tracked(p, ix', fl, j)
      {
        RegisterHas(ix, p.Pair(), p.Up(i), p.EntryOf(i), p.Pair(), p.Up(j), p.EntryOf(j));
        if j != i { assert Tracked(p, ix, fl, j); }
      }
    }
  }

  /** An active level takes a new price and is registered again, alone, at it. */
  lemma Reprice(p: Position, i: nat, price: int, ix: Index, fl: multiset<Event>)
    requires i < |p.levels| && p.levels[i].status == LevelActive && Agrees(p, ix) && Covered(p, ix, fl)
    ensures var p' := Repriced(p, i, price);
      var ix' := UpdateTriggerPrice(ix, p'.Pair(), p'.Up(i), p'.EntryOf(i));
      OthersKept(ix, ix', p.id) && Agrees(p', ix') && Covered(p', ix', fl)
  {
    var p' := Repriced(p, i, price);
    var mid := Unregister(ix, p.Pair(), p.id, i);
    forall q: TokenPair, u: bool, x: Entry
      ensures x.pos != p.id ==> (Has(mid, q, u, x) <==> Has(ix, q, u, x))
      ensures Has(mid, q, u, x) && x.pos == p.id ==> EntryFor(p', q, u, x)
    {
      RemoveHas(ix, p.Pair(), OfLevels(p.id, {i}), q, u, x);
      if Has(mid, q, u, x) && x.pos == p.id { assert EntryFor(p, q, u, x); }
    }
    if !p.state.IsTerminal() {
      forall j | 0 <= j < |p.levels| && j != i && p.levels[j].status == LevelActive
        ensures Tracked(p', mid, fl, j)
      {
        RemoveHas(ix, p.Pair(), OfLevels(p.id, {i}), p.Pair(), p.Up(j), p.EntryOf(j));
        assert Tracked(p, ix, fl, j);
      }
    }
    EnlistOne(p', i, mid, fl);
  }

  lemma OthersKeptTwice(a: Index, b: Index, c: Index, id: PosId)
    requires OthersKept(a, b, id) && OthersKept(b, c, id)
    ensures OthersKept(a, c, id)
  {
    forall q: TokenPair, u: bool, x: Entry | x.pos != id
      ensures Has(c, q, u, x) <==> Has(a, q, u, x)
    {
      assert Has(b, q, u, x) <==> Has(a, q, u, x);
    }
  }
}
