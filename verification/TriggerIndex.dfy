/**
 The trigger index as a value: per pair, two price-sorted sequences. The functions here say what
 each engine operation does to it; `TriggerEngine` implements them over arrays.
 */
module TriggerIndex {
  import opened Types

  datatype Entry = Entry(price: int, pos: PosId, level: nat, typ: LevelType)

  datatype Event = Event(pos: PosId, level: nat, typ: LevelType, price: int, chain: ChainId)

  datatype Sides = Sides(above: seq<Entry>, below: seq<Entry>) {
    function Of(up: bool): seq<Entry> {
      if up then above else below
    }

    function With(up: bool, s: seq<Entry>): Sides {
      if up then this.(above := s) else this.(below := s)
    }
  }

  const NO_SIDES := Sides([], [])

  type Index = map<TokenPair, Sides>

  /** What an operation picks out of a slice. */
  datatype Selector =
    | OfLevels(pos: PosId, levels: set<nat>)
    | OfPosition(owner: PosId)
    | AtMost(high: int)
    | AtLeast(low: int)
    | Above(limit: int)
    | Not(inner: Selector)
  {
    predicate Hits(e: Entry) {
      match this
      case OfLevels(p, ls) => e.pos == p && e.level in ls
      case OfPosition(p) => e.pos == p
      case AtMost(h) => e.price <= h
      case AtLeast(l) => l <= e.price
      case Above(m) => m < e.price
      case Not(sel) => !sel.Hits(e)
    }
  }

  function Select(s: seq<Entry>, sel: Selector): seq<Entry> {
    if s == [] then []
    else
      var r := Select(s[..|s| - 1], sel);
      if sel.Hits(s[|s| - 1]) then r + [s[|s| - 1]] else r
  }

  function Reject(s: seq<Entry>, sel: Selector): seq<Entry> {
    Select(s, Not(sel))
  }

  ghost predicate Sorted(s: seq<Entry>) {
    forall i, j :: 0 <= i < j < |s| ==> s[i].price <= s[j].price
  }

  /** Insertion after every entry whose price is not larger. */
  function Insert(s: seq<Entry>, e: Entry): seq<Entry> {
    if s == [] || s[|s| - 1].price <= e.price then s + [e]
    else Insert(s[..|s| - 1], e) + [s[|s| - 1]]
  }

  /** Which selector fires on a side at a price. */
  function Crossed(up: bool, price: int): Selector {
    if up then AtMost(price) else AtLeast(price)
  }

  /** What a move from one price to another brings a position. */
  function Gain(direction: Direction, from: int, to: int): int {
    if direction == Long then to - from else from - to
  }

  /** On the side it is registered on, a take-profit fires at its trigger or better and a stop-loss at its trigger or worse. */
  lemma CrossedMeans(e: Entry, direction: Direction, price: int)
    ensures Crossed(FiresAbove(e.typ, direction), price).Hits(e) <==>
      if e.typ == TP then Gain(direction, e.price, price) >= 0 else Gain(direction, e.price, price) <= 0
  {
  }

  function EventOf(e: Entry, price: int, chain: ChainId): Event {
    Event(e.pos, e.level, e.typ, price, chain)
  }

  function EventsOf(s: seq<Entry>, price: int, chain: ChainId): seq<Event> {
    if s == [] then [] else EventsOf(s[..|s| - 1], price, chain) + [EventOf(s[|s| - 1], price, chain)]
  }

  lemma EventsSnoc(s: seq<Entry>, e: Entry, price: int, chain: ChainId)
    ensures EventsOf(s + [e], price, chain) == EventsOf(s, price, chain) + [EventOf(e, price, chain)]
  {
    assert (s + [e])[..|s + [e]| - 1] == s;
  }

  /** An event names the entry it comes from and carries the market price, not the entry's own. */
  predicate Reports(ev: Event, e: Entry, price: int, chain: ChainId) {
    ev.pos == e.pos && ev.level == e.level && ev.typ == e.typ && ev.price == price && ev.chain == chain
  }

  lemma {:induction false} EventsReport(s: seq<Entry>, price: int, chain: ChainId)
    ensures |EventsOf(s, price, chain)| == |s|
    ensures forall k :: 0 <= k < |s| ==> Reports(EventsOf(s, price, chain)[k], s[k], price, chain)
  {
    if s != [] {
      EventsReport(s[..|s| - 1], price, chain);
    }
  }

  // ---- The operations ----

  function At(ix: Index, pair: TokenPair): Sides {
    if pair in ix then ix[pair] else NO_SIDES
  }

  function Register(ix: Index, pair: TokenPair, up: bool, e: Entry): Index {
    ix[pair := At(ix, pair).With(up, Insert(At(ix, pair).Of(up), e))]
  }

  function DropSide(ix: Index, pair: TokenPair, up: bool, sel: Selector): Index
    requires pair in ix
  {
    ix[pair := ix[pair].With(up, Reject(ix[pair].Of(up), sel))]
  }

  /** Both sides of a pair lose what their selector hits. */
  function Drop(ix: Index, pair: TokenPair, above: Selector, below: Selector): Index {
    if pair in ix then DropSide(DropSide(ix, pair, true, above), pair, false, below) else ix
  }

  function Remove(ix: Index, pair: TokenPair, sel: Selector): Index {
    Drop(ix, pair, sel, sel)
  }

  function Unregister(ix: Index, pair: TokenPair, pos: PosId, level: nat): Index {
    Remove(ix, pair, OfLevels(pos, {level}))
  }

  function UpdateTriggerPrice(ix: Index, pair: TokenPair, up: bool, e: Entry): Index {
    Register(Unregister(ix, pair, e.pos, e.level), pair, up, e)
  }

  /** The index after a price, and what fired: the above side first. */
  function OnPrice(ix: Index, pair: TokenPair, price: int): (Index, seq<Event>) {
    (Drop(ix, pair, AtMost(price), AtLeast(price)),
     EventsOf(Select(At(ix, pair).above, AtMost(price)), price, pair.chain) +
     EventsOf(Select(At(ix, pair).below, AtLeast(price)), price, pair.chain))
  }

  // ---- Selection ----

  lemma SelectSnoc(s: seq<Entry>, e: Entry, sel: Selector)
    ensures Select(s + [e], sel) == if sel.Hits(e) then Select(s, sel) + [e] else Select(s, sel)
  {
    assert (s + [e])[..|s + [e]| - 1] == s;
  }

  lemma {:induction false} SelectMember(s: seq<Entry>, sel: Selector, x: Entry)
    ensures x in Select(s, sel) <==> x in s && sel.Hits(x)
  {
    if s == [] {
    } else {
      var n := |s| - 1;
      SelectMember(s[..n], sel, x);
      assert s == s[..n] + [s[n]];
    }
  }

  /** A price reaches an entry of the above side from below, and one of the below side from above. */
  predicate Reaches(up: bool, e: Entry, price: int) {
    if up then e.price <= price else price <= e.price
  }

  /** The event reports some entry of the pair that the price reaches. */
  ghost predicate Reported(ix: Index, pair: TokenPair, price: int, ev: Event) {
    exists up: bool, e: Entry :: e in At(ix, pair).Of(up) && Reaches(up, e, price) && Reports(ev, e, price, pair.chain)
  }

  /** What a price fires: an event for every entry it reaches, and for nothing else. */
  lemma FiredMeans(ix: Index, pair: TokenPair, price: int)
    ensures var events := OnPrice(ix, pair, price).1;
      (forall ev :: ev in events ==> Reported(ix, pair, price, ev)) &&
      (forall up: bool, e: Entry :: e in At(ix, pair).Of(up) && Reaches(up, e, price) ==>
         exists ev :: ev in events && Reports(ev, e, price, pair.chain))
  {
    var above, below := Select(At(ix, pair).above, AtMost(price)), Select(At(ix, pair).below, AtLeast(price));
    EventsReport(above, price, pair.chain);
    EventsReport(below, price, pair.chain);
    var a, b := EventsOf(above, price, pair.chain), EventsOf(below, price, pair.chain);
    forall ev | ev in a + b
      ensures Reported(ix, pair, price, ev)
    {
      if k :| 0 <= k < |a| && a[k] == ev {
        SelectMember(At(ix, pair).above, AtMost(price), above[k]);
        assert above[k] in At(ix, pair).Of(true);
      } else {
        var k :| 0 <= k < |b| && b[k] == ev;
        SelectMember(At(ix, pair).below, AtLeast(price), below[k]);
        assert below[k] in At(ix, pair).Of(false);
      }
    }
    forall up: bool, e: Entry | e in At(ix, pair).Of(up) && Reaches(up, e, price)
      ensures exists ev :: ev in a + b && Reports(ev, e, price, pair.chain)
    {
      var fired, events := if up then above else below, if up then a else b;
      SelectMember(At(ix, pair).Of(up), if up then AtMost(price) else AtLeast(price), e);
      var k :| 0 <= k < |fired| && fired[k] == e;
      assert events[k] in a + b;
    }
  }

  lemma {:induction false} SelectSplits(s: seq<Entry>, sel: Selector)
    ensures multiset(s) == multiset(Select(s, sel)) + multiset(Reject(s, sel))
  {
    if s == [] {
    } else {
      var n := |s| - 1;
      SelectSplits(s[..n], sel);
      assert s == s[..n] + [s[n]];
    }
  }

  /** One event for each entry that a price takes: the two sides lose as many entries as there are events. */
  lemma EntriesBecomeEvents(ix: Index, pair: TokenPair, price: int)
    ensures var (ix', events) := OnPrice(ix, pair, price);
      |At(ix', pair).above| + |At(ix', pair).below| + |events| == |At(ix, pair).above| + |At(ix, pair).below|
  {
    var above, below := At(ix, pair).above, At(ix, pair).below;
    SelectCounts(above, AtMost(price));
    SelectCounts(below, AtLeast(price));
    EventsReport(Select(above, AtMost(price)), price, pair.chain);
    EventsReport(Select(below, AtLeast(price)), price, pair.chain);
  }

  lemma SelectCounts(s: seq<Entry>, sel: Selector)
    ensures |Select(s, sel)| + |Reject(s, sel)| == |s|
  {
    SelectSplits(s, sel);
    assert |multiset(Select(s, sel)) + multiset(Reject(s, sel))| == |s|;
  }

  lemma SortedSnoc(s: seq<Entry>, e: Entry)
    requires Sorted(s)
    requires forall x :: x in s ==> x.price <= e.price
    ensures Sorted(s + [e])
  {
    assert forall i :: 0 <= i < |s| ==> s[i] in s;
  }

  lemma {:induction false} SelectSorted(s: seq<Entry>, sel: Selector)
    requires Sorted(s)
    ensures Sorted(Select(s, sel))
  {
    if s == [] {
    } else {
      var n := |s| - 1;
      SelectSorted(s[..n], sel);
      forall x | x in Select(s[..n], sel)
        ensures x.price <= s[n].price
      {
        SelectMember(s[..n], sel, x);
      }
      SortedSnoc(Select(s[..n], sel), s[n]);
    }
  }

  ghost predicate Uniform(s: seq<Entry>, sel: Selector, hit: bool) {
    forall x :: x in s ==> (sel.Hits(x) <==> hit)
  }

  /** All-or-nothing selections. */
  lemma {:induction false} SelectUniform(s: seq<Entry>, sel: Selector, hit: bool)
    requires Uniform(s, sel, hit)
    ensures Select(s, sel) == if hit then s else []
  {
    if s == [] {
    } else {
      assert s[|s| - 1] in s;
      SelectUniform(s[..|s| - 1], sel, hit);
    }
  }

  lemma {:induction false} SelectConcat(a: seq<Entry>, b: seq<Entry>, sel: Selector)
    ensures Select(a + b, sel) == Select(a, sel) + Select(b, sel)
  {
    if b == [] {
      assert a + b == a;
    } else {
      var n := |b| - 1;
      assert (a + b)[..|a + b| - 1] == a + b[..n];
      SelectConcat(a, b[..n], sel);
    }
  }

  /** A sorted slice is cut in two by a price test, which is what a binary search finds. */
  lemma SelectOfParts(s: seq<Entry>, cut: nat, sel: Selector, hitFirst: bool)
    requires cut <= |s|
    requires Uniform(s[..cut], sel, hitFirst) && Uniform(s[cut..], sel, !hitFirst)
    ensures Select(s, sel) == if hitFirst then s[..cut] else s[cut..]
  {
    SelectUniform(s[..cut], sel, hitFirst);
    SelectUniform(s[cut..], sel, !hitFirst);
    SelectConcat(s[..cut], s[cut..], sel);
    assert s == s[..cut] + s[cut..];
  }

  lemma UniformParts(s: seq<Entry>, cut: nat, stop: Selector)
    requires cut <= |s|
    requires forall i :: 0 <= i < |s| ==> (stop.Hits(s[i]) <==> cut <= i)
    ensures Uniform(s[..cut], stop, false) && Uniform(s[cut..], stop, true)
  {
    forall x | x in s[..cut]
      ensures !stop.Hits(x)
    {
      var i :| 0 <= i < cut && s[i] == x;
    }
    forall x | x in s[cut..]
      ensures stop.Hits(x)
    {
      var i :| 0 <= i < |s| - cut && s[cut..][i] == x;
      assert s[cut + i] == x;
    }
  }

  lemma UniformFlip(s: seq<Entry>, a: Selector, b: Selector, hit: bool)
    requires Uniform(s, a, hit)
    requires forall x :: a.Hits(x) <==> !b.Hits(x)
    ensures Uniform(s, b, !hit)
  {
  }

  lemma CutAbove(s: seq<Entry>, cut: nat, price: int)
    requires cut <= |s|
    requires forall i :: 0 <= i < |s| ==> (Above(price).Hits(s[i]) <==> cut <= i)
    ensures Select(s, AtMost(price)) == s[..cut] && Reject(s, AtMost(price)) == s[cut..]
  {
    UniformParts(s, cut, Above(price));
    UniformFlip(s[..cut], Above(price), AtMost(price), false);
    UniformFlip(s[cut..], Above(price), AtMost(price), true);
    SelectOfParts(s, cut, AtMost(price), true);
    UniformFlip(s[..cut], AtMost(price), Not(AtMost(price)), true);
    UniformFlip(s[cut..], AtMost(price), Not(AtMost(price)), false);
    SelectOfParts(s, cut, Not(AtMost(price)), false);
  }

  lemma CutBelow(s: seq<Entry>, cut: nat, price: int)
    requires cut <= |s|
    requires forall i :: 0 <= i < |s| ==> (AtLeast(price).Hits(s[i]) <==> cut <= i)
    ensures Select(s, AtLeast(price)) == s[cut..] && Reject(s, AtLeast(price)) == s[..cut]
  {
    UniformParts(s, cut, AtLeast(price));
    SelectOfParts(s, cut, AtLeast(price), false);
    UniformFlip(s[..cut], AtLeast(price), Not(AtLeast(price)), false);
    UniformFlip(s[cut..], AtLeast(price), Not(AtLeast(price)), true);
    SelectOfParts(s, cut, Not(AtLeast(price)), true);
  }

  lemma {:induction false} RejectTwice(s: seq<Entry>, pos: PosId, a: set<nat>, b: set<nat>)
    ensures Reject(Reject(s, OfLevels(pos, a)), OfLevels(pos, b)) == Reject(s, OfLevels(pos, a + b))
  {
    if s == [] {
    } else {
      var n := |s| - 1;
      RejectTwice(s[..n], pos, a, b);
      assert OfLevels(pos, a + b).Hits(s[n]) == (OfLevels(pos, a).Hits(s[n]) || OfLevels(pos, b).Hits(s[n]));
      SelectSnoc(Reject(s[..n], OfLevels(pos, a)), s[n], Not(OfLevels(pos, b)));
    }
  }

  // ---- Insertion ----

  lemma {:induction false} InsertAt(s: seq<Entry>, e: Entry, i: nat)
    requires i <= |s|
    requires forall k :: 0 <= k < i ==> s[k].price <= e.price
    requires forall k :: i <= k < |s| ==> e.price < s[k].price
    ensures Insert(s, e) == s[..i] + [e] + s[i..]
  {
    if i == |s| {
      assert s[..i] + [e] + s[i..] == s + [e];
    } else {
      var n := |s| - 1;
      InsertAt(s[..n], e, i);
      assert s[..i] + [e] + s[i..] == (s[..n][..i] + [e] + s[..n][i..]) + [s[n]];
    }
  }

  lemma {:induction false} InsertContents(s: seq<Entry>, e: Entry)
    ensures multiset(Insert(s, e)) == multiset(s) + multiset{e}
  {
    if s == [] || s[|s| - 1].price <= e.price {
    } else {
      var n := |s| - 1;
      InsertContents(s[..n], e);
      assert s == s[..n] + [s[n]];
    }
  }

  lemma InsertMember(s: seq<Entry>, e: Entry, x: Entry)
    ensures x in Insert(s, e) <==> x in s || x == e
  {
    InsertContents(s, e);
    assert x in Insert(s, e) <==> x in multiset(Insert(s, e));
    assert x in s <==> x in multiset(s);
  }

  lemma {:induction false} InsertSorted(s: seq<Entry>, e: Entry)
    requires Sorted(s)
    ensures Sorted(Insert(s, e))
  {
    if s == [] || s[|s| - 1].price <= e.price {
    } else {
      var n := |s| - 1;
      InsertSorted(s[..n], e);
      forall x | x in Insert(s[..n], e)
        ensures x.price <= s[n].price
      {
        InsertMember(s[..n], e, x);
      }
      SortedSnoc(Insert(s[..n], e), s[n]);
    }
  }

  // ---- Sortedness of the whole index ----

  ghost predicate SortedIndex(ix: Index) {
    forall p :: p in ix ==> Sorted(ix[p].above) && Sorted(ix[p].below)
  }

  /** How often an entry is kept on a side of a pair. */
  function Kept(ix: Index, pair: TokenPair, up: bool, x: Entry): nat {
    multiset(At(ix, pair).Of(up))[x]
  }

  /** Registering adds the entry once, on its side of its pair, and touches nothing else. */
  lemma RegisterMeans(ix: Index, pair: TokenPair, up: bool, e: Entry, q: TokenPair, u: bool, x: Entry)
    ensures Kept(Register(ix, pair, up, e), q, u, x) == Kept(ix, q, u, x) + if q == pair && u == up && x == e then 1 else 0
  {
    InsertContents(At(ix, pair).Of(up), e);
    hide Insert;
  }

  lemma {:induction false} RejectContents(s: seq<Entry>, sel: Selector, x: Entry)
    ensures multiset(Reject(s, sel))[x] == if sel.Hits(x) then 0 else multiset(s)[x]
  {
    if s != [] {
      var init, last := s[..|s| - 1], s[|s| - 1];
      RejectContents(init, sel, x);
      assert s == init + [last];
    }
  }

  /** Unregistering a level takes all its entries, of whatever price and type, from both sides of the pair, and no others. */
  lemma UnregisterMeans(ix: Index, pair: TokenPair, pos: PosId, level: nat, q: TokenPair, u: bool, x: Entry)
    ensures Kept(Unregister(ix, pair, pos, level), q, u, x) ==
      if q == pair && x.pos == pos && x.level == level then 0 else Kept(ix, q, u, x)
  {
    RejectContents(At(ix, pair).above, OfLevels(pos, {level}), x);
    RejectContents(At(ix, pair).below, OfLevels(pos, {level}), x);
    hide Select;
  }

  /** Unregistering a position takes all its entries, and no others. */
  lemma UnregisterPositionMeans(ix: Index, pair: TokenPair, pos: PosId, q: TokenPair, u: bool, x: Entry)
    ensures Kept(Remove(ix, pair, OfPosition(pos)), q, u, x) == if q == pair && x.pos == pos then 0 else Kept(ix, q, u, x)
  {
    RejectContents(At(ix, pair).above, OfPosition(pos), x);
    RejectContents(At(ix, pair).below, OfPosition(pos), x);
    hide Select;
  }

  /** A price takes exactly the entries it reaches. */
  lemma PriceTakes(ix: Index, pair: TokenPair, price: int, q: TokenPair, u: bool, x: Entry)
    ensures Kept(OnPrice(ix, pair, price).0, q, u, x) == if q == pair && Reaches(u, x, price) then 0 else Kept(ix, q, u, x)
  {
    RejectContents(At(ix, pair).above, AtMost(price), x);
    RejectContents(At(ix, pair).below, AtLeast(price), x);
    hide Select;
  }

  lemma RegisterSorted(ix: Index, pair: TokenPair, up: bool, e: Entry)
    requires SortedIndex(ix)
    ensures SortedIndex(Register(ix, pair, up, e))
  {
    InsertSorted(At(ix, pair).Of(up), e);
  }

  lemma DropSideSorted(ix: Index, pair: TokenPair, up: bool, sel: Selector)
    requires SortedIndex(ix) && pair in ix
    ensures SortedIndex(DropSide(ix, pair, up, sel))
  {
    SelectSorted(ix[pair].Of(up), Not(sel));
  }

  // ---- Refinement of a naive registry ----
  //
  // The naive registry keeps each side as a plain list in registration order; every operation is an
  // append or a linear filter. The engine's slice is always the stable sort of that list.

  function StableSort(l: seq<Entry>): seq<Entry> {
    if l == [] then [] else Insert(StableSort(l[..|l| - 1]), l[|l| - 1])
  }

  /** The entries of one price, in list order. */
  function AtPrice(s: seq<Entry>, price: int): seq<Entry> {
    Select(Select(s, AtMost(price)), AtLeast(price))
  }

  lemma {:induction false} StableSortContents(l: seq<Entry>)
    ensures multiset(StableSort(l)) == multiset(l)
  {
    hide Insert;
    if l == [] {
    } else {
      var n := |l| - 1;
      StableSortContents(l[..n]);
      InsertContents(StableSort(l[..n]), l[n]);
      assert l == l[..n] + [l[n]];
    }
  }

  lemma {:induction false} StableSortSorts(l: seq<Entry>)
    ensures Sorted(StableSort(l))
  {
    if l == [] {
    } else {
      StableSortSorts(l[..|l| - 1]);
      InsertSorted(StableSort(l[..|l| - 1]), l[|l| - 1]);
    }
  }

  lemma InsertBefore(s: seq<Entry>, e: Entry, last: Entry)
    requires e.price < last.price
    ensures Insert(s + [last], e) == Insert(s, e) + [last]
  {
    assert (s + [last])[..|s + [last]| - 1] == s;
  }

  lemma SortedInit(s: seq<Entry>)
    requires Sorted(s) && s != []
    ensures Sorted(s[..|s| - 1])
  {
  }

  lemma SelectAtMost(s: seq<Entry>, sel: Selector, price: int)
    requires Sorted(s) && (s == [] || s[|s| - 1].price <= price)
    ensures var a := Select(s, sel); a == [] || a[|a| - 1].price <= price
  {
    var a := Select(s, sel);
    if a != [] { SelectMember(s, sel, a[|a| - 1]); }
  }

  lemma {:induction false} SelectOfInsert(s: seq<Entry>, e: Entry, sel: Selector)
    requires Sorted(s)
    ensures Select(Insert(s, e), sel) == if sel.Hits(e) then Insert(Select(s, sel), e) else Select(s, sel)
  {
    hide Sorted, Selector.Hits;
    if s == [] || s[|s| - 1].price <= e.price {
      SelectSnoc(s, e, sel);
      SelectAtMost(s, sel, e.price);
    } else {
      var init, last := s[..|s| - 1], s[|s| - 1];
      SortedInit(s);
      SelectOfInsert(init, e, sel);
      SelectSnoc(Insert(init, e), last, sel);
      if sel.Hits(last) {
        InsertBefore(Select(init, sel), e, last);
      }
    }
  }

  lemma SortSnoc(l: seq<Entry>, e: Entry)
    ensures StableSort(l + [e]) == Insert(StableSort(l), e)
  {
    assert (l + [e])[..|l + [e]| - 1] == l;
  }

  /** Filtering and stable sorting commute. */
  lemma {:induction false} SelectOfSort(l: seq<Entry>, sel: Selector)
    ensures Select(StableSort(l), sel) == StableSort(Select(l, sel))
  {
    if l == [] {
    } else {
      var init, last := l[..|l| - 1], l[|l| - 1];
      SelectOfSort(init, sel);
      StableSortSorts(init);
      SelectOfInsert(StableSort(init), last, sel);
      SortSnoc(Select(init, sel), last);
    }
  }

  lemma {:induction false} SortOfUniform(l: seq<Entry>, price: int)
    requires forall i :: 0 <= i < |l| ==> l[i].price == price
    ensures StableSort(l) == l
  {
    if l == [] {
    } else {
      SortOfUniform(l[..|l| - 1], price);
      assert l == l[..|l| - 1] + [l[|l| - 1]];
    }
  }

  lemma AtPriceMember(s: seq<Entry>, price: int, x: Entry)
    ensures x in AtPrice(s, price) <==> x in s && x.price == price
  {
    SelectMember(Select(s, AtMost(price)), AtLeast(price), x);
    SelectMember(s, AtMost(price), x);
  }

  /** Stability: among equal prices the sorted slice keeps registration order. */
  lemma StableSortIsStable(l: seq<Entry>, price: int)
    ensures AtPrice(StableSort(l), price) == AtPrice(l, price)
  {
    SelectOfSort(l, AtMost(price));
    SelectOfSort(Select(l, AtMost(price)), AtLeast(price));
    var same := AtPrice(l, price);
    forall i | 0 <= i < |same|
      ensures same[i].price == price
    {
      AtPriceMember(l, price, same[i]);
    }
    SortOfUniform(same, price);
  }

  lemma AtPriceSnoc(s: seq<Entry>, e: Entry, price: int)
    ensures AtPrice(s + [e], price) == if e.price == price then AtPrice(s, price) + [e] else AtPrice(s, price)
  {
    SelectSnoc(s, e, AtMost(price));
    SelectSnoc(Select(s, AtMost(price)), e, AtLeast(price));
  }

  ghost predicate SamePrices(a: seq<Entry>, b: seq<Entry>) {
    forall p :: AtPrice(a, p) == AtPrice(b, p)
  }

  /** Sorted, and equal price by price, leaves one possibility: the two lemmas above determine the slice. */
  lemma {:induction false} SortedStableUnique(a: seq<Entry>, b: seq<Entry>)
    requires Sorted(a) && Sorted(b) && SamePrices(a, b)
    ensures a == b
  {
    if a == [] && b == [] {
    } else {
      SameLast(a, b);
      var a', b' := a[..|a| - 1], b[..|b| - 1];
      assert a == a' + [a[|a| - 1]] && b == b' + [b[|b| - 1]];
      DropLast(a', a[|a| - 1], b', b[|b| - 1]);
      SortedStableUnique(a', b');
    }
  }

  lemma SameLast(a: seq<Entry>, b: seq<Entry>)
    requires Sorted(a) && Sorted(b) && SamePrices(a, b) && (a != [] || b != [])
    ensures a != [] && b != [] && a[|a| - 1].price == b[|b| - 1].price
  {
    if a != [] { SamePriceMember(a, b, a[|a| - 1]); }
    if b != [] { SamePriceMember(b, a, b[|b| - 1]); }
  }

  lemma SamePriceMember(a: seq<Entry>, b: seq<Entry>, x: Entry)
    requires x in a && SamePrices(a, b)
    ensures x in b
  {
    assert AtPrice(a, x.price) == AtPrice(b, x.price);
    AtPriceMember(a, x.price, x);
    AtPriceMember(b, x.price, x);
  }

  lemma DropLast(a: seq<Entry>, x: Entry, b: seq<Entry>, y: Entry)
    requires x.price == y.price && SamePrices(a + [x], b + [y])
    ensures x == y && SamePrices(a, b)
  {
    var here := x.price;
    assert AtPrice(a + [x], here) == AtPrice(b + [y], here);
    AtPriceSnoc(a, x, here);
    AtPriceSnoc(b, y, here);
    assert x == AtPrice(a + [x], here)[|AtPrice(a, here)|] && |AtPrice(a, here)| == |AtPrice(b, here)|;
    forall p
      ensures AtPrice(a, p) == AtPrice(b, p)
    {
      assert AtPrice(a + [x], p) == AtPrice(b + [y], p);
      AtPriceSnoc(a, x, p);
      AtPriceSnoc(b, y, p);
      var u, v := AtPrice(a, p), AtPrice(b, p);
      assert (u + [x])[..|u|] == u && (v + [y])[..|v|] == v;
    }
  }
}
