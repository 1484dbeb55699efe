/**
 The trigger engine as it is built: per pair two slices over growable arrays, searched by bisection,
 shifted and compacted in place. Every method is proved equal to its `TriggerIndex` function.
 */
module TriggerEngine {
  import opened Types
  import opened TriggerIndex

  /** A slice header: a window of `len` entries at `off` in a backing array. */
  datatype Slice = Slice(buf: array<Entry>, off: nat, len: nat) {
    /** The window shows exactly `c`. */
    ghost predicate Shows(c: seq<Entry>)
      reads buf
    {
      off + len <= buf.Length && |c| == len && forall j :: 0 <= j < len ==> c[j] == buf[off + j]
    }

    function From(n: nat): Slice
      requires n <= len
    {
      Slice(buf, off + n, len - n)
    }

    function UpTo(n: nat): Slice
      requires n <= len
    {
      Slice(buf, off, n)
    }

    lemma Reslice(c: seq<Entry>, n: nat)
      requires Shows(c) && n <= len
      ensures From(n).Shows(c[n..]) && UpTo(n).Shows(c[..n])
    {
      forall j | 0 <= j < len - n
        ensures c[n..][j] == buf[off + n + j]
      {
        assert c[n + j] == buf[off + (n + j)];
      }
    }
  }

  /** Bisection for the first entry that `stop` hits, when hits are closed upwards. */
  method Search(s: Slice, stop: Selector, ghost c: seq<Entry>) returns (i: nat)
    requires s.Shows(c)
    requires forall j, k :: 0 <= j < k < s.len && stop.Hits(c[j]) ==> stop.Hits(c[k])
    ensures i <= s.len
    ensures forall j :: 0 <= j < s.len ==> (stop.Hits(c[j]) <==> i <= j)
  {
    var j: nat;
    i, j := 0, s.len;
    while i < j
      invariant i <= j <= s.len
      invariant forall k :: 0 <= k < i ==> !stop.Hits(c[k])
      invariant forall k :: j <= k < s.len ==> stop.Hits(c[k])
    {
      var h := (i + j) / 2;
      assert c[h] == s.buf[s.off + h];
      if !stop.Hits(s.buf[s.off + h]) {
        i := h + 1;
      } else {
        j := h;
      }
    }
  }

  /** Room for one more entry behind the window, moving to a larger array when there is none. */
  method Grow(s: Slice, ghost c: seq<Entry>) returns (r: Slice)
    requires s.Shows(c)
    ensures r.Shows(c) && r.off + r.len < r.buf.Length
    ensures r.buf == s.buf || fresh(r.buf)
  {
    if s.off + s.len < s.buf.Length {
      return s;
    }
    var bigger := new Entry[2 * s.len + 1];
    var k := 0;
    while k < s.len
      invariant 0 <= k <= s.len
      invariant forall j :: 0 <= j < k ==> bigger[j] == c[j]
    {
      bigger[k] := s.buf[s.off + k];
      assert c[k] == bigger[k];
      k := k + 1;
    }
    r := Slice(bigger, 0, s.len);
  }

  /** Moves `buf[lo..hi]` one place up, from the back so that nothing is overwritten early. */
  method ShiftUp(buf: array<Entry>, lo: nat, hi: nat)
    requires lo <= hi < buf.Length
    modifies buf
    ensures forall j :: 0 <= j <= lo ==> buf[j] == old(buf[j])
    ensures forall j :: lo < j <= hi ==> buf[j] == old(buf[j - 1])
  {
    var k := hi;
    while lo < k
      invariant lo <= k <= hi
      invariant forall j :: 0 <= j <= k ==> buf[j] == old(buf[j])
      invariant forall j :: k < j <= hi ==> buf[j] == old(buf[j - 1])
    {
      buf[k] := buf[k - 1];
      k := k - 1;
    }
  }

  ghost predicate IsInsertion(s: seq<Entry>, e: Entry, i: nat, r: seq<Entry>)
    requires i <= |s|
  {
    && |r| == |s| + 1 && r[i] == e
    && (forall j :: 0 <= j < i ==> r[j] == s[j])
    && (forall j :: i < j < |r| ==> r[j] == s[j - 1])
  }

  lemma InsertCut(s: seq<Entry>, e: Entry, i: nat) returns (r: seq<Entry>)
    requires i <= |s|
    requires forall j :: 0 <= j < |s| ==> (Above(e.price).Hits(s[j]) <==> i <= j)
    ensures r == Insert(s, e) && IsInsertion(s, e, i, r)
  {
    assert forall k :: 0 <= k < |s| ==> (Above(e.price).Hits(s[k]) <==> e.price < s[k].price);
    InsertAt(s, e, i);
    r := s[..i] + [e] + s[i..];
  }

  method InsertEntry(s: Slice, e: Entry, ghost c: seq<Entry>) returns (r: Slice)
    requires s.Shows(c) && Sorted(c)
    modifies s.buf
    ensures r.Shows(Insert(c, e))
    ensures r.buf == s.buf || fresh(r.buf)
  {
    var i := Search(s, Above(e.price), c);
    ghost var d := InsertCut(c, e, i);
    var g := Grow(s, c);
    PutAt(g, i, e, c, d);
    r := Slice(g.buf, g.off, g.len + 1);
  }

  method PutAt(g: Slice, i: nat, e: Entry, ghost c: seq<Entry>, ghost d: seq<Entry>)
    requires g.Shows(c) && g.off + g.len < g.buf.Length && i <= g.len
    requires IsInsertion(c, e, i, d)
    modifies g.buf
    ensures Slice(g.buf, g.off, g.len + 1).Shows(d)
  {
    var buf, off := g.buf, g.off;
    ShiftUp(buf, off + i, off + g.len);
    buf[off + i] := e;
    forall j | 0 <= j < i
      ensures d[j] == buf[off + j]
    {
      assert c[j] == old(buf[off + j]);
    }
    forall j | i < j < |d|
      ensures d[j] == buf[off + j]
    {
      assert c[j - 1] == old(buf[off + (j - 1)]);
      assert off + (j - 1) == off + j - 1;
    }
  }

  /** Stable in-place compaction. */
  method RemoveEntries(s: Slice, sel: Selector, ghost c: seq<Entry>) returns (r: Slice)
    requires s.Shows(c)
    modifies s.buf
    ensures r.Shows(Reject(c, sel))
    ensures r.buf == s.buf
  {
    var buf, off := s.buf, s.off;
    var n, k := 0, 0;
    ghost var kept: seq<Entry> := [];
    while k < s.len
      invariant 0 <= n == |kept| <= k <= s.len
      invariant kept == Reject(c[..k], sel)
      invariant forall j :: 0 <= j < n ==> kept[j] == buf[off + j]
      invariant forall j :: k <= j < s.len ==> c[j] == buf[off + j]
    {
      RejectNext(c, k, sel);
      var e := buf[off + k];
      assert e == c[k];
      if !sel.Hits(e) {
        buf[off + n] := e;
        kept := kept + [e];
        n := n + 1;
      }
      k := k + 1;
    }
    assert c[..k] == c;
    r := Slice(buf, off, n);
  }

  lemma RejectNext(s: seq<Entry>, k: nat, sel: Selector)
    requires k < |s|
    ensures Reject(s[..k + 1], sel) == if sel.Hits(s[k]) then Reject(s[..k], sel) else Reject(s[..k], sel) + [s[k]]
  {
    assert s[..k + 1] == s[..k] + [s[k]];
    SelectSnoc(s[..k], s[k], Not(sel));
  }

  /** The events of the window's entries from `lo` to `hi`, in order. */
  method Collect(s: Slice, lo: nat, hi: nat, price: int, chain: ChainId, ghost c: seq<Entry>) returns (events: seq<Event>)
    requires s.Shows(c) && lo <= hi <= s.len
    ensures events == EventsOf(c[lo..hi], price, chain)
    ensures |events| == hi - lo && forall k :: 0 <= k < |events| ==> Reports(events[k], c[lo + k], price, chain)
  {
    EventsReport(c[lo..hi], price, chain);
    events := [];
    var i := lo;
    while i < hi
      invariant lo <= i <= hi
      invariant events == EventsOf(c[lo..i], price, chain)
    {
      assert c[i] == s.buf[s.off + i];
      assert c[lo..i + 1] == c[lo..i] + [c[i]];
      EventsSnoc(c[lo..i], c[i], price, chain);
      events := events + [EventOf(s.buf[s.off + i], price, chain)];
      i := i + 1;
    }
  }

  /** What the engine keeps for one pair. */
  datatype PairTriggers = PairTriggers(above: Slice, below: Slice) {
    function Of(up: bool): Slice {
      if up then above else below
    }

    function With(up: bool, s: Slice): PairTriggers {
      if up then this.(above := s) else this.(below := s)
    }
  }

  lemma CreateSorted(ix: Index, pair: TokenPair)
    requires SortedIndex(ix)
    ensures SortedIndex(ix[pair := NO_SIDES])
  {
  }

  lemma RegisterCreates(ix: Index, pair: TokenPair, up: bool, e: Entry)
    ensures pair !in ix ==> Register(ix[pair := NO_SIDES], pair, up, e) == Register(ix, pair, up, e)
  {
  }

  class Engine {
    var pairs: map<TokenPair, PairTriggers>
    ghost var Contents: Index
    ghost var owner: map<array?<Entry>, (TokenPair, bool)>  // whose backing array it is: no two slices share one

    ghost predicate Valid()
      reads this, owner.Keys
    {
      SortedIndex(Contents) && Consistent(pairs, Contents, owner)
    }

    /** Every slice has its own backing array, and shows what the contents say. */
    static ghost predicate Consistent(ps: map<TokenPair, PairTriggers>, c: Index, own: map<array?<Entry>, (TokenPair, bool)>)
      reads own.Keys
    {
      && Owned(ps, c, own)
      && forall p :: p in ps ==> ps[p].above.Shows(c[p].above) && ps[p].below.Shows(c[p].below)
    }

    /** The engine owns no array it did not own before, except new ones. */
    twostate predicate Grown()
      reads this
    {
      forall a :: a in owner && a !in old(owner) ==> fresh(a)
    }

    static ghost predicate Owned(ps: map<TokenPair, PairTriggers>, c: Index, own: map<array?<Entry>, (TokenPair, bool)>) {
      && (forall p :: p in c ==> p in ps)
      && (forall p :: p in ps ==>
            && p in c
            && ps[p].above.buf in own && own[ps[p].above.buf] == (p, true)
            && ps[p].below.buf in own && own[ps[p].below.buf] == (p, false))
    }

    constructor ()
      ensures Valid() && fresh(owner.Keys) && Contents == map[]
    {
      pairs, Contents, owner := map[], map[], map[];
    }

    method Create(pair: TokenPair)
      requires Consistent(pairs, Contents, owner) && pair !in pairs
      modifies this
      ensures Consistent(pairs, Contents, owner) && Grown()
      ensures pair in pairs
      ensures Contents == old(Contents)[pair := NO_SIDES]
    {
      hide Consistent, Owned, Slice.Shows;
      var pt := NewPair();
      ghost var own := owner[pt.above.buf := (pair, true)][pt.below.buf := (pair, false)];
      AddPair(pairs, Contents, owner, own, pair, pt);
      pairs, Contents, owner := pairs[pair := pt], Contents[pair := NO_SIDES], own;
    }

    static method NewPair() returns (pt: PairTriggers)
      ensures pt.above.Shows([]) && pt.below.Shows([])
      ensures fresh(pt.above.buf) && fresh(pt.below.buf) && pt.above.buf != pt.below.buf
    {
      var a, b := new Entry[0], new Entry[0];
      pt := PairTriggers(Slice(a, 0, 0), Slice(b, 0, 0));
    }

    static lemma AddPair(ps: map<TokenPair, PairTriggers>, ix: Index, own: map<array?<Entry>, (TokenPair, bool)>,
                         own': map<array?<Entry>, (TokenPair, bool)>, pair: TokenPair, pt: PairTriggers)
      requires Consistent(ps, ix, own) && pair !in ps
      requires pt.above.buf !in own && pt.below.buf !in own && pt.above.buf != pt.below.buf
      requires pt.above.Shows([]) && pt.below.Shows([])
      requires own' == own[pt.above.buf := (pair, true)][pt.below.buf := (pair, false)]
      ensures Consistent(ps[pair := pt], ix[pair := NO_SIDES], own')
    {
      assert Owned(ps[pair := pt], ix[pair := NO_SIDES], own');
    }

    /** Replaces one slice of a pair, whose backing array is the old one or new. */
    method Put(pair: TokenPair, up: bool, s: Slice, ghost c: seq<Entry>)
      requires pair in pairs && Owned(pairs, Contents, owner)
      requires forall p :: p in pairs && p != pair ==>
        pairs[p].above.Shows(Contents[p].above) && pairs[p].below.Shows(Contents[p].below)
      requires pairs[pair].Of(!up).Shows(Contents[pair].Of(!up))
      requires s.Shows(c)
      requires s.buf in owner ==> owner[s.buf] == (pair, up)
      modifies this
      ensures Consistent(pairs, Contents, owner)
      ensures Contents == old(Contents)[pair := old(Contents)[pair].With(up, c)]
      ensures owner == old(owner)[s.buf := (pair, up)]
      ensures pair in pairs
    {
      hide Consistent, Slice.Shows;
      PutPair(pairs, Contents, owner, pair, up, s, c);
      pairs := pairs[pair := pairs[pair].With(up, s)];
      Contents, owner := Contents[pair := Contents[pair].With(up, c)], owner[s.buf := (pair, up)];
    }

    static lemma PutPair(ps: map<TokenPair, PairTriggers>, ix: Index, own: map<array?<Entry>, (TokenPair, bool)>,
                         pair: TokenPair, up: bool, s: Slice, c: seq<Entry>)
      requires pair in ps && Owned(ps, ix, own)
      requires forall p :: p in ps && p != pair ==> ps[p].above.Shows(ix[p].above) && ps[p].below.Shows(ix[p].below)
      requires ps[pair].Of(!up).Shows(ix[pair].Of(!up)) && s.Shows(c)
      requires s.buf in own ==> own[s.buf] == (pair, up)
      ensures Consistent(ps[pair := ps[pair].With(up, s)], ix[pair := ix[pair].With(up, c)], own[s.buf := (pair, up)])
    {
      hide Slice.Shows, Owned;
      PutOwned(ps, ix, own, pair, up, s, c);
      assert forall p :: p in ps <==> p in ps[pair := ps[pair].With(up, s)];
    }

    static lemma PutOwned(ps: map<TokenPair, PairTriggers>, ix: Index, own: map<array?<Entry>, (TokenPair, bool)>,
                          pair: TokenPair, up: bool, s: Slice, c: seq<Entry>)
      requires pair in ps && Owned(ps, ix, own)
      requires s.buf in own ==> own[s.buf] == (pair, up)
      ensures pair in ix
      ensures Owned(ps[pair := ps[pair].With(up, s)], ix[pair := ix[pair].With(up, c)], own[s.buf := (pair, up)])
    {
    }

    method Register(pair: TokenPair, posID: PosId, levelIdx: nat, levelType: LevelType, direction: Direction, triggerPrice: int)
      requires Valid()
      modifies this, owner.Keys
      ensures Valid() && Grown()
      ensures Contents == TriggerIndex.Register(old(Contents), pair, FiresAbove(levelType, direction),
                                                Entry(triggerPrice, posID, levelIdx, levelType))
    {
      var e := Entry(triggerPrice, posID, levelIdx, levelType);
      RegisterCreates(Contents, pair, FiresAbove(levelType, direction), e);
      if pair !in pairs {
        Create(pair);
        CreateSorted(old(Contents), pair);
      }
      InsertSide(pair, FiresAbove(levelType, direction), e);
    }

    method InsertSide(pair: TokenPair, up: bool, e: Entry)
      requires Valid() && pair in pairs
      modifies this, owner.Keys
      ensures Valid() && Grown()
      ensures Contents == TriggerIndex.Register(old(Contents), pair, up, e)
    {
      ghost var c := Contents[pair].Of(up);
      RegisterSorted(Contents, pair, up, e);
      var s := InsertEntry(pairs[pair].Of(up), e, c);
      Put(pair, up, s, Insert(c, e));
    }

    /** Both slices of the pair lose what the selector hits: a level's triggers, or a position's. */
    method Remove(pair: TokenPair, sel: Selector)
      requires Valid()
      modifies this, owner.Keys
      ensures Valid() && Grown()
      ensures Contents == TriggerIndex.Remove(old(Contents), pair, sel)
    {
      if pair in pairs {
        RemoveSide(pair, true, sel);
        RemoveSide(pair, false, sel);
      }
    }

    method RemoveSide(pair: TokenPair, up: bool, sel: Selector)
      requires Valid() && pair in pairs
      modifies this, owner.Keys
      ensures Valid() && Grown() && pair in pairs
      ensures Contents == DropSide(old(Contents), pair, up, sel)
    {
      ghost var c := Contents[pair].Of(up);
      DropSideSorted(Contents, pair, up, sel);
      var s := RemoveEntries(pairs[pair].Of(up), sel, c);
      Put(pair, up, s, Reject(c, sel));
    }

    method Unregister(pair: TokenPair, posID: PosId, levelIdx: nat)
      requires Valid()
      modifies this, owner.Keys
      ensures Valid() && Grown()
      ensures Contents == TriggerIndex.Unregister(old(Contents), pair, posID, levelIdx)
    {
      Remove(pair, OfLevels(posID, {levelIdx}));
    }

    method UnregisterPosition(pair: TokenPair, posID: PosId)
      requires Valid()
      modifies this, owner.Keys
      ensures Valid() && Grown()
      ensures Contents == TriggerIndex.Remove(old(Contents), pair, OfPosition(posID))
    {
      Remove(pair, OfPosition(posID));
    }

    method UpdateTriggerPrice(pair: TokenPair, posID: PosId, levelIdx: nat, levelType: LevelType, direction: Direction, newPrice: int)
      requires Valid()
      modifies this, owner.Keys
      ensures Valid() && Grown()
      ensures Contents == TriggerIndex.UpdateTriggerPrice(old(Contents), pair, FiresAbove(levelType, direction),
                                                          Entry(newPrice, posID, levelIdx, levelType))
    {
      Unregister(pair, posID, levelIdx);
      Register(pair, posID, levelIdx, levelType, direction, newPrice);
    }

    /** Fires and drops what the price crosses: a prefix of `above`, a suffix of `below`. */
    method OnPrice(pair: TokenPair, price: int) returns (events: seq<Event>)
      requires Valid()
      modifies this
      ensures Valid() && Grown()
      ensures (Contents, events) == TriggerIndex.OnPrice(old(Contents), pair, price)
      ensures forall ev :: ev in events ==> ev.price == price && ev.chain == pair.chain && Reported(old(Contents), pair, price, ev)
    {
      FiredMeans(Contents, pair, price);
      if pair !in pairs {
        assert |TriggerIndex.OnPrice(Contents, pair, price).1| == 0;
        return [];
      }
      events := FireAbove(pair, price);
      var more := FireBelow(pair, price);
      events := events + more;
    }

    method FireAbove(pair: TokenPair, price: int) returns (events: seq<Event>)
      requires Valid() && pair in pairs
      modifies this
      ensures Valid() && Grown() && pair in pairs
      ensures Contents == DropSide(old(Contents), pair, true, AtMost(price))
      ensures events == EventsOf(Select(old(Contents)[pair].above, AtMost(price)), price, pair.chain)
    {
      ghost var c := Contents[pair].above;
      var above := pairs[pair].above;
      var cutoff := Search(above, Above(price), c);
      CutAbove(c, cutoff, price);
      DropSideSorted(Contents, pair, true, AtMost(price));
      events := Collect(above, 0, cutoff, price, pair.chain, c);
      assert c[0..cutoff] == c[..cutoff];
      above.Reslice(c, cutoff);
      Put(pair, true, above.From(cutoff), c[cutoff..]);
    }

    method FireBelow(pair: TokenPair, price: int) returns (events: seq<Event>)
      requires Valid() && pair in pairs
      modifies this
      ensures Valid() && Grown() && pair in pairs
      ensures Contents == DropSide(old(Contents), pair, false, AtLeast(price))
      ensures events == EventsOf(Select(old(Contents)[pair].below, AtLeast(price)), price, pair.chain)
    {
      ghost var c := Contents[pair].below;
      var below := pairs[pair].below;
      var cutoff := Search(below, AtLeast(price), c);
      CutBelow(c, cutoff, price);
      DropSideSorted(Contents, pair, false, AtLeast(price));
      events := Collect(below, cutoff, below.len, price, pair.chain, c);
      assert c[cutoff..below.len] == c[cutoff..];
      below.Reslice(c, cutoff);
      Put(pair, false, below.UpTo(cutoff), c[..cutoff]);
    }
  }
}
