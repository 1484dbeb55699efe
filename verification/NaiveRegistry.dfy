/**
 A reference model of the trigger engine: one flat list of live registrations in the order they were
 made, searched linearly. The sorted, binary-searched index is shown to refine it over every history,
 and the effect of a whole price path is given in closed form.
 */
module NaiveRegistry {
  import opened Types
  import opened TriggerIndex

  datatype Registration = Registration(pair: TokenPair, up: bool, entry: Entry)

  datatype Op =
    | DoRegister(pair: TokenPair, up: bool, entry: Entry)
    | DoUnregister(pair: TokenPair, pos: PosId, level: nat)
    | DoUnregisterPosition(pair: TokenPair, pos: PosId)
    | DoUpdate(pair: TokenPair, up: bool, entry: Entry)
    | DoPrice(pair: TokenPair, price: int)

  /** One engine operation on the index, with the events it returns. */
  function Apply(ix: Index, op: Op): (Index, seq<Event>) {
    match op
    case DoRegister(pair, up, e) => (Register(ix, pair, up, e), [])
    case DoUnregister(pair, pos, level) => (Unregister(ix, pair, pos, level), [])
    case DoUnregisterPosition(pair, pos) => (Remove(ix, pair, OfPosition(pos)), [])
    case DoUpdate(pair, up, e) => (UpdateTriggerPrice(ix, pair, up, e), [])
    case DoPrice(pair, price) => OnPrice(ix, pair, price)
  }

  function Run(ix: Index, ops: seq<Op>): (Index, seq<Event>)
    decreases |ops|
  {
    if ops == [] then (ix, [])
    else
      var (ix1, now) := Apply(ix, ops[0]);
      var (ix2, later) := Run(ix1, ops[1..]);
      (ix2, now + later)
  }

  // ---- The naive registry ----

  /** The entries of one pair and side, in registration order. */
  function SideOf(l: seq<Registration>, pair: TokenPair, up: bool): seq<Entry> {
    if l == [] then []
    else
      var r, last := SideOf(l[..|l| - 1], pair, up), l[|l| - 1];
      if last.pair == pair && last.up == up then r + [last.entry] else r
  }

  /** Discards a pair's registrations that the selector of their side hits. */
  function Discard(l: seq<Registration>, pair: TokenPair, above: Selector, below: Selector): seq<Registration> {
    if l == [] then []
    else
      var r, last := Discard(l[..|l| - 1], pair, above, below), l[|l| - 1];
      if last.pair == pair && (if last.up then above else below).Hits(last.entry) then r else r + [last]
  }

  function NaiveApply(l: seq<Registration>, op: Op): (seq<Registration>, seq<Event>) {
    match op
    case DoRegister(pair, up, e) => (l + [Registration(pair, up, e)], [])
    case DoUnregister(pair, pos, level) => (Discard(l, pair, OfLevels(pos, {level}), OfLevels(pos, {level})), [])
    case DoUnregisterPosition(pair, pos) => (Discard(l, pair, OfPosition(pos), OfPosition(pos)), [])
    case DoUpdate(pair, up, e) =>
      (Discard(l, pair, OfLevels(e.pos, {e.level}), OfLevels(e.pos, {e.level})) + [Registration(pair, up, e)], [])
    case DoPrice(pair, price) => (Discard(l, pair, AtMost(price), AtLeast(price)), NaiveFired(l, pair, price))
  }

  /** A linear scan of the registrations, put in price order without disturbing equal prices; above first. */
  function NaiveFired(l: seq<Registration>, pair: TokenPair, price: int): seq<Event> {
    EventsOf(StableSort(Select(SideOf(l, pair, true), AtMost(price))), price, pair.chain) +
    EventsOf(StableSort(Select(SideOf(l, pair, false), AtLeast(price))), price, pair.chain)
  }

  function NaiveRun(l: seq<Registration>, ops: seq<Op>): (seq<Registration>, seq<Event>)
    decreases |ops|
  {
    if ops == [] then (l, [])
    else
      var (l1, now) := NaiveApply(l, ops[0]);
      var (l2, later) := NaiveRun(l1, ops[1..]);
      (l2, now + later)
  }

  /** Each slice is the stable sort of the registrations of its pair and side. */
  ghost predicate Represents(ix: Index, l: seq<Registration>) {
    forall pair, up :: At(ix, pair).Of(up) == StableSort(SideOf(l, pair, up))
  }

  lemma SideOfSnoc(l: seq<Registration>, r: Registration, pair: TokenPair, up: bool)
    ensures SideOf(l + [r], pair, up) ==
            if r.pair == pair && r.up == up then SideOf(l, pair, up) + [r.entry] else SideOf(l, pair, up)
  {
    assert (l + [r])[..|l + [r]| - 1] == l;
  }

  lemma {:induction false} SideOfDiscard(l: seq<Registration>, pair: TokenPair, above: Selector, below: Selector,
                                      q: TokenPair, up: bool)
    ensures SideOf(Discard(l, pair, above, below), q, up) ==
            if q == pair then Reject(SideOf(l, q, up), if up then above else below) else SideOf(l, q, up)
  {
    if l == [] {
    } else {
      var init, last := l[..|l| - 1], l[|l| - 1];
      SideOfDiscard(init, pair, above, below, q, up);
      SideOfSnoc(Discard(init, pair, above, below), last, q, up);
      SelectSnoc(SideOf(init, q, up), last.entry, Not(if up then above else below));
    }
  }

  lemma RegisterRefines(ix: Index, l: seq<Registration>, pair: TokenPair, up: bool, e: Entry)
    requires Represents(ix, l)
    ensures Represents(Register(ix, pair, up, e), l + [Registration(pair, up, e)])
  {
    var ix', r := Register(ix, pair, up, e), Registration(pair, up, e);
    forall q, u
      ensures At(ix', q).Of(u) == StableSort(SideOf(l + [r], q, u))
    {
      assert At(ix, q).Of(u) == StableSort(SideOf(l, q, u));
      SideOfSnoc(l, r, q, u);
      SortSnoc(SideOf(l, q, u), e);
    }
  }

  lemma DropRefines(ix: Index, l: seq<Registration>, pair: TokenPair, above: Selector, below: Selector)
    requires Represents(ix, l)
    ensures Represents(Drop(ix, pair, above, below), Discard(l, pair, above, below))
  {
    forall q, u
      ensures At(Drop(ix, pair, above, below), q).Of(u) == StableSort(SideOf(Discard(l, pair, above, below), q, u))
    {
      assert At(ix, q).Of(u) == StableSort(SideOf(l, q, u));
      SideOfDiscard(l, pair, above, below, q, u);
      var sel := Not(if u then above else below);
      SelectOfSort(SideOf(l, q, u), sel);
      if q == pair && pair !in ix {
        assert Select(StableSort(SideOf(l, q, u)), sel) == [];
      }
    }
  }

  /** One step of the engine is one step of the naive registry, with the same events in the same order. */
  lemma StepRefines(ix: Index, l: seq<Registration>, op: Op)
    requires Represents(ix, l)
    ensures Represents(Apply(ix, op).0, NaiveApply(l, op).0)
    ensures Apply(ix, op).1 == NaiveApply(l, op).1
  {
    match op
    case DoRegister(pair, up, e) => RegisterRefines(ix, l, pair, up, e);
    case DoUnregister(pair, pos, level) => DropRefines(ix, l, pair, OfLevels(pos, {level}), OfLevels(pos, {level}));
    case DoUnregisterPosition(pair, pos) => DropRefines(ix, l, pair, OfPosition(pos), OfPosition(pos));
    case DoUpdate(pair, up, e) =>
      var sel := OfLevels(e.pos, {e.level});
      DropRefines(ix, l, pair, sel, sel);
      RegisterRefines(Unregister(ix, pair, e.pos, e.level), Discard(l, pair, sel, sel), pair, up, e);
    case DoPrice(pair, price) =>
      DropRefines(ix, l, pair, AtMost(price), AtLeast(price));
      assert At(ix, pair).Of(true) == StableSort(SideOf(l, pair, true));
      assert At(ix, pair).Of(false) == StableSort(SideOf(l, pair, false));
      SelectOfSort(SideOf(l, pair, true), AtMost(price));
      SelectOfSort(SideOf(l, pair, false), AtLeast(price));
  }

  lemma {:induction false} RunRefines(ix: Index, l: seq<Registration>, ops: seq<Op>)
    requires Represents(ix, l)
    ensures Represents(Run(ix, ops).0, NaiveRun(l, ops).0)
    ensures Run(ix, ops).1 == NaiveRun(l, ops).1
    decreases |ops|
  {
    if ops == [] {
    } else {
      StepRefines(ix, l, ops[0]);
      RunRefines(Apply(ix, ops[0]).0, NaiveApply(l, ops[0]).0, ops[1..]);
    }
  }

  /**
   Over every history of the engine, starting empty: it emits exactly the naive registry's events,
   and each slice is sorted and holds exactly the multiset of live registrations, equal prices in
   registration order.
   */
  lemma EngineRefinesNaive(ops: seq<Op>, pair: TokenPair, up: bool, price: int)
    ensures Run(map[], ops).1 == NaiveRun([], ops).1
    ensures var slice, live := At(Run(map[], ops).0, pair).Of(up), SideOf(NaiveRun([], ops).0, pair, up);
      Sorted(slice) && multiset(slice) == multiset(live) && AtPrice(slice, price) == AtPrice(live, price)
  {
    RunRefines(map[], [], ops);
    var live := SideOf(NaiveRun([], ops).0, pair, up);
    assert At(Run(map[], ops).0, pair).Of(up) == StableSort(live);
    StableSortSorts(live);
    StableSortContents(live);
    StableSortIsStable(live, price);
  }

  // ---- A path of prices ----

  function PricePath(ix: Index, pair: TokenPair, prices: seq<int>): (Index, seq<Event>)
    decreases |prices|
  {
    if prices == [] then (ix, [])
    else
      var (ix1, now) := OnPrice(ix, pair, prices[0]);
      var (ix2, later) := PricePath(ix1, pair, prices[1..]);
      (ix2, now + later)
  }

  function Further(up: bool, p: int, q: int): int {
    if (if up then q <= p else p <= q) then p else q
  }

  /** The furthest a path goes towards one side: its maximum for `up`, its minimum otherwise. */
  function Extreme(up: bool, prices: seq<int>): (r: int)
    requires prices != []
    ensures r in prices
    ensures forall i :: 0 <= i < |prices| ==> if up then prices[i] <= r else r <= prices[i]
  {
    if |prices| == 1 then prices[0]
    else Further(up, prices[0], Extreme(up, prices[1..]))
  }

  /** The first price of a path that crosses an entry. */
  function FirstCrossing(e: Entry, up: bool, prices: seq<int>): Option<int> {
    if prices == [] then None
    else if Crossed(up, prices[0]).Hits(e) then Some(prices[0])
    else FirstCrossing(e, up, prices[1..])
  }

  lemma {:induction false} FirstCrossingIsFirst(e: Entry, up: bool, prices: seq<int>)
    ensures var r := FirstCrossing(e, up, prices);
      if r.None? then forall i :: 0 <= i < |prices| ==> !Crossed(up, prices[i]).Hits(e)
      else exists i :: 0 <= i < |prices| && prices[i] == r.value && Crossed(up, prices[i]).Hits(e) &&
                       forall j :: 0 <= j < i ==> !Crossed(up, prices[j]).Hits(e)
  {
    if prices == [] {
    } else if Crossed(up, prices[0]).Hits(e) {
      assert prices[0] == FirstCrossing(e, up, prices).value;
    } else {
      FirstCrossingIsFirst(e, up, prices[1..]);
      var r := FirstCrossing(e, up, prices);
      assert forall i :: 1 <= i < |prices| ==> prices[i] == prices[1..][i - 1];
      if r.Some? {
        var i :| 0 <= i < |prices| - 1 && prices[1..][i] == r.value && Crossed(up, prices[1..][i]).Hits(e) &&
                 forall j :: 0 <= j < i ==> !Crossed(up, prices[1..][j]).Hits(e);
        forall j | 0 <= j < i + 1
          ensures !Crossed(up, prices[j]).Hits(e)
        {
          if j > 0 { assert prices[j] == prices[1..][j - 1]; }
        }
        assert prices[i + 1] == r.value;
      }
    }
  }

  /** One event for each entry that the path crosses, carrying its first crossing price. */
  function Crossings(s: seq<Entry>, up: bool, prices: seq<int>, chain: ChainId): multiset<Event> {
    if s == [] then multiset{}
    else
      var r, e := Crossings(s[..|s| - 1], up, prices, chain), s[|s| - 1];
      match FirstCrossing(e, up, prices)
      case None => r
      case Some(p) => r + multiset{EventOf(e, p, chain)}
  }

  lemma CrossingsSnoc(s: seq<Entry>, e: Entry, up: bool, prices: seq<int>, chain: ChainId)
    ensures Crossings(s + [e], up, prices, chain) ==
      match FirstCrossing(e, up, prices)
      case None => Crossings(s, up, prices, chain)
      case Some(p) => Crossings(s, up, prices, chain) + multiset{EventOf(e, p, chain)}
  {
    assert (s + [e])[..|s + [e]| - 1] == s;
  }

  /** The first price of a path fires what it crosses; the rest of the path sees what it leaves. */
  lemma {:induction false} CrossingsStep(s: seq<Entry>, up: bool, prices: seq<int>, chain: ChainId)
    requires prices != []
    ensures Crossings(s, up, prices, chain) ==
            multiset(EventsOf(Select(s, Crossed(up, prices[0])), prices[0], chain)) +
            Crossings(Reject(s, Crossed(up, prices[0])), up, prices[1..], chain)
  {
    if s == [] {
    } else {
      CrossingsStep(s[..|s| - 1], up, prices, chain);
      if Crossed(up, prices[0]).Hits(s[|s| - 1]) {
        FiresNow(s, up, prices, chain);
      } else {
        FiresLater(s, up, prices, chain);
      }
    }
  }

  lemma FiresNow(s: seq<Entry>, up: bool, prices: seq<int>, chain: ChainId)
    requires s != [] && prices != [] && Crossed(up, prices[0]).Hits(s[|s| - 1])
    ensures var init, ev, sel := s[..|s| - 1], EventOf(s[|s| - 1], prices[0], chain), Crossed(up, prices[0]);
      Crossings(s, up, prices, chain) == Crossings(init, up, prices, chain) + multiset{ev} &&
      EventsOf(Select(s, sel), prices[0], chain) == EventsOf(Select(init, sel), prices[0], chain) + [ev] &&
      Reject(s, sel) == Reject(init, sel)
  {
    EventsSnoc(Select(s[..|s| - 1], Crossed(up, prices[0])), s[|s| - 1], prices[0], chain);
  }

  /** The event of the last entry, if the rest of the path fires it. */
  function LaterEvent(e: Entry, up: bool, prices: seq<int>, chain: ChainId): multiset<Event> {
    var first := FirstCrossing(e, up, prices);
    if first.Some? then multiset{EventOf(e, first.value, chain)} else multiset{}
  }

  lemma FiresLater(s: seq<Entry>, up: bool, prices: seq<int>, chain: ChainId)
    requires s != [] && prices != [] && !Crossed(up, prices[0]).Hits(s[|s| - 1])
    ensures var init, more, sel := s[..|s| - 1], LaterEvent(s[|s| - 1], up, prices[1..], chain), Crossed(up, prices[0]);
      Crossings(s, up, prices, chain) == Crossings(init, up, prices, chain) + more &&
      Select(s, sel) == Select(init, sel) &&
      Crossings(Reject(s, sel), up, prices[1..], chain) == Crossings(Reject(init, sel), up, prices[1..], chain) + more
  {
    var init, e, sel := s[..|s| - 1], s[|s| - 1], Crossed(up, prices[0]);
    CrossingsSnoc(Reject(init, sel), e, up, prices[1..], chain);
  }

  lemma {:induction false} CrossingsOfNothing(s: seq<Entry>, up: bool, chain: ChainId)
    ensures Crossings(s, up, [], chain) == multiset{}
  {
    if s == [] {
    } else {
      CrossingsOfNothing(s[..|s| - 1], up, chain);
    }
  }

  /** Passing two prices is the same as passing the one that goes further. */
  lemma {:induction false} RejectFurther(s: seq<Entry>, up: bool, p: int, q: int)
    ensures Reject(Reject(s, Crossed(up, p)), Crossed(up, q)) ==
            Reject(s, Crossed(up, Further(up, p, q)))
  {
    if s == [] {
    } else {
      var init, e := s[..|s| - 1], s[|s| - 1];
      RejectFurther(init, up, p, q);
      assert Crossed(up, Further(up, p, q)).Hits(e) == (Crossed(up, p).Hits(e) || Crossed(up, q).Hits(e));
      SelectSnoc(Reject(init, Crossed(up, p)), e, Not(Crossed(up, q)));
    }
  }

  lemma {:induction false} PathSurvivors(ix: Index, pair: TokenPair, prices: seq<int>)
    requires prices != []
    ensures At(PricePath(ix, pair, prices).0, pair).above == Reject(At(ix, pair).above, AtMost(Extreme(true, prices)))
    ensures At(PricePath(ix, pair, prices).0, pair).below == Reject(At(ix, pair).below, AtLeast(Extreme(false, prices)))
    decreases |prices|
  {
    var s, ix1 := At(ix, pair), OnPrice(ix, pair, prices[0]).0;
    AfterPrice(ix, pair, prices[0]);
    if |prices| > 1 {
      PathSurvivors(ix1, pair, prices[1..]);
      RejectFurther(s.above, true, prices[0], Extreme(true, prices[1..]));
      RejectFurther(s.below, false, prices[0], Extreme(false, prices[1..]));
    }
  }

  lemma AfterPrice(ix: Index, pair: TokenPair, price: int)
    ensures At(OnPrice(ix, pair, price).0, pair) ==
            Sides(Reject(At(ix, pair).above, AtMost(price)), Reject(At(ix, pair).below, AtLeast(price)))
  {
  }

  lemma {:induction false} PathEvents(ix: Index, pair: TokenPair, prices: seq<int>)
    ensures multiset(PricePath(ix, pair, prices).1) ==
            Crossings(At(ix, pair).above, true, prices, pair.chain) +
            Crossings(At(ix, pair).below, false, prices, pair.chain)
    decreases |prices|
  {
    var a, b := At(ix, pair).above, At(ix, pair).below;
    if prices == [] {
      CrossingsOfNothing(a, true, pair.chain);
      CrossingsOfNothing(b, false, pair.chain);
    } else {
      var (ix1, now) := OnPrice(ix, pair, prices[0]);
      AfterPrice(ix, pair, prices[0]);
      PathEvents(ix1, pair, prices[1..]);
      CrossingsStep(a, true, prices, pair.chain);
      CrossingsStep(b, false, prices, pair.chain);
    }
  }

  /**
   The price-path theorem. What a path leaves is what its extreme prices alone would leave; what it
   fires is each crossed entry once, with the first price that crossed it.
   */
  lemma PricePathTheorem(ix: Index, pair: TokenPair, prices: seq<int>)
    requires prices != []
    ensures var s, s' := At(ix, pair), At(PricePath(ix, pair, prices).0, pair);
      s'.above == Reject(s.above, AtMost(Extreme(true, prices))) &&
      s'.below == Reject(s.below, AtLeast(Extreme(false, prices)))
    ensures multiset(PricePath(ix, pair, prices).1) ==
            Crossings(At(ix, pair).above, true, prices, pair.chain) +
            Crossings(At(ix, pair).below, false, prices, pair.chain)
  {
    PathSurvivors(ix, pair, prices);
    PathEvents(ix, pair, prices);
  }

  /** The `i`-th price of the path is the first to reach the entry. */
  ghost predicate FirstReaches(up: bool, e: Entry, prices: seq<int>, i: nat) {
    i < |prices| && Reaches(up, e, prices[i]) && forall j :: 0 <= j < i ==> !Reaches(up, e, prices[j])
  }

  /** The event reports an entry of the pair at the first price of the path that reaches it. */
  ghost predicate ReportedOnPath(ix: Index, pair: TokenPair, prices: seq<int>, ev: Event) {
    exists up: bool, e: Entry, i: nat ::
      e in At(ix, pair).Of(up) && FirstReaches(up, e, prices, i) && Reports(ev, e, prices[i], pair.chain)
  }

  /** What the events of a path say: which entry, and the first price that reached it. */
  lemma {:induction false} PathReports(ix: Index, pair: TokenPair, prices: seq<int>)
    ensures forall ev :: ev in PricePath(ix, pair, prices).1 ==> ReportedOnPath(ix, pair, prices, ev)
    decreases |prices|
  {
    if prices != [] {
      var (ix1, now) := OnPrice(ix, pair, prices[0]);
      FiredMeans(ix, pair, prices[0]);
      PathReports(ix1, pair, prices[1..]);
      forall ev | ev in PricePath(ix, pair, prices).1
        ensures ReportedOnPath(ix, pair, prices, ev)
      {
        if ev in now {
          var up: bool, e: Entry :| e in At(ix, pair).Of(up) && Reaches(up, e, prices[0]) && Reports(ev, e, prices[0], pair.chain);
          assert FirstReaches(up, e, prices, 0);
        } else {
          LaterReports(ix, pair, prices, ev);
        }
      }
    }
  }

  lemma LaterReports(ix: Index, pair: TokenPair, prices: seq<int>, ev: Event)
    requires prices != [] && ReportedOnPath(OnPrice(ix, pair, prices[0]).0, pair, prices[1..], ev)
    ensures ReportedOnPath(ix, pair, prices, ev)
  {
    var ix1 := OnPrice(ix, pair, prices[0]).0;
    var up: bool, e: Entry, i: nat :|
      e in At(ix1, pair).Of(up) && FirstReaches(up, e, prices[1..], i) && Reports(ev, e, prices[1..][i], pair.chain);
    AfterPrice(ix, pair, prices[0]);
    SelectMember(At(ix, pair).Of(up), Not(Crossed(up, prices[0])), e);
    forall j | 0 <= j < i + 1
      ensures !Reaches(up, e, prices[j])
    {
      if j > 0 { assert prices[j] == prices[1..][j - 1]; }
    }
    assert FirstReaches(up, e, prices, i + 1);
  }

  /** An entry fires on a path exactly when the path's extreme reaches it. */
  lemma CrossedByExtreme(e: Entry, up: bool, prices: seq<int>)
    requires prices != []
    ensures FirstCrossing(e, up, prices).Some? <==> Crossed(up, Extreme(up, prices)).Hits(e)
  {
    FirstCrossingIsFirst(e, up, prices);
    var r := Extreme(up, prices);
    var i :| 0 <= i < |prices| && prices[i] == r;
  }

  /** Repeating a price fires nothing and changes nothing. */
  lemma RepeatIsSilent(ix: Index, pair: TokenPair, price: int)
    ensures OnPrice(OnPrice(ix, pair, price).0, pair, price) == (OnPrice(ix, pair, price).0, [])
  {
    var ix1 := OnPrice(ix, pair, price).0;
    SilentSide(At(ix, pair).above, AtMost(price));
    SilentSide(At(ix, pair).below, AtLeast(price));
    var (ix2, again) := OnPrice(ix1, pair, price);
    assert |again| == 0;
    if pair in ix {
      assert ix1[pair] == Sides(Reject(ix[pair].above, AtMost(price)), Reject(ix[pair].below, AtLeast(price)));
      assert ix2[pair] == ix1[pair];
    }
    assert ix2 == ix1;
  }

  lemma SilentSide(s: seq<Entry>, sel: Selector)
    ensures Select(Reject(s, sel), sel) == [] && Reject(Reject(s, sel), sel) == Reject(s, sel)
  {
    var t := Reject(s, sel);
    forall x | x in t
      ensures !sel.Hits(x)
    {
      SelectMember(s, Not(sel), x);
    }
    SelectUniform(t, sel, false);
    SelectUniform(t, Not(sel), true);
  }
}
