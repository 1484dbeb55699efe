/** The manager's loops over level sequences, against the functions of `Lifecycle` that specify them. */
module LevelLoops {
  import opened Types
  import opened Amounts
  import opened Lifecycle

  // ---- OpenPosition's checks ----

  method CheckCancelOnFire(indices: seq<int>, count: nat) returns (ok: bool)
    ensures ok <==> forall k :: 0 <= k < |indices| ==> 0 <= indices[k] < count
  {
    for k := 0 to |indices|
      invariant forall j :: 0 <= j < k ==> 0 <= indices[j] < count
    {
      if indices[k] < 0 || indices[k] >= count {
        return false;
      }
    }
    return true;
  }

  /** The sum of the portions below `k`, as the source keeps it. */
  function TotalBelow(lps: seq<LevelParams>, k: nat): int
    requires k <= |lps|
  {
    Sum(BpsOfParams(lps)[..k]) % 0x1_0000_0000
  }

  lemma TotalNext(lps: seq<LevelParams>, k: nat)
    requires k < |lps|
    ensures TotalBelow(lps, k + 1) == (TotalBelow(lps, k) + lps[k].portionBps) % 0x1_0000_0000
  {
    var bps := BpsOfParams(lps);
    assert bps[..k + 1] == bps[..k] + [lps[k].portionBps as int];
    SumSnoc(bps[..k], lps[k].portionBps);
  }

  lemma TotalEnds(lps: seq<LevelParams>)
    ensures TotalBelow(lps, 0) == 0 && TotalBelow(lps, |lps|) == Sum(BpsOfParams(lps)) % 0x1_0000_0000
  {
    assert BpsOfParams(lps)[..|lps|] == BpsOfParams(lps);
  }

  /** Checks level by level, and sums the portions in uint32 as it goes. */
  method CheckLevels(lps: seq<LevelParams>) returns (ok: bool)
    ensures ok <==> ValidLevels(lps)
  {
    hide TotalBelow, Sum, BpsOfParams;
    TotalEnds(lps);
    if |lps| == 0 {
      return false;
    }
    var total := 0;
    for i := 0 to |lps|
      invariant forall j :: 0 <= j < i ==> ValidParams(lps, j)
      invariant total == TotalBelow(lps, i)
    {
      var lp := lps[i];
      if lp.triggerPrice <= 0 || lp.portionBps == 0 || lp.portionBps > BPS {
        assert !ValidParams(lps, i);
        return false;
      }
      TotalNext(lps, i);
      total := (total + lp.portionBps) % 0x1_0000_0000;
      var inRange := CheckCancelOnFire(lp.cancelOnFire, |lps|);
      if !inRange {
        assert !ValidParams(lps, i);
        return false;
      }
    }
    return total <= BPS;
  }

  method BuildLevels(lps: seq<LevelParams>) returns (ls: seq<Level>)
    ensures ls == Build(lps)
  {
    ls := [];
    for i := 0 to |lps|
      invariant ls == Build(lps)[..i]
    {
      ls := ls + [NewLevel(i, lps[i])];
    }
  }

  // ---- Searching ----

  method HasActive(ls: seq<Level>) returns (found: bool)
    ensures found <==> exists i :: 0 <= i < |ls| && ls[i].status == LevelActive
  {
    for i := 0 to |ls|
      invariant NoneIs(ls[..i], LevelActive)
    {
      if ls[i].status == LevelActive {
        return true;
      }
    }
    assert ls[..|ls|] == ls;
    return false;
  }

  method FindActiveSL(ls: seq<Level>) returns (r: Option<nat>)
    ensures r == ActiveSL(ls, 0)
  {
    for k := 0 to |ls|
      invariant ActiveSL(ls, 0) == ActiveSL(ls, k)
    {
      if ls[k].typ == SL && ls[k].status == LevelActive {
        return Some(k);
      }
    }
    return None;
  }

  // ---- Firing ----

  function IndexSet(s: seq<nat>): set<nat> {
    set j | j in s
  }

  /** The levels with `i` marked as executed, before any is cancelled. */
  function Marked(p: Position, i: nat, price: int): (r: seq<Level>)
    requires i < |p.levels|
  {
    p.levels[i := p.levels[i].(status := LevelTriggered, execPrice := Some(price),
                               execAmount := Some(MulBps(p.remainingSize, p.levels[i].portionBps)))]
  }

  /** What has been cancelled when the levels in `those` are. */
  ghost predicate CancelledSoFar(p: Position, i: nat, price: int, those: set<nat>, ls: seq<Level>, cancelled: seq<nat>)
    requires i < |p.levels|
  {
    ls == SetStatus(Marked(p, i, price), those, LevelCancelled) && IndexSet(cancelled) == those
  }

  lemma CancelOneMore(p: Position, i: nat, price: int, those: set<nat>, ls: seq<Level>, cancelled: seq<nat>, j: nat)
    requires i < |p.levels| && j < |p.levels| && CancelledSoFar(p, i, price, those, ls, cancelled)
    ensures CancelledSoFar(p, i, price, those + {j}, ls[j := ls[j].(status := LevelCancelled)], cancelled + [j])
    ensures ls[j].status == if j in those then LevelCancelled else if j == i then LevelTriggered else p.levels[j].status
  {
    var ls' := ls[j := ls[j].(status := LevelCancelled)];
    assert ls' == SetStatus(Marked(p, i, price), those + {j}, LevelCancelled);
    assert IndexSet(cancelled + [j]) == those + {j};
  }

  /** What level `i` takes down, as far as `among` reaches. */
  function TakenAmong(p: Position, i: nat, among: set<int>): set<nat>
    requires i < |p.levels|
  {
    set j | j in TakenDown(p, i) && j in among
  }

  lemma TakeOneMore(p: Position, i: nat, among: set<int>, j: nat)
    requires i < |p.levels|
    ensures TakenAmong(p, i, among + {j}) ==
      if j in TakenDown(p, i) then TakenAmong(p, i, among) + {j} else TakenAmong(p, i, among)
  {
  }

  /** Cancels level `j` if it is another active one. */
  method CancelIfActive(p: Position, i: nat, price: int, ghost among: set<int>, ls: seq<Level>, cancelled: seq<nat>, j: nat)
    returns (ls': seq<Level>, cancelled': seq<nat>)
    requires i < |p.levels| && j < |p.levels| && CancelledSoFar(p, i, price, TakenAmong(p, i, among), ls, cancelled)
    requires p.levels[i].typ == TP ==> j in p.levels[i].cancelOnFire
    ensures CancelledSoFar(p, i, price, TakenAmong(p, i, among + {j}), ls', cancelled')
  {
    CancelOneMore(p, i, price, TakenAmong(p, i, among), ls, cancelled, j);
    TakeOneMore(p, i, among, j);
    ls', cancelled' := ls, cancelled;
    if j != i && ls[j].status == LevelActive {
      ls', cancelled' := ls[j := ls[j].(status := LevelCancelled)], cancelled + [j];
    }
  }

  lemma NothingTaken(p: Position, i: nat, price: int)
    requires i < |p.levels|
    ensures CancelledSoFar(p, i, price, TakenAmong(p, i, {}), Marked(p, i, price), [])
  {
    assert TakenAmong(p, i, {}) == {};
    assert SetStatus(Marked(p, i, price), {}, LevelCancelled) == Marked(p, i, price);
  }

  /** Once everything that could be taken down has been visited, nothing is left to take. */
  lemma AllTaken(p: Position, i: nat, seen: set<int>)
    requires i < |p.levels|
    requires if p.levels[i].typ == SL then forall j :: 0 <= j < |p.levels| ==> j in seen
             else forall j :: j in p.levels[i].cancelOnFire ==> j in seen
    ensures TakenAmong(p, i, seen) == TakenDown(p, i)
  {
    assert forall j :: j in TakenDown(p, i) ==> j in seen;
  }

  /** A stop-loss cancels every other active level. */
  method CancelOthers(p: Position, i: nat, price: int) returns (ls: seq<Level>, cancelled: seq<nat>)
    requires i < |p.levels| && p.levels[i].typ == SL
    ensures CancelledSoFar(p, i, price, TakenDown(p, i), ls, cancelled)
  {
    hide *;
    ls, cancelled := Marked(p, i, price), [];
    ghost var seen: set<int> := {};
    NothingTaken(p, i, price);
    for j := 0 to |p.levels|
      invariant forall k :: k in seen <==> 0 <= k < j
      invariant CancelledSoFar(p, i, price, TakenAmong(p, i, seen), ls, cancelled)
    {
      ls, cancelled := CancelIfActive(p, i, price, seen, ls, cancelled, j);
      seen := seen + {j};
    }
    AllTaken(p, i, seen);
  }

  /** A take-profit cancels the active levels it lists; a negative index stops it short. */
  method CancelListed(p: Position, i: nat, price: int) returns (ok: bool, ls: seq<Level>, cancelled: seq<nat>)
    requires i < |p.levels| && p.levels[i].typ == TP
    ensures ok <==> !HasNegativeIndex(p.levels[i])
    ensures ok ==> CancelledSoFar(p, i, price, TakenDown(p, i), ls, cancelled)
  {
    hide CancelledSoFar, TakenAmong, SetStatus, Marked;
    var listed := p.levels[i].cancelOnFire;
    ls, cancelled := Marked(p, i, price), [];
    ghost var seen: set<int> := {};
    NothingTaken(p, i, price);
    for k := 0 to |listed|
      invariant forall j :: 0 <= j < k ==> listed[j] >= 0 && listed[j] in seen
      invariant forall x :: x in seen ==> x in listed
      invariant CancelledSoFar(p, i, price, TakenAmong(p, i, seen), ls, cancelled)
    {
      if listed[k] < 0 {
        return false, ls, cancelled;
      }
      if listed[k] < |p.levels| {
        ls, cancelled := CancelIfActive(p, i, price, seen, ls, cancelled, listed[k]);
      } else {
        TakeOneMore(p, i, seen, listed[k]);
      }
      seen := seen + {listed[k]};
    }
    AllTaken(p, i, seen);
    return true, ls, cancelled;
  }

  /** The new position in memory, and what the trigger index has to follow once it is stored. */
  method Fire(p: Position, i: nat, price: int)
    returns (ok: bool, p': Position, cancelled: seq<nat>, moved: Option<nat>)
    requires i < |p.levels| && p.levels[i].status == LevelActive
    ensures ok <==> !HasNegativeIndex(p.levels[i])
    ensures ok ==> p' == Fired(p, i, price) && IndexSet(cancelled) == TakenDown(p, i) && moved == MovedSL(p, i, price)
  {
    var amount := MulBps(p.remainingSize, p.levels[i].portionBps);
    var remaining := p.remainingSize - amount;
    if remaining <= 0 {
      remaining := 0;
    }
    var ls, state;
    moved := None;
    if p.levels[i].typ == SL {
      ls, cancelled := CancelOthers(p, i, price);
      state := StateClosed;
    } else {
      ok, ls, cancelled := CancelListed(p, i, price);
      if !ok {
        return false, p, cancelled, None;
      }
      if p.levels[i].moveSLTo.Some? && p.levels[i].moveSLTo.value > 0 {
        moved := FindActiveSL(ls);
        if moved.Some? {
          ActiveSLIsFirst(ls, 0);
          ls := ls[moved.value := ls[moved.value].(triggerPrice := p.levels[i].moveSLTo.value)];
        }
      }
      var hasActive := HasActive(ls);
      state := if !hasActive || remaining <= 0 then StateClosed else StatePartialClosed;
    }
    ok, p' := true, p.(levels := ls, remainingSize := remaining, state := state);
  }
}
