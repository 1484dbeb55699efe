/**
 The circuit breaker against its call history: what each state says about the calls that led to it. Times
 are in nanoseconds, on a clock that each call reads.
 */
module CircuitBreaker {

  datatype CircuitState = CircuitClosed | CircuitOpen | CircuitHalfOpen

  datatype Config = Config(maxFailures: int, resetTimeout: int, halfOpenMaxAttempts: int)

  predicate Sane(cfg: Config) {
    cfg.maxFailures > 0 && cfg.resetTimeout > 0 && cfg.halfOpenMaxAttempts > 0
  }

  datatype Call = Asked(now: int) | Succeeded | Failed(now: int)

  datatype Snapshot = Snapshot(state: CircuitState, failures: int, successes: int, lastFailureTime: int)

  const START := Snapshot(CircuitClosed, 0, 0, 0)

  predicate Allowed(cfg: Config, s: Snapshot, now: int) {
    s.state != CircuitOpen || now - s.lastFailureTime >= cfg.resetTimeout
  }

  function Next(cfg: Config, s: Snapshot, c: Call): Snapshot {
    match c
    case Asked(now) =>
      if s.state == CircuitOpen && Allowed(cfg, s, now) then s.(state := CircuitHalfOpen, successes := 0) else s
    case Succeeded =>
      if s.state == CircuitHalfOpen then
        if s.successes + 1 >= cfg.halfOpenMaxAttempts
        then s.(state := CircuitClosed, failures := 0, successes := s.successes + 1)
        else s.(successes := s.successes + 1)
      else if s.state == CircuitClosed then s.(failures := 0)
      else s
    case Failed(now) =>
      var s' := s.(failures := s.failures + 1, lastFailureTime := now);
      if s.state == CircuitClosed && s'.failures >= cfg.maxFailures then s'.(state := CircuitOpen)
      else if s.state == CircuitHalfOpen then s'.(state := CircuitOpen, successes := 0)
      else s'
  }

  function Replay(cfg: Config, h: seq<Call>): Snapshot {
    if h == [] then START else Next(cfg, Replay(cfg, h[..|h| - 1]), h[|h| - 1])
  }

  // ---- What a history says ----

  /** Failures since the last success. */
  function TrailingFailures(h: seq<Call>): nat {
    if h == [] || h[|h| - 1].Succeeded? then 0
    else TrailingFailures(h[..|h| - 1]) + if h[|h| - 1].Failed? then 1 else 0
  }

  function Successes(h: seq<Call>): nat {
    if h == [] then 0 else Successes(h[..|h| - 1]) + if h[|h| - 1].Succeeded? then 1 else 0
  }

  predicate NoFailure(h: seq<Call>) {
    forall i :: 0 <= i < |h| ==> !h[i].Failed?
  }

  /** The time of the last failure, if there is one. */
  ghost predicate LastFailureAt(h: seq<Call>, t: int) {
    exists f :: 0 <= f < |h| && h[f] == Failed(t) && NoFailure(h[f + 1..])
  }

  /** A trial period began at `k`: a call asked at least the reset timeout after the failure last before it. */
  ghost predicate ProbesFrom(cfg: Config, h: seq<Call>, k: nat)
    requires k < |h|
  {
    && h[k].Asked? && NoFailure(h[k..])
    && exists t :: LastFailureAt(h[..k], t) && h[k].now - t >= cfg.resetTimeout
  }

  /** The failure at `f` opened the breaker: it completed a run of the maximum, or ended a trial period. */
  ghost predicate Trips(cfg: Config, h: seq<Call>, f: nat)
    requires f < |h|
  {
    h[f].Failed? && (TrailingFailures(h[..f + 1]) >= cfg.maxFailures || exists k :: 0 <= k < f && ProbesFrom(cfg, h[..f], k))
  }

  /** Since the failure at `f`, every call that asked came within the timeout of the latest failure before it. */
  ghost predicate RefusedSince(cfg: Config, h: seq<Call>, f: nat)
    requires f < |h|
  {
    forall i :: f < i < |h| && h[i].Asked? ==> exists t :: LastFailureAt(h[..i], t) && h[i].now - t < cfg.resetTimeout
  }

  ghost predicate Explained(cfg: Config, h: seq<Call>, s: Snapshot) {
    && (s.state != CircuitClosed ==> LastFailureAt(h, s.lastFailureTime))
    && match s.state
       case CircuitClosed => s.failures == TrailingFailures(h) < cfg.maxFailures
       case CircuitOpen => exists f :: 0 <= f < |h| && Trips(cfg, h, f) && RefusedSince(cfg, h, f)
       case CircuitHalfOpen =>
         exists k :: 0 <= k < |h| && ProbesFrom(cfg, h, k) && s.successes == Successes(h[k..]) < cfg.halfOpenMaxAttempts
  }

  // ---- One more call ----

  lemma LastFailureKept(h: seq<Call>, c: Call, t: int)
    requires LastFailureAt(h, t) && !c.Failed?
    ensures LastFailureAt(h + [c], t)
  {
    var f :| 0 <= f < |h| && h[f] == Failed(t) && NoFailure(h[f + 1..]);
    assert (h + [c])[f + 1..] == h[f + 1..] + [c];
    assert (h + [c])[f] == Failed(t) && NoFailure((h + [c])[f + 1..]);
  }

  lemma LastFailureNew(h: seq<Call>, now: int)
    ensures LastFailureAt(h + [Failed(now)], now)
  {
    assert (h + [Failed(now)])[|h|] == Failed(now) && (h + [Failed(now)])[|h| + 1..] == [];
  }

  lemma ProbesKept(cfg: Config, h: seq<Call>, k: nat, c: Call)
    requires k < |h| && ProbesFrom(cfg, h, k) && !c.Failed?
    ensures ProbesFrom(cfg, h + [c], k)
    ensures Successes((h + [c])[k..]) == Successes(h[k..]) + if c.Succeeded? then 1 else 0
  {
    assert (h + [c])[k..] == h[k..] + [c];
    assert (h[k..] + [c])[..|h[k..]|] == h[k..];
    assert (h + [c])[..k] == h[..k];
    var t :| LastFailureAt(h[..k], t) && h[k].now - t >= cfg.resetTimeout;
    assert LastFailureAt((h + [c])[..k], t) && (h + [c])[k] == h[k];
  }

  lemma ProbesNew(cfg: Config, h: seq<Call>, now: int, t: int)
    requires LastFailureAt(h, t) && now - t >= cfg.resetTimeout
    ensures ProbesFrom(cfg, h + [Asked(now)], |h|)
    ensures Successes((h + [Asked(now)])[|h|..]) == 0
  {
    var h' := h + [Asked(now)];
    assert h'[|h|..] == [Asked(now)] && h'[..|h|] == h;
    assert [Asked(now)][..0] == [];
  }

  lemma TripsKept(cfg: Config, h: seq<Call>, f: nat, c: Call, t: int)
    requires f < |h| && Trips(cfg, h, f) && RefusedSince(cfg, h, f)
    requires c.Asked? ==> LastFailureAt(h, t) && c.now - t < cfg.resetTimeout
    ensures Trips(cfg, h + [c], f) && RefusedSince(cfg, h + [c], f)
  {
    var h' := h + [c];
    assert h'[..f + 1] == h[..f + 1] && h'[..f] == h[..f];
    forall i | f < i < |h'| && h'[i].Asked?
      ensures exists t :: LastFailureAt(h'[..i], t) && h'[i].now - t < cfg.resetTimeout
    {
      assert h'[..i] == h[..i];
    }
  }

  lemma TripsNew(cfg: Config, h: seq<Call>, now: int)
    requires TrailingFailures(h) + 1 >= cfg.maxFailures || exists k :: 0 <= k < |h| && ProbesFrom(cfg, h, k)
    ensures Trips(cfg, h + [Failed(now)], |h|) && RefusedSince(cfg, h + [Failed(now)], |h|)
  {
    var h' := h + [Failed(now)];
    assert h'[..|h| + 1] == h' && h'[..|h|] == h;
  }

  lemma AskedIsExplained(cfg: Config, h: seq<Call>, s: Snapshot, now: int)
    requires Sane(cfg) && Explained(cfg, h, s)
    ensures Explained(cfg, h + [Asked(now)], Next(cfg, s, Asked(now)))
  {
    var c := Asked(now);
    assert (h + [c])[..|h|] == h;
    match s.state
    case CircuitClosed =>
    case CircuitOpen =>
      LastFailureKept(h, c, s.lastFailureTime);
      if Allowed(cfg, s, now) {
        ProbesNew(cfg, h, now, s.lastFailureTime);
      } else {
        var f :| 0 <= f < |h| && Trips(cfg, h, f) && RefusedSince(cfg, h, f);
        TripsKept(cfg, h, f, c, s.lastFailureTime);
      }
    case CircuitHalfOpen =>
      LastFailureKept(h, c, s.lastFailureTime);
      var k :| 0 <= k < |h| && ProbesFrom(cfg, h, k) && s.successes == Successes(h[k..]) < cfg.halfOpenMaxAttempts;
      ProbesKept(cfg, h, k, c);
  }

  lemma SucceededIsExplained(cfg: Config, h: seq<Call>, s: Snapshot)
    requires Sane(cfg) && Explained(cfg, h, s)
    ensures Explained(cfg, h + [Succeeded], Next(cfg, s, Succeeded))
  {
    match s.state
    case CircuitClosed =>
    case CircuitOpen =>
      LastFailureKept(h, Succeeded, s.lastFailureTime);
      var f :| 0 <= f < |h| && Trips(cfg, h, f) && RefusedSince(cfg, h, f);
      TripsKept(cfg, h, f, Succeeded, s.lastFailureTime);
    case CircuitHalfOpen =>
      LastFailureKept(h, Succeeded, s.lastFailureTime);
      var k :| 0 <= k < |h| && ProbesFrom(cfg, h, k) && s.successes == Successes(h[k..]) < cfg.halfOpenMaxAttempts;
      ProbesKept(cfg, h, k, Succeeded);
  }

  lemma FailedIsExplained(cfg: Config, h: seq<Call>, s: Snapshot, now: int)
    requires Sane(cfg) && Explained(cfg, h, s)
    ensures Explained(cfg, h + [Failed(now)], Next(cfg, s, Failed(now)))
  {
    var c := Failed(now);
    assert (h + [c])[..|h|] == h;
    LastFailureNew(h, now);
    match s.state
    case CircuitClosed =>
      if TrailingFailures(h) + 1 >= cfg.maxFailures { TripsNew(cfg, h, now); }
    case CircuitOpen =>
      var f :| 0 <= f < |h| && Trips(cfg, h, f) && RefusedSince(cfg, h, f);
      TripsKept(cfg, h, f, c, 0);
    case CircuitHalfOpen =>
      TripsNew(cfg, h, now);
  }

  /**
   Every state the breaker reaches is explained by its calls: closed means fewer than the maximum of
   failures since the last success; open, that some failure tripped it and nothing has been let through
   since; half-open, that a trial began a full timeout after the last failure and has not failed.
   */
  lemma {:induction false} StateIsExplained(cfg: Config, h: seq<Call>)
    requires Sane(cfg)
    ensures Explained(cfg, h, Replay(cfg, h))
  {
    if h == [] {
    } else {
      var init, c := h[..|h| - 1], h[|h| - 1];
      assert h == init + [c];
      StateIsExplained(cfg, init);
      match c
      case Asked(now) => AskedIsExplained(cfg, init, Replay(cfg, init), now);
      case Succeeded => SucceededIsExplained(cfg, init, Replay(cfg, init));
      case Failed(now) => FailedIsExplained(cfg, init, Replay(cfg, init), now);
    }
  }

  /**
   What being let through means: fewer than the maximum of failures since the last success, or a trial
   that started at least the timeout after the latest failure before it and has seen none since.
   */
  lemma AllowedMeans(cfg: Config, h: seq<Call>, now: int)
    requires Sane(cfg) && Allowed(cfg, Replay(cfg, h), now)
    ensures TrailingFailures(h) < cfg.maxFailures ||
            exists k :: 0 <= k <= |h| && ProbesFrom(cfg, h + [Asked(now)], k)
  {
    StateIsExplained(cfg, h);
    var s := Replay(cfg, h);
    if s.state == CircuitOpen {
      ProbesNew(cfg, h, now, s.lastFailureTime);
    } else if s.state == CircuitHalfOpen {
      var k :| 0 <= k < |h| && ProbesFrom(cfg, h, k);
      ProbesKept(cfg, h, k, Asked(now));
    }
  }

  /** What being refused means: the breaker was tripped, and the latest failure is within the timeout. */
  lemma RefusedMeans(cfg: Config, h: seq<Call>, now: int)
    requires Sane(cfg) && !Allowed(cfg, Replay(cfg, h), now)
    ensures exists t :: LastFailureAt(h, t) && now - t < cfg.resetTimeout
    ensures exists f :: 0 <= f < |h| && Trips(cfg, h, f) && RefusedSince(cfg, h, f)
  {
    StateIsExplained(cfg, h);
  }

  /** Nothing closes the breaker but a success, and it takes the full number since the trial began, with no failure among them. */
  lemma ClosingNeedsFullTrial(cfg: Config, h: seq<Call>, c: Call)
    requires Sane(cfg)
    requires Replay(cfg, h).state != CircuitClosed && Replay(cfg, h + [c]).state == CircuitClosed
    ensures c.Succeeded?
    ensures exists k :: 0 <= k < |h| && ProbesFrom(cfg, h + [c], k) && Successes((h + [c])[k..]) == cfg.halfOpenMaxAttempts
  {
    var s := Replay(cfg, h);
    assert s.state == CircuitHalfOpen && c == Succeeded && s.successes + 1 >= cfg.halfOpenMaxAttempts by {
      assert (h + [c])[..|h|] == h;
    }
    StateIsExplained(cfg, h);
    hide Replay, ProbesFrom, LastFailureAt, Trips, RefusedSince;
    var k :| 0 <= k < |h| && ProbesFrom(cfg, h, k) && s.successes == Successes(h[k..]) < cfg.halfOpenMaxAttempts;
    ProbesKept(cfg, h, k, Succeeded);
  }

  /** A failure leaves the breaker closed exactly if it was and fewer than the maximum have failed in a row, and open otherwise. */
  lemma OpensExactlyWhen(cfg: Config, h: seq<Call>, now: int)
    requires Sane(cfg)
    ensures Replay(cfg, h + [Failed(now)]).state ==
      if Replay(cfg, h).state == CircuitClosed && TrailingFailures(h) + 1 < cfg.maxFailures then CircuitClosed else CircuitOpen
  {
    var h' := h + [Failed(now)];
    assert h'[..|h|] == h;
    StateIsExplained(cfg, h);
    StateIsExplained(cfg, h');
  }

  function AskedAt(times: seq<int>): seq<Call> {
    seq(|times|, i requires 0 <= i < |times| => Asked(times[i]))
  }

  /**
   The configured number of half-open attempts limits successes, not calls: once half-open, any number
   of calls is let through before the first of them comes back.
   */
  lemma {:induction false} HalfOpenIsUncapped(cfg: Config, h: seq<Call>, times: seq<int>, now: int)
    requires Replay(cfg, h).state == CircuitHalfOpen
    ensures Replay(cfg, h + AskedAt(times)) == Replay(cfg, h)
    ensures Allowed(cfg, Replay(cfg, h + AskedAt(times)), now)
  {
    if times == [] {
      assert h + AskedAt(times) == h;
    } else {
      var n := |times| - 1;
      HalfOpenIsUncapped(cfg, h, times[..n], times[n]);
      assert (h + AskedAt(times))[..|h + AskedAt(times)| - 1] == h + AskedAt(times[..n]);
    }
  }

  // ---- The breaker ----

  class Breaker {
    const cfg: Config
    var state: CircuitState
    var failures: int
    var successes: int
    var lastFailureTime: int
    ghost var history: seq<Call>

    ghost predicate Valid()
      reads this
    {
      Sane(cfg) && Replay(cfg, history) == Snapshot(state, failures, successes, lastFailureTime)
    }

    constructor (cfg: Config)
      ensures Valid() && history == []
      ensures this.cfg.maxFailures == (if cfg.maxFailures > 0 then cfg.maxFailures else 5)
      ensures this.cfg.resetTimeout == (if cfg.resetTimeout > 0 then cfg.resetTimeout else 30 * 1_000_000_000)
      ensures this.cfg.halfOpenMaxAttempts == (if cfg.halfOpenMaxAttempts > 0 then cfg.halfOpenMaxAttempts else 2)
    {
      this.cfg := Config(if cfg.maxFailures <= 0 then 5 else cfg.maxFailures,
                         if cfg.resetTimeout <= 0 then 30_000_000_000 else cfg.resetTimeout,
                         if cfg.halfOpenMaxAttempts <= 0 then 2 else cfg.halfOpenMaxAttempts);
      state, failures, successes, lastFailureTime, history := CircuitClosed, 0, 0, 0, [];
    }

    ghost method Note(c: Call)
      modifies `history
      ensures history == old(history) + [c] && Replay(cfg, history) == Next(cfg, Replay(cfg, old(history)), c)
    {
      history := history + [c];
      assert history[..|history| - 1] == old(history);
    }

    method Allow(now: int) returns (ok: bool)
      requires Valid()
      modifies this
      ensures Valid() && history == old(history) + [Asked(now)]
      ensures ok <==> Allowed(cfg, Replay(cfg, old(history)), now)
    {
      Note(Asked(now));
      match state
      case CircuitClosed =>
        return true;
      case CircuitOpen =>
        if now - lastFailureTime >= cfg.resetTimeout {
          state := CircuitHalfOpen;
          successes := 0;
          return true;
        }
        return false;
      case CircuitHalfOpen =>
        return true;
    }

    method RecordSuccess()
      requires Valid()
      modifies this
      ensures Valid() && history == old(history) + [Succeeded]
    {
      Note(Succeeded);
      match state
      case CircuitHalfOpen =>
        successes := successes + 1;
        if successes >= cfg.halfOpenMaxAttempts {
          state := CircuitClosed;
          failures := 0;
        }
      case CircuitClosed =>
        failures := 0;
      case CircuitOpen =>
    }

    method RecordFailure(now: int)
      requires Valid()
      modifies this
      ensures Valid() && history == old(history) + [Failed(now)]
    {
      Note(Failed(now));
      failures := failures + 1;
      lastFailureTime := now;
      match state
      case CircuitClosed =>
        if failures >= cfg.maxFailures {
          state := CircuitOpen;
        }
      case CircuitHalfOpen =>
        state := CircuitOpen;
        successes := 0;
      case CircuitOpen =>
    }
  }
}
