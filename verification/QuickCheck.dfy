/** The single-flight cache of the database quick check, for one engine. Requests interleave at
    their awaits; the clock is monotonic. */
module QuickCheck {
  import opened Rows

  datatype Check = Passed | FailedCheck

  const TTL := 300.0

  /** The cache and its lock. `holder` is the request inside the lock. */
  datatype Cache = Cache(result: Option<Check>, expiresAt: real, holder: Option<int>)

  function CachedAt(c: Cache, now: real): Option<Check> {
    if now >= c.expiresAt then None else c.result
  }

  /** Take the free lock and look again: a hit leaves at once, a miss stays in the lock to refresh. */
  function Entered(c: Cache, request: int, now: real): (Cache, Option<Check>) {
    var cached := CachedAt(c, now);
    (c.(holder := if cached.Some? then None else Some(request)), cached)
  }

  /** Leave the lock after a refresh; only a completed scan is stored. */
  function Left(c: Cache, now: real, live: Option<Check>): Cache {
    if live.Some? then Cache(live, now + TTL, None) else c.(holder := None)
  }

  /******* The object of the program *******/

  class CacheState {
    var result: Option<Check>
    var expiresAt: real
    var holder: Option<int>

    constructor ()
      ensures State() == Cache(None, 0.0, None)
    {
      result, expiresAt, holder := None, 0.0, None;
    }

    function State(): Cache
      reads this
    {
      Cache(result, expiresAt, holder)
    }

    method Cached(now: real) returns (cached: Option<Check>)
      ensures cached == CachedAt(State(), now)
    {
      if result == None || now >= expiresAt {
        return None;
      }
      return result;
    }

    /** Take the lock when it is free, and look again; a hit leaves the lock at once. */
    method Enter(request: int, now: real) returns (cached: Option<Check>)
      requires holder == None
      modifies this`holder
      ensures (State(), cached) == Entered(old(State()), request, now)
    {
      holder := Some(request);
      cached := Cached(now);
      if cached.Some? {
        holder := None;
      }
    }

    /** Leave the lock after a refresh; only a completed scan is stored. */
    method Leave(now: real, live: Option<Check>)
      modifies this
      ensures State() == Left(old(State()), now, live)
    {
      if live.Some? {
        result := live;
        expiresAt := now + TTL;
      }
      holder := None;
    }
  }

  /******* The protocol *******/

  /** Where a request stands. `Serving` holds the snapshot it found and when it looked. */
  datatype Request =
    | Waiting
    | Diagnosing
    | Scanning
    | Serving(result: Check, lookedAt: real)
    | AnsweredFromCache(result: Check, lookedAt: real)
    | AnsweredLive(result: Check)
    | AnsweredUnavailable

  datatype LogEntry = Started(at: real) | Stored(result: Check, at: real)

  /** `log` records when live scans started and when results were stored. */
  datatype System = System(cache: Cache, clock: real, requests: map<int, Request>, log: seq<LogEntry>)

  datatype Event =
    | Tick(elapsed: real)
    | Arrive(request: int)
    | EnterLock(request: int)
    | StartScan(request: int)
    | FinishScan(request: int, outcome: Option<Check>)
    | FailDiagnosis(request: int)
    | Answer(request: int, complete: bool)
    | Cancel(request: int)

  predicate At(s: System, request: int, where_: Request) {
    request in s.requests && s.requests[request] == where_
  }

  function Step(s: System, e: Event): System {
    match e
    case Tick(elapsed) => if elapsed >= 0.0 then s.(clock := s.clock + elapsed) else s
    case Arrive(request) =>
      if request in s.requests then s
      else
        var cached := CachedAt(s.cache, s.clock);
        s.(requests := s.requests[request := if cached.Some? then Serving(cached.value, s.clock) else Waiting])
    case EnterLock(request) =>
      if !At(s, request, Waiting) || s.cache.holder.Some? then s
      else
        var (cache, cached) := Entered(s.cache, request, s.clock);
        s.(cache := cache,
           requests := s.requests[request := if cached.Some? then Serving(cached.value, s.clock) else Diagnosing])
    case StartScan(request) =>
      if !At(s, request, Diagnosing) then s
      else s.(requests := s.requests[request := Scanning], log := s.log + [Started(s.clock)])
    case FinishScan(request, outcome) =>
      if !At(s, request, Scanning) then s
      else if outcome.Some?
      then s.(cache := Left(s.cache, s.clock, outcome),
              requests := s.requests[request := AnsweredLive(outcome.value)],
              log := s.log + [Stored(outcome.value, s.clock)])
      else s.(cache := Left(s.cache, s.clock, outcome), requests := s.requests[request := AnsweredUnavailable])
    case FailDiagnosis(request) =>
      if !At(s, request, Diagnosing) then s
      else s.(cache := Left(s.cache, s.clock, None), requests := s.requests[request := AnsweredUnavailable])
    case Answer(request, complete) =>
      if request !in s.requests || !s.requests[request].Serving? then s
      else
        var held := s.requests[request];
        s.(requests := s.requests[request := if complete then AnsweredFromCache(held.result, held.lookedAt)
                                             else AnsweredUnavailable])
    case Cancel(request) =>
      if request !in s.requests || Finished(s.requests[request]) then s
      else s.(requests := s.requests - {request},
              cache := if s.cache.holder == Some(request) then Left(s.cache, s.clock, None) else s.cache)
  }

  predicate Finished(r: Request) {
    r.AnsweredFromCache? || r.AnsweredLive? || r.AnsweredUnavailable?
  }

  function Run(s: System, events: seq<Event>): System
    decreases |events|
  {
    if events == [] then s else Run(Step(s, events[0]), events[1..])
  }

  const START := System(Cache(None, 0.0, None), 0.0, map[], [])

  /******* What every step keeps *******/

  predicate InLock(r: Request) {
    r.Diagnosing? || r.Scanning?
  }

  /** Entry `i` stored this result, and its time to live covered the moment `at`. */
  predicate Fresh(log: seq<LogEntry>, i: nat, result: Check, at: real) {
    i < |log| && log[i].Stored? && log[i].result == result && log[i].at <= at < log[i].at + TTL
  }

  predicate CameFromScan(log: seq<LogEntry>, result: Check, at: real) {
    exists i :: 0 <= i < |log| && Fresh(log, i, result, at)
  }

  /** The request inside the lock is the only one that refreshes. */
  ghost predicate SingleFlight(s: System) {
    forall r :: r in s.requests && InLock(s.requests[r]) ==> s.cache.holder == Some(r)
  }

  ghost predicate CacheFits(s: System) {
    && (s.cache.result.Some? ==>
          exists i :: 0 <= i < |s.log| && s.log[i] == Stored(s.cache.result.value, s.cache.expiresAt - TTL))
    && (forall i :: 0 <= i < |s.log| && s.log[i].Stored? ==>
          s.cache.result.Some? && s.log[i].at + TTL <= s.cache.expiresAt && s.log[i].at <= s.clock)
  }

  /** A refresh runs only after the stored result has expired. */
  ghost predicate RefreshIsDue(s: System) {
    forall r :: r in s.requests && InLock(s.requests[r]) && s.cache.result.Some? ==> s.clock >= s.cache.expiresAt
  }

  ghost predicate SnapshotsFit(s: System) {
    forall r :: r in s.requests && (s.requests[r].Serving? || s.requests[r].AnsweredFromCache?) ==>
      CameFromScan(s.log, s.requests[r].result, s.requests[r].lookedAt)
  }

  ghost predicate Spaced(log: seq<LogEntry>) {
    forall i, j :: 0 <= i < j < |log| && log[i].Stored? ==> log[j].at >= log[i].at + TTL
  }

  ghost predicate Invariant(s: System) {
    SingleFlight(s) && CacheFits(s) && RefreshIsDue(s) && SnapshotsFit(s) && Spaced(s.log)
  }

  lemma LogGrows(log: seq<LogEntry>, entry: LogEntry, result: Check, at: real)
    requires CameFromScan(log, result, at)
    ensures CameFromScan(log + [entry], result, at)
  {
    var i :| 0 <= i < |log| && Fresh(log, i, result, at);
    assert Fresh(log + [entry], i, result, at);
  }

  /** A hit comes from a completed scan that had not expired when the request looked. */
  lemma HitIsFresh(s: System)
    requires CacheFits(s) && CachedAt(s.cache, s.clock).Some?
    ensures CameFromScan(s.log, CachedAt(s.cache, s.clock).value, s.clock)
  {
    var i :| 0 <= i < |s.log| && s.log[i] == Stored(s.cache.result.value, s.cache.expiresAt - TTL);
    assert Fresh(s.log, i, s.cache.result.value, s.clock);
  }

  lemma AppendKeeps(s: System, after: System, entry: LogEntry)
    requires Invariant(s) && after.log == s.log + [entry] && entry.at == s.clock
    requires s.cache.result.Some? ==> s.clock >= s.cache.expiresAt
    requires forall r :: r in after.requests && (after.requests[r].Serving? || after.requests[r].AnsweredFromCache?) ==>
               r in s.requests && after.requests[r] == s.requests[r]
    ensures SnapshotsFit(after) && Spaced(after.log)
  {
    forall r | r in after.requests && (after.requests[r].Serving? || after.requests[r].AnsweredFromCache?)
      ensures CameFromScan(after.log, after.requests[r].result, after.requests[r].lookedAt)
    {
      LogGrows(s.log, entry, after.requests[r].result, after.requests[r].lookedAt);
    }
  }

  lemma StartKeeps(s: System, request: int)
    requires Invariant(s)
    ensures Invariant(Step(s, StartScan(request)))
  {
    var after := Step(s, StartScan(request));
    if At(s, request, Diagnosing) {
      AppendKeeps(s, after, Started(s.clock));
      if s.cache.result.Some? {
        var i :| 0 <= i < |s.log| && s.log[i] == Stored(s.cache.result.value, s.cache.expiresAt - TTL);
        assert after.log[i] == s.log[i];
      }
    }
  }

  lemma FinishKeeps(s: System, request: int, outcome: Option<Check>)
    requires Invariant(s)
    ensures Invariant(Step(s, FinishScan(request, outcome)))
  {
    var after := Step(s, FinishScan(request, outcome));
    if At(s, request, Scanning) && outcome.Some? {
      AppendKeeps(s, after, Stored(outcome.value, s.clock));
      assert after.log[|s.log|] == Stored(outcome.value, after.cache.expiresAt - TTL);
    }
  }

  lemma StepKeeps(s: System, e: Event)
    requires Invariant(s)
    ensures Invariant(Step(s, e))
  {
    if e.StartScan? {
      StartKeeps(s, e.request);
    } else if e.FinishScan? {
      FinishKeeps(s, e.request, e.outcome);
    } else if e.Arrive? || e.EnterLock? {
      LookKeeps(s, e);
    } else {
      LeaveKeeps(s, e);
    }
  }

  lemma LookKeeps(s: System, e: Event)
    requires Invariant(s) && (e.Arrive? || e.EnterLock?)
    ensures Invariant(Step(s, e))
  {
    if CachedAt(s.cache, s.clock).Some? {
      HitIsFresh(s);
    }
  }

  lemma LeaveKeeps(s: System, e: Event)
    requires Invariant(s) && !e.Arrive? && !e.EnterLock? && !e.StartScan? && !e.FinishScan?
    ensures Invariant(Step(s, e))
  {
  }

  lemma {:induction false} RunKeeps(s: System, events: seq<Event>)
    requires Invariant(s)
    ensures Invariant(Run(s, events))
    decreases |events|
  {
    if events != [] {
      StepKeeps(s, events[0]);
      RunKeeps(Step(s, events[0]), events[1..]);
    }
  }

  /******* The guarantees, over every interleaving *******/

  /** At most one request of the engine refreshes at a time. */
  lemma OneLiveScan(events: seq<Event>, a: int, b: int)
    requires var s := Run(START, events);
             && a in s.requests && InLock(s.requests[a]) && b in s.requests && InLock(s.requests[b])
    ensures a == b
  {
    RunKeeps(START, events);
  }

  /** Every answer labelled cache came from a completed live scan that had not expired when looked at. */
  lemma CacheAnswersAreFresh(events: seq<Event>, request: int)
    requires request in Run(START, events).requests && Run(START, events).requests[request].AnsweredFromCache?
    ensures var s := Run(START, events);
            CameFromScan(s.log, s.requests[request].result, s.requests[request].lookedAt)
  {
    RunKeeps(START, events);
  }

  /** A live scan starts, and a result is stored, no sooner than 300 seconds after any earlier store. */
  lemma ScansAreSpaced(events: seq<Event>, i: nat, j: nat)
    requires i < j < |Run(START, events).log| && Run(START, events).log[i].Stored?
    ensures Run(START, events).log[j].at >= Run(START, events).log[i].at + TTL
  {
    RunKeeps(START, events);
  }

  /** Only a completed scan is ever cached: any other step leaves the stored result and its expiry. */
  lemma OnlyCompletedScansAreCached(s: System, e: Event)
    ensures var after := Step(s, e).cache;
            (after.result != s.cache.result || after.expiresAt != s.cache.expiresAt) ==>
              && e.FinishScan? && e.outcome.Some? && At(s, e.request, Scanning)
              && after == Cache(e.outcome, s.clock + TTL, None)
  {
  }

  /** A cancelled refresh frees the lock, so the next waiter can enter and refresh. */
  lemma CancelFreesTheLock(events: seq<Event>, request: int, waiter: int)
    requires var s := Run(START, events);
             && request in s.requests && InLock(s.requests[request]) && At(s, waiter, Waiting)
    ensures var s := Run(START, events);
            var after := Step(Step(s, Cancel(request)), EnterLock(waiter));
            after.cache.holder == Some(waiter) && At(after, waiter, Diagnosing)
  {
    RunKeeps(START, events);
  }
}
