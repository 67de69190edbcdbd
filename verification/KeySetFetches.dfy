/** How many requests reach the provider: the throttle spaces publications, not fetches that fail. */
module KeySetFetches {
  import opened Options
  import opened KeySetModel
  import opened KeySetTheorems

  // --- the log of fetches ------------------------------------------------------------------

  /** Between the start of a fetch and its end. */
  predicate InFlight(pc: Pc) {
    pc.Fetching? || pc.Publish? || pc.Publishing? || pc.Stamping?
  }

  ghost predicate UnderWay(s: State) {
    s.refresh.Some? && s.refresh.value in s.threads && InFlight(s.threads[s.refresh.value].pc)
  }

  function Count(fetches: seq<Fetch>, end: End): nat {
    if fetches == [] then 0
    else Count(fetches[..|fetches| - 1], end) + if fetches[|fetches| - 1].end == end then 1 else 0
  }

  /** Starts never go back, and one that follows a success follows it by at least the interval. */
  ghost predicate StartsSpaced(fetches: seq<Fetch>) {
    forall i :: 0 <= i < |fetches| - 1 ==>
      && fetches[i].start <= fetches[i + 1].start
      && (fetches[i].end.Succeeded? ==> fetches[i + 1].start - fetches[i].start >= MIN_REFRESH_INTERVAL)
  }

  ghost predicate LogSound(fetches: seq<Fetch>, published: nat, now: int, fetchedAt: Option<int>, running: bool) {
    && (forall i :: 0 <= i < |fetches| - 1 ==> !fetches[i].end.Running?)
    && (running <==> fetches != [] && fetches[|fetches| - 1].end.Running?)
    && Count(fetches, Succeeded) == published
    && StartsSpaced(fetches)
    && (fetches != [] ==>
          var last := fetches[|fetches| - 1];
          last.start <= now && (last.end.Succeeded? ==> fetchedAt.Some? && last.start <= fetchedAt.value))
  }

  ghost predicate Logged(s: State) {
    LogSound(s.fetches, |s.published|, s.now, s.fetchedAt, UnderWay(s))
  }

  lemma LogStarts(fetches: seq<Fetch>, published: nat, now: int, fetchedAt: Option<int>)
    requires LogSound(fetches, published, now, fetchedAt, false)
    requires fetchedAt.Some? ==> now - fetchedAt.value >= MIN_REFRESH_INTERVAL
    ensures LogSound(fetches + [Fetch(now, Running)], published, now, fetchedAt, true)
  {
    assert (fetches + [Fetch(now, Running)])[..|fetches|] == fetches;
  }

  lemma LogEnds(fetches: seq<Fetch>, published: nat, now: int, fetchedAt: Option<int>, end: End, at: Option<int>)
    requires LogSound(fetches, published, now, fetchedAt, true) && !end.Running?
    requires end.Succeeded? ==> at == Some(now)
    ensures LogSound(Ended(fetches, end), if end.Succeeded? then published + 1 else published, now, at, false)
  {
    var n := |fetches| - 1;
    assert Ended(fetches, end)[..n] == fetches[..n];
  }

  // --- one step ----------------------------------------------------------------------------

  lemma UnderWayAfter(ttl: int, s: State, t: Thread, response: Option<Keys>)
    requires t in s.threads && OwnLocks(s, t, s.threads[t].pc)
    ensures var s' := MoveThread(ttl, s, t, response);
      t in s'.threads &&
      (UnderWay(s') <==> InFlight(s'.threads[t].pc) || (s.refresh != Some(t) && UnderWay(s)))
  {
    MoveMoves(ttl, s, t, response);
    MoveRefreshes(ttl, s, t, response);
  }

  /** Three places touch the log: where a fetch starts, where it fails and where it is stamped. */
  lemma OtherMovesLeaveLog(ttl: int, s: State, t: Thread, response: Option<Keys>)
    requires t in s.threads
    requires var pc := s.threads[t].pc; !pc.Throttle? && !pc.Fetching? && !pc.Stamping?
    ensures var s' := MoveThread(ttl, s, t, response);
      && s'.fetches == s.fetches && s'.published == s.published && s'.now == s.now && s'.fetchedAt == s.fetchedAt
      && t in s'.threads && InFlight(s'.threads[t].pc) == InFlight(s.threads[t].pc)
  {}

  lemma ThrottleLogs(ttl: int, s: State, t: Thread, response: Option<Keys>)
    requires t in s.threads && s.threads[t].pc.Throttle? && OwnLocks(s, t, s.threads[t].pc)
    requires Logged(s) && LocalSound(ttl, s, s.threads[t])
    ensures Logged(MoveThread(ttl, s, t, response))
  {
    UnderWayAfter(ttl, s, t, response);
    if MoveThread(ttl, s, t, response).threads[t].pc.Fetching? {
      LogStarts(s.fetches, |s.published|, s.now, s.fetchedAt);
    }
  }

  lemma FetchingLogs(ttl: int, s: State, t: Thread, response: Option<Keys>)
    requires t in s.threads && (s.threads[t].pc.Fetching? || s.threads[t].pc.Stamping?) && OwnLocks(s, t, s.threads[t].pc)
    requires Logged(s)
    ensures Logged(MoveThread(ttl, s, t, response))
  {
    UnderWayAfter(ttl, s, t, response);
    LogEnds(s.fetches, |s.published|, s.now, s.fetchedAt, Failed, s.fetchedAt);
    LogEnds(s.fetches, |s.published|, s.now, s.fetchedAt, Succeeded, Some(s.now));
  }

  lemma MoveLogs(ttl: int, s: State, t: Thread, response: Option<Keys>)
    requires t in s.threads && OwnLocks(s, t, s.threads[t].pc) && Logged(s) && LocalSound(ttl, s, s.threads[t])
    ensures Logged(MoveThread(ttl, s, t, response))
  {
    if s.threads[t].pc.Throttle? {
      ThrottleLogs(ttl, s, t, response);
    } else if s.threads[t].pc.Fetching? || s.threads[t].pc.Stamping? {
      FetchingLogs(ttl, s, t, response);
    } else {
      UnderWayAfter(ttl, s, t, response);
      OtherMovesLeaveLog(ttl, s, t, response);
    }
  }

  lemma StepLogs(ttl: int, s: State, op: Op)
    requires Inv(ttl, s) && Logged(s)
    ensures Logged(Step(ttl, s, op))
  {
    match op
    case Tick(ticks) =>
    case Call(t, kid) =>
      assert s.refresh == Some(t) ==> t in s.threads && !s.threads[t].pc.Done?;
    case Move(t, response) =>
      if t in s.threads { MoveLogs(ttl, s, t, response); }
  }

  lemma {:induction false} RunLogs(ttl: int, s: State, ops: seq<Op>)
    requires Inv(ttl, s) && Logged(s)
    ensures Inv(ttl, Run(ttl, s, ops)) && Logged(Run(ttl, s, ops))
    decreases |ops|
  {
    if ops != [] {
      StepLogs(ttl, s, ops[0]);
      StepKeeps(ttl, s, ops[0]);
      RunLogs(ttl, Step(ttl, s, ops[0]), ops[1..]);
    }
  }

  // --- theorems ----------------------------------------------------------------------------

  lemma {:induction false} EveryEnd(fetches: seq<Fetch>)
    ensures Count(fetches, Running) + Count(fetches, Failed) + Count(fetches, Succeeded) == |fetches|
  {
    if fetches != [] { EveryEnd(fetches[..|fetches| - 1]); }
  }

  lemma {:induction false} NoneRunning(fetches: seq<Fetch>)
    requires forall i :: 0 <= i < |fetches| ==> !fetches[i].end.Running?
    ensures Count(fetches, Running) == 0
  {
    if fetches != [] { NoneRunning(fetches[..|fetches| - 1]); }
  }

  /** Every fetch ever started was published, failed, or is the one under way. */
  lemma FetchesAreAccountedFor(ttl: int, start: int, ops: seq<Op>)
    ensures var s := Run(ttl, Init(start), ops);
      |s.fetches| == |s.published| + Count(s.fetches, Failed) + if UnderWay(s) then 1 else 0
  {
    RunLogs(ttl, Init(start), ops);
    var f := Run(ttl, Init(start), ops).fetches;
    EveryEnd(f);
    if f != [] { NoneRunning(f[..|f| - 1]); }
  }

  /** Two successive fetches start less than the interval apart only if the first of them failed. */
  lemma CloseStartsFollowAFailure(ttl: int, start: int, ops: seq<Op>, i: nat)
    requires var f := Run(ttl, Init(start), ops).fetches;
      i + 1 < |f| && f[i + 1].start - f[i].start < MIN_REFRESH_INTERVAL
    ensures Run(ttl, Init(start), ops).fetches[i].end == Failed
  {
    RunLogs(ttl, Init(start), ops);
  }

  lemma {:induction false} StartsApart(fetches: seq<Fetch>, i: nat, j: nat)
    requires StartsSpaced(fetches) && i <= j < |fetches|
    requires forall k :: i <= k < j ==> !fetches[k].end.Running?
    ensures fetches[j].start - fetches[i].start >= (j - i - Count(fetches[i..j], Failed)) * MIN_REFRESH_INTERVAL
    decreases j - i
  {
    if i < j {
      StartsApart(fetches, i, j - 1);
      assert fetches[i..j][..j - i - 1] == fetches[i..j - 1];
    }
  }

  /**
   Of any successive fetches that start within a time T, at most T / interval + 1 follow no
   failure: the documented bound, with one more start allowed for each fetch that failed.
   */
  lemma FetchesAreThrottledButForFailures(ttl: int, start: int, ops: seq<Op>, i: nat, j: nat, span: int)
    requires var f := Run(ttl, Init(start), ops).fetches; i <= j < |f| && f[j].start - f[i].start <= span
    ensures var f := Run(ttl, Init(start), ops).fetches;
      j - i + 1 <= span / MIN_REFRESH_INTERVAL + 1 + Count(f[i..j], Failed)
  {
    RunLogs(ttl, Init(start), ops);
    StartsApart(Run(ttl, Init(start), ops).fetches, i, j);
  }

  /** A goroutine past the locks starts a fetch exactly when nothing was published within the interval, whatever failed meanwhile. */
  lemma ThrottleAdmitsIff(ttl: int, start: int, ops: seq<Op>, t: Thread)
    requires var s := Run(ttl, Init(start), ops); t in s.threads && s.threads[t].pc.Throttle?
    ensures var s := Run(ttl, Init(start), ops);
      |Step(ttl, s, Move(t, None)).fetches| == |s.fetches| + 1 <==>
      s.published == [] || s.now - s.published[|s.published| - 1].at >= MIN_REFRESH_INTERVAL
  {
    RunKeeps(ttl, Init(start), ops);
    var s := Run(ttl, Init(start), ops);
    assert LocalSound(ttl, s, s.threads[t]);
  }

  // --- a failure lets the next start at once -----------------------------------------------

  /** The cache cannot answer for this kid now. */
  predicate Unanswered(ttl: int, s: State, kid: Kid) {
    s.keys.None? || s.fetchedAt.None? || s.now - s.fetchedAt.value > ttl || kid !in s.keys.value
  }

  predicate BeforeFetch(pc: Pc, fetchedAt: Option<int>) {
    match pc
    case Look(phase) => phase != Third
    case Looking(phase) => phase != Third
    case Dating(phase) => phase != Third
    case Picking(phase, _) => phase != Third
    case WaitRefresh => true
    case Check => true
    case Checking => true
    case Throttle(last) => last == fetchedAt
    case Fetching => true
    case _ => false
  }

  /** u is on its way to a fetch, `refresh` is its own or free, and nobody is writing; readers there may be. */
  ghost predicate Bound(ttl: int, s: State, u: Thread, kid: Kid) {
    && u in s.threads && s.threads[u].kid == kid && BeforeFetch(s.threads[u].pc, s.fetchedAt)
    && s.writer.None?
    && s.refresh == (if HoldsRefresh(s.threads[u].pc) then Some(u) else None)
    && Due(s) && Unanswered(ttl, s, kid)
    && (s.threads[u].pc.Dating? ==> s.keys.Some?)
    && (s.threads[u].pc.Picking? ==> s.keys.Some? && kid !in s.keys.value)
  }

  function StepsLeft(pc: Pc): nat {
    match pc
    case Look(phase) => if phase == First then 12 else 7
    case Looking(phase) => if phase == First then 11 else 6
    case Dating(phase) => if phase == First then 10 else 5
    case Picking(phase, _) => if phase == First then 9 else 4
    case WaitRefresh => 8
    case Check => 3
    case Checking => 2
    case Throttle(_) => 1
    case _ => 0
  }

  /** The cache, the clock and every thread but u are as before. */
  ghost predicate Beside(s: State, e: State, u: Thread) {
    && e.now == s.now && e.keys == s.keys && e.fetchedAt == s.fetchedAt && e.published == s.published
    && forall v :: v in s.threads && v != u ==> v in e.threads && e.threads[v] == s.threads[v]
  }

  lemma BoundMoves(ttl: int, s: State, u: Thread, kid: Kid)
    requires Bound(ttl, s, u, kid) && !s.threads[u].pc.Fetching?
    ensures var e := MoveThread(ttl, s, u, None);
      && Bound(ttl, e, u, kid) && StepsLeft(e.threads[u].pc) < StepsLeft(s.threads[u].pc)
  {
    if HoldsRead(s.threads[u].pc) { BoundReads(ttl, s, u, kid); } else { BoundWaits(ttl, s, u, kid); }
  }

  lemma BoundReads(ttl: int, s: State, u: Thread, kid: Kid)
    requires Bound(ttl, s, u, kid) && HoldsRead(s.threads[u].pc)
    ensures var e := MoveThread(ttl, s, u, None);
      && Bound(ttl, e, u, kid) && StepsLeft(e.threads[u].pc) < StepsLeft(s.threads[u].pc)
  {}

  lemma BoundWaits(ttl: int, s: State, u: Thread, kid: Kid)
    requires Bound(ttl, s, u, kid) && !s.threads[u].pc.Fetching? && !HoldsRead(s.threads[u].pc)
    ensures var e := MoveThread(ttl, s, u, None);
      && Bound(ttl, e, u, kid) && StepsLeft(e.threads[u].pc) < StepsLeft(s.threads[u].pc)
  {}

  lemma BoundMovesBeside(ttl: int, s: State, u: Thread, kid: Kid)
    requires Bound(ttl, s, u, kid) && !s.threads[u].pc.Fetching?
    ensures var e := MoveThread(ttl, s, u, None);
      && Beside(s, e, u) && u in e.threads
      && e.fetches == s.fetches + if e.threads[u].pc.Fetching? then [Fetch(s.now, Running)] else []
  {}

  ghost predicate NoTick(ops: seq<Op>) {
    forall i :: 0 <= i < |ops| ==> !ops[i].Tick?
  }

  /** Left to run, u starts a fetch with no time passing. */
  lemma {:induction false} BoundFetches(ttl: int, s: State, u: Thread, kid: Kid) returns (ops: seq<Op>)
    requires Bound(ttl, s, u, kid) && !s.threads[u].pc.Fetching?
    ensures NoTick(ops)
    ensures var e := Run(ttl, s, ops);
      && Beside(s, e, u) && u in e.threads && e.threads[u].pc.Fetching? && e.threads[u].kid == kid
      && e.fetches == s.fetches + [Fetch(s.now, Running)]
    decreases StepsLeft(s.threads[u].pc)
  {
    var e := MoveThread(ttl, s, u, None);
    BoundMoves(ttl, s, u, kid);
    BoundMovesBeside(ttl, s, u, kid);
    if e.threads[u].pc.Fetching? {
      ops := [Move(u, None)];
      assert ops[1..] == [] && Run(ttl, e, []) == e;
      assert Run(ttl, s, ops) == Run(ttl, e, []);
    } else {
      var rest := BoundFetches(ttl, e, u, kid);
      ops := [Move(u, None)] + rest;
      assert ops[1..] == rest;
      assert Run(ttl, s, ops) == Run(ttl, e, rest);
    }
  }

  predicate Idle(s: State, u: Thread) {
    u in s.threads ==> s.threads[u].pc.Done?
  }

  lemma NoWriterBesideFetch(s: State, t: Thread)
    requires LocksSound(s) && t in s.threads && s.threads[t].pc.Fetching?
    ensures s.writer.None?
  {
    assert s.refresh == Some(t);
  }

  /** The fetch of t fails, and u asks. */
  lemma FailThenCall(ttl: int, s: State, t: Thread, u: Thread, kid: Kid)
    requires Inv(ttl, s) && t in s.threads && s.threads[t].pc.Fetching? && u != t && Idle(s, u) && Unanswered(ttl, s, kid)
    ensures var e := Step(ttl, Step(ttl, s, Move(t, None)), Call(u, kid));
      && Bound(ttl, e, u, kid) && e.threads[u].pc == Look(First)
      && e.now == s.now && e.keys == s.keys && e.fetchedAt == s.fetchedAt
      && t in e.threads && e.threads[t].pc.Done?
      && e.fetches == Ended(s.fetches, Failed)
  {
    assert LocalSound(ttl, s, s.threads[t]);
    assert s.refresh == Some(t);
    NoWriterBesideFetch(s, t);
  }

  /**
   Whenever a fetch fails, in any reachable state, another caller the cache cannot answer may
   start the next one at the same instant.
   */
  lemma FailedFetchFreesTheNext(ttl: int, s: State, t: Thread, u: Thread, kid: Kid) returns (more: seq<Op>)
    requires Inv(ttl, s) && t in s.threads && s.threads[t].pc.Fetching? && u != t && Idle(s, u) && Unanswered(ttl, s, kid)
    ensures NoTick(more)
    ensures var e := Run(ttl, s, more);
      && e.now == s.now && e.fetches == Ended(s.fetches, Failed) + [Fetch(s.now, Running)]
      && u in e.threads && e.threads[u].pc.Fetching? && Idle(e, t) && Unanswered(ttl, e, kid)
  {
    var failed := Step(ttl, s, Move(t, None));
    var called := Step(ttl, failed, Call(u, kid));
    FailThenCall(ttl, s, t, u, kid);
    var rest := BoundFetches(ttl, called, u, kid);
    var two := [Move(t, None), Call(u, kid)];
    more := two + rest;
    RunTwo(ttl, s, two[0], two[1]);
    RunConcat(ttl, s, two, rest);
  }

  lemma RunTwo(ttl: int, s: State, a: Op, b: Op)
    ensures Run(ttl, s, [a, b]) == Step(ttl, Step(ttl, s, a), b)
  {
    var r := Step(ttl, s, a);
    assert [a, b][1..] == [b] && [b][1..] == [];
    assert Run(ttl, s, [a, b]) == Run(ttl, r, [b]);
    assert Run(ttl, r, [b]) == Run(ttl, Step(ttl, r, b), []);
  }

  /**
   Only successes are throttled: from any reachable state with a fetch under way, callers whose
   fetches fail start as many as they like with no time passing at all.
   */
  lemma {:induction false} FailuresAreNotThrottled(ttl: int, s: State, t: Thread, u: Thread, kid: Kid, n: nat)
    returns (more: seq<Op>)
    requires Inv(ttl, s) && t in s.threads && s.threads[t].pc.Fetching? && u != t && Idle(s, u) && Unanswered(ttl, s, kid)
    ensures NoTick(more)
    ensures Run(ttl, s, more).now == s.now && |Run(ttl, s, more).fetches| == |s.fetches| + n
    decreases n
  {
    if n == 0 {
      more := [];
    } else {
      var one := FailedFetchFreesTheNext(ttl, s, t, u, kid);
      RunKeeps(ttl, s, one);
      var rest := FailuresAreNotThrottled(ttl, Run(ttl, s, one), u, t, kid, n - 1);
      more := one + rest;
      RunConcat(ttl, s, one, rest);
    }
  }
}
