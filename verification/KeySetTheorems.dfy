/** What any interleaving of goroutines keeps. */
module KeySetTheorems {
  import opened Options
  import opened KeySetModel

  predicate HoldsRead(pc: Pc) {
    pc.Looking? || pc.Dating? || pc.Picking? || pc.Checking?
  }

  predicate HoldsWrite(pc: Pc) {
    pc.Publishing? || pc.Stamping? || pc.Stamped?
  }

  predicate HoldsRefresh(pc: Pc) {
    match pc
    case Look(p) => UnderRefresh(p)
    case Looking(p) => UnderRefresh(p)
    case Dating(p) => UnderRefresh(p)
    case Picking(p, _) => UnderRefresh(p)
    case WaitRefresh => false
    case Done(_) => false
    case _ => true
  }

  ghost predicate LocksSound(s: State) {
    && (forall t :: t in s.readers <==> t in s.threads && HoldsRead(s.threads[t].pc))
    && (forall t :: s.writer == Some(t) <==> t in s.threads && HoldsWrite(s.threads[t].pc))
    && (forall t :: s.refresh == Some(t) <==> t in s.threads && HoldsRefresh(s.threads[t].pc))
    && (s.writer.Some? ==> s.readers == {})
  }

  /** A writer has stored the new keys but not yet their time. */
  ghost predicate Torn(s: State) {
    s.writer.Some? && s.writer.value in s.threads && s.threads[s.writer.value].pc.Stamping?
  }

  ghost predicate FieldsSound(s: State) {
    && (s.published == [] <==> s.fetchedAt == None)
    && (s.published != [] ==> s.fetchedAt == Some(s.published[|s.published| - 1].at))
    && (!Torn(s) && s.published == [] ==> s.keys == None)
    && (!Torn(s) && s.published != [] ==> s.keys == Some(s.published[|s.published| - 1].keys))
    && (Torn(s) ==> s.keys == Some(s.threads[s.writer.value].pc.keys))
    && (s.fetchedAt.Some? ==> s.fetchedAt.value <= s.now)
  }

  /** The last publication is old enough for another. */
  ghost predicate Due(s: State) {
    s.fetchedAt.Some? ==> s.now - s.fetchedAt.value >= MIN_REFRESH_INTERVAL
  }

  /** The key came whole from one published set, no older than the ttl when it was judged. */
  ghost predicate FromOneSet(ttl: int, published: seq<Published>, f: Found) {
    && f.origin < |published|
    && f.kid in published[f.origin].keys
    && published[f.origin].keys[f.kid] == f.key
    && published[f.origin].at <= f.datedAt <= published[f.origin].at + ttl
  }

  ghost predicate LocalSound(ttl: int, s: State, l: Local) {
    match l.pc
    case Dating(_) => s.keys.Some?
    case Picking(_, datedAt) =>
      s.keys.Some? && s.fetchedAt.Some? && s.fetchedAt.value <= datedAt <= s.now && datedAt - s.fetchedAt.value <= ttl
    case Throttle(last) => last == s.fetchedAt
    case Fetching => Due(s)
    case Publish(_) => Due(s)
    case Publishing(_) => Due(s)
    case Stamping(_) => Due(s)
    case Done(result) => result.Some? ==> result.value.kid == l.kid && FromOneSet(ttl, s.published, result.value)
    case _ => true
  }

  ghost predicate LocalsSound(ttl: int, s: State) {
    forall t :: t in s.threads ==> LocalSound(ttl, s, s.threads[t])
  }

  ghost predicate Spaced(published: seq<Published>) {
    forall i :: 0 <= i < |published| - 1 ==> published[i + 1].at - published[i].at >= MIN_REFRESH_INTERVAL
  }

  ghost predicate Inv(ttl: int, s: State) {
    && LocksSound(s)
    && FieldsSound(s)
    && LocalsSound(ttl, s)
    && Spaced(s.published)
  }

  /** Only one thread changes place. */
  ghost predicate Moves(s: State, t: Thread, s': State) {
    t in s'.threads && t in s.threads && s'.threads == s.threads[t := s'.threads[t]]
  }

  /** A lock the thread holds afterwards it held before, or found free. */
  ghost predicate MovesRead(s: State, t: Thread, s': State, pc: Pc) {
    && s'.readers == (if HoldsRead(pc) then s.readers + {t} else s.readers - {t})
    && (HoldsRead(pc) && t !in s.readers ==> s.writer.None?)
  }

  ghost predicate MovesWrite(s: State, t: Thread, s': State, pc: Pc) {
    && s'.writer == (if HoldsWrite(pc) then Some(t) else if s.writer == Some(t) then None else s.writer)
    && (HoldsWrite(pc) && s.writer != Some(t) ==> s.writer.None? && s.readers == {})
  }

  ghost predicate MovesRefresh(s: State, t: Thread, s': State, pc: Pc) {
    && s'.refresh == (if HoldsRefresh(pc) then Some(t) else if s.refresh == Some(t) then None else s.refresh)
    && (HoldsRefresh(pc) && s.refresh != Some(t) ==> s.refresh.None?)
  }

  ghost predicate Relocks(s: State, t: Thread, s': State) {
    && Moves(s, t, s')
    && MovesRead(s, t, s', s'.threads[t].pc)
    && MovesWrite(s, t, s', s'.threads[t].pc)
    && MovesRefresh(s, t, s', s'.threads[t].pc)
  }

  lemma RelockKeepsLocks(s: State, t: Thread, s': State)
    requires LocksSound(s) && t in s.threads && Relocks(s, t, s')
    ensures LocksSound(s')
  {}

  /** The locks one thread holds, and that a writer excludes every reader. */
  ghost predicate OwnLocks(s: State, t: Thread, pc: Pc) {
    && (t in s.readers <==> HoldsRead(pc))
    && (s.writer == Some(t) <==> HoldsWrite(pc))
    && (s.refresh == Some(t) <==> HoldsRefresh(pc))
    && (s.writer.Some? ==> s.readers == {})
  }

  lemma MoveMoves(ttl: int, s: State, t: Thread, response: Option<Keys>)
    requires t in s.threads
    ensures Moves(s, t, MoveThread(ttl, s, t, response))
  {}

  lemma MoveReads(ttl: int, s: State, t: Thread, response: Option<Keys>)
    requires t in s.threads && OwnLocks(s, t, s.threads[t].pc)
    ensures var s' := MoveThread(ttl, s, t, response); t in s'.threads && MovesRead(s, t, s', s'.threads[t].pc)
  {
    assert t in s.readers ==> s.readers + {t} == s.readers;
    assert t !in s.readers ==> s.readers - {t} == s.readers;
  }

  lemma MoveWrites(ttl: int, s: State, t: Thread, response: Option<Keys>)
    requires t in s.threads && OwnLocks(s, t, s.threads[t].pc)
    ensures var s' := MoveThread(ttl, s, t, response); t in s'.threads && MovesWrite(s, t, s', s'.threads[t].pc)
  {}

  lemma MoveRefreshes(ttl: int, s: State, t: Thread, response: Option<Keys>)
    requires t in s.threads && OwnLocks(s, t, s.threads[t].pc)
    ensures var s' := MoveThread(ttl, s, t, response); t in s'.threads && MovesRefresh(s, t, s', s'.threads[t].pc)
  {}

  lemma MoveRelocks(ttl: int, s: State, t: Thread, response: Option<Keys>)
    requires t in s.threads && OwnLocks(s, t, s.threads[t].pc)
    ensures Relocks(s, t, MoveThread(ttl, s, t, response))
  {
    MoveMoves(ttl, s, t, response);
    MoveReads(ttl, s, t, response);
    MoveWrites(ttl, s, t, response);
    MoveRefreshes(ttl, s, t, response);
  }

  lemma WriterKeepsFields(ttl: int, s: State, t: Thread, response: Option<Keys>)
    requires LocksSound(s) && FieldsSound(s) && t in s.threads && (s.threads[t].pc.Publishing? || s.threads[t].pc.Stamping?)
    ensures FieldsSound(MoveThread(ttl, s, t, response))
  {
    assert s.writer == Some(t);
  }

  /** Every other step leaves the fields, and a torn pair of them, as they are. */
  lemma OthersKeepFields(ttl: int, s: State, t: Thread, response: Option<Keys>)
    requires LocksSound(s) && FieldsSound(s) && t in s.threads
    requires !s.threads[t].pc.Publishing? && !s.threads[t].pc.Stamping?
    ensures FieldsSound(MoveThread(ttl, s, t, response))
  {
    var s' := MoveThread(ttl, s, t, response);
    assert s'.keys == s.keys && s'.fetchedAt == s.fetchedAt && s'.published == s.published && s'.now == s.now;
    MoveMoves(ttl, s, t, response);
    MoveWrites(ttl, s, t, response);
    assert Torn(s') == Torn(s);
  }

  lemma MoveKeepsFields(ttl: int, s: State, t: Thread, response: Option<Keys>)
    requires LocksSound(s) && FieldsSound(s) && t in s.threads
    ensures FieldsSound(MoveThread(ttl, s, t, response))
  {
    if s.threads[t].pc.Publishing? || s.threads[t].pc.Stamping? {
      WriterKeepsFields(ttl, s, t, response);
    } else {
      OthersKeepFields(ttl, s, t, response);
    }
  }

  /** A writer excludes readers, and holds `refresh`, so no other thread relies on what it changes. */
  lemma WriterDisturbsNobody(ttl: int, s: State, t: Thread, response: Option<Keys>, u: Thread)
    requires LocksSound(s) && t in s.threads && u in s.threads && u != t && HoldsWrite(s.threads[t].pc)
    requires LocalSound(ttl, s, s.threads[u])
    ensures LocalSound(ttl, MoveThread(ttl, s, t, response), s.threads[u])
  {
    assert s.writer == Some(t) && s.refresh == Some(t);
    assert u !in s.readers;
  }

  /** The fields a lock protects do not move under a thread that holds it. */
  lemma OthersKeepTheirView(ttl: int, s: State, t: Thread, response: Option<Keys>, u: Thread)
    requires LocksSound(s) && t in s.threads && u in s.threads && u != t
    requires LocalSound(ttl, s, s.threads[u])
    ensures LocalSound(ttl, MoveThread(ttl, s, t, response), s.threads[u])
  {
    if HoldsWrite(s.threads[t].pc) { WriterDisturbsNobody(ttl, s, t, response, u); }
  }

  lemma ReaderKnows(ttl: int, s: State, t: Thread, response: Option<Keys>)
    requires LocksSound(s) && FieldsSound(s) && t in s.threads && LocalSound(ttl, s, s.threads[t])
    requires HoldsRead(s.threads[t].pc)
    ensures var s' := MoveThread(ttl, s, t, response);
      t in s'.threads && LocalSound(ttl, s', s'.threads[t])
  {
    assert t in s.readers && !Torn(s);
  }

  lemma WriterKnows(ttl: int, s: State, t: Thread, response: Option<Keys>)
    requires t in s.threads && LocalSound(ttl, s, s.threads[t])
    requires !HoldsRead(s.threads[t].pc)
    ensures var s' := MoveThread(ttl, s, t, response);
      t in s'.threads && LocalSound(ttl, s', s'.threads[t])
  {}

  lemma MoverKnows(ttl: int, s: State, t: Thread, response: Option<Keys>)
    requires LocksSound(s) && FieldsSound(s) && t in s.threads && LocalSound(ttl, s, s.threads[t])
    ensures var s' := MoveThread(ttl, s, t, response);
      t in s'.threads && LocalSound(ttl, s', s'.threads[t])
  {
    if HoldsRead(s.threads[t].pc) {
      ReaderKnows(ttl, s, t, response);
    } else {
      WriterKnows(ttl, s, t, response);
    }
  }

  lemma MoveKeepsLocals(ttl: int, s: State, t: Thread, response: Option<Keys>)
    requires LocksSound(s) && FieldsSound(s) && LocalsSound(ttl, s) && t in s.threads
    ensures LocalsSound(ttl, MoveThread(ttl, s, t, response))
  {
    var s' := MoveThread(ttl, s, t, response);
    MoveRelocks(ttl, s, t, response);
    MoverKnows(ttl, s, t, response);
    forall u | u in s'.threads && u != t
      ensures LocalSound(ttl, s', s'.threads[u])
    {
      OthersKeepTheirView(ttl, s, t, response, u);
    }
  }

  lemma MoveKeepsSpacing(ttl: int, s: State, t: Thread, response: Option<Keys>)
    requires FieldsSound(s) && t in s.threads && LocalSound(ttl, s, s.threads[t]) && Spaced(s.published)
    ensures Spaced(MoveThread(ttl, s, t, response).published)
  {}

  lemma TickKeeps(ttl: int, s: State, ticks: nat)
    requires Inv(ttl, s)
    ensures Inv(ttl, s.(now := s.now + ticks))
  {}

  /** A goroutine that enters `key` holds nothing and knows nothing yet. */
  lemma CallKeepsLocks(ttl: int, s: State, t: Thread, kid: Kid)
    requires LocksSound(s)
    ensures LocksSound(Step(ttl, s, Call(t, kid)))
  {}

  lemma CallKeepsLocals(ttl: int, s: State, t: Thread, kid: Kid)
    requires LocksSound(s) && FieldsSound(s) && LocalsSound(ttl, s)
    ensures FieldsSound(Step(ttl, s, Call(t, kid))) && LocalsSound(ttl, Step(ttl, s, Call(t, kid)))
  {}

  lemma CallKeeps(ttl: int, s: State, t: Thread, kid: Kid)
    requires Inv(ttl, s)
    ensures Inv(ttl, Step(ttl, s, Call(t, kid)))
  {
    CallKeepsLocks(ttl, s, t, kid);
    CallKeepsLocals(ttl, s, t, kid);
  }

  lemma MoveKeeps(ttl: int, s: State, t: Thread, response: Option<Keys>)
    requires Inv(ttl, s) && t in s.threads
    ensures Inv(ttl, MoveThread(ttl, s, t, response))
  {
    MoveRelocks(ttl, s, t, response);
    RelockKeepsLocks(s, t, MoveThread(ttl, s, t, response));
    MoveKeepsFields(ttl, s, t, response);
    MoveKeepsLocals(ttl, s, t, response);
    MoveKeepsSpacing(ttl, s, t, response);
  }

  lemma StepKeeps(ttl: int, s: State, op: Op)
    requires Inv(ttl, s)
    ensures Inv(ttl, Step(ttl, s, op))
  {
    match op
    case Tick(ticks) => TickKeeps(ttl, s, ticks);
    case Call(t, kid) => CallKeeps(ttl, s, t, kid);
    case Move(t, response) =>
      if t in s.threads { MoveKeeps(ttl, s, t, response); }
  }

  lemma {:induction false} RunKeeps(ttl: int, s: State, ops: seq<Op>)
    requires Inv(ttl, s)
    ensures Inv(ttl, Run(ttl, s, ops))
    decreases |ops|
  {
    if ops != [] {
      StepKeeps(ttl, s, ops[0]);
      RunKeeps(ttl, Step(ttl, s, ops[0]), ops[1..]);
    }
  }

  // --- theorems ----------------------------------------------------------------------------

  /** However many goroutines miss at once, at most one fetch is in flight. */
  lemma OneFetchInFlight(ttl: int, start: int, ops: seq<Op>, t: Thread, u: Thread)
    requires var s := Run(ttl, Init(start), ops);
      && t in s.threads && s.threads[t].pc.Fetching?
      && u in s.threads && s.threads[u].pc.Fetching?
    ensures t == u
  {
    RunKeeps(ttl, Init(start), ops);
    var s := Run(ttl, Init(start), ops);
    assert s.refresh == Some(t) && s.refresh == Some(u);
  }

  lemma {:induction false} SpacedApart(published: seq<Published>, i: nat, j: nat)
    requires Spaced(published) && i <= j < |published|
    ensures published[j].at - published[i].at >= (j - i) * MIN_REFRESH_INTERVAL
    decreases j - i
  {
    if i < j { SpacedApart(published, i, j - 1); }
  }

  /** Any j - i + 1 successive publications span at least j - i refresh intervals, so a time T sees at most T / interval + 1. */
  lemma PublicationsAreThrottled(ttl: int, start: int, ops: seq<Op>, i: nat, j: nat, span: int)
    requires var p := Run(ttl, Init(start), ops).published; i <= j < |p| && p[j].at - p[i].at <= span
    ensures j - i + 1 <= span / MIN_REFRESH_INTERVAL + 1
  {
    RunKeeps(ttl, Init(start), ops);
    SpacedApart(Run(ttl, Init(start), ops).published, i, j);
  }

  /** Every call that answers with a key answers with its own kid's, from one whole published set at most ttl old when judged. */
  lemma ReturnedKeysAreFresh(ttl: int, start: int, ops: seq<Op>, t: Thread)
    requires var s := Run(ttl, Init(start), ops); t in s.threads && s.threads[t].pc.Done? && s.threads[t].pc.result.Some?
    ensures var s := Run(ttl, Init(start), ops);
      var f := s.threads[t].pc.result.value;
      f.kid == s.threads[t].kid && FromOneSet(ttl, s.published, f)
  {
    RunKeeps(ttl, Init(start), ops);
  }

  /** Outside the write lock a reader always finds keys and time of the same publication. */
  lemma NoTornRead(ttl: int, start: int, ops: seq<Op>, t: Thread)
    requires var s := Run(ttl, Init(start), ops); t in s.readers && s.keys.Some?
    ensures var s := Run(ttl, Init(start), ops);
      exists i :: 0 <= i < |s.published| && s.keys == Some(s.published[i].keys) && s.fetchedAt == Some(s.published[i].at)
  {
    RunKeeps(ttl, Init(start), ops);
    var s := Run(ttl, Init(start), ops);
    var i := |s.published| - 1;
    assert i >= 0 && s.keys == Some(s.published[i].keys) && s.fetchedAt == Some(s.published[i].at);
  }

  lemma {:induction false} RunConcat(ttl: int, s: State, a: seq<Op>, b: seq<Op>)
    ensures Run(ttl, s, a + b) == Run(ttl, Run(ttl, s, a), b)
    decreases |a|
  {
    if a == [] {
      assert a + b == b;
    } else {
      assert (a + b)[1..] == a[1..] + b;
      RunConcat(ttl, Step(ttl, s, a[0]), a[1..], b);
    }
  }
}
