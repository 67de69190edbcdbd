/**
 The JWKS cache: goroutines calling `key` at once.  `mu` is a reader/writer lock over the two
 fields; `refresh` serialises the misses.  Every field access, lock operation and clock reading
 is a step of its own.
 */
module KeySetModel {
  import opened Options

  type Kid = string
  datatype Key = Key(modulus: nat, exponent: int)
  type Keys = map<Kid, Key>
  type Thread = nat

  const MIN_REFRESH_INTERVAL := 60_000_000_000

  /** The three calls of `cached` inside one call of `key`; the last two run under `refresh`. */
  datatype Phase = First | Second | Third

  datatype Pc =
    | Look(phase: Phase)                     // about to take the read lock
    | Looking(phase: Phase)                  // about to test keys for nil
    | Dating(phase: Phase)                   // about to compare the age with the ttl
    | Picking(phase: Phase, datedAt: int)    // about to read keys[kid]
    | WaitRefresh
    | Check                                  // about to take the read lock for fetchedAt
    | Checking
    | Throttle(last: Option<int>)
    | Fetching
    | Publish(keys: Keys)                    // about to take the write lock
    | Publishing(keys: Keys)                 // about to write keys
    | Stamping(keys: Keys)                   // about to write fetchedAt
    | Stamped                                // about to release the write lock
    | Done(result: Option<Found>)

  /** A key handed to a caller; when its set's age was judged, and which published set it was. */
  datatype Found = Found(kid: Kid, key: Key, datedAt: int, origin: nat)

  datatype Local = Local(kid: Kid, pc: Pc)

  datatype Published = Published(at: int, keys: Keys)

  /** One request to the provider: when it started, and whether it came to a publication. */
  datatype End = Running | Failed | Succeeded
  datatype Fetch = Fetch(start: int, end: End)

  datatype State = State(
    now: int,
    keys: Option<Keys>, fetchedAt: Option<int>,
    readers: set<Thread>, writer: Option<Thread>, refresh: Option<Thread>,
    threads: map<Thread, Local>,
    published: seq<Published>, fetches: seq<Fetch>)

  datatype Op =
    | Tick(ticks: nat)
    | Call(t: Thread, kid: Kid)
    | Move(t: Thread, response: Option<Keys>)   // the response matters only to a fetch in flight

  function Init(now: int): State {
    State(now, None, None, {}, None, None, map[], [], [])
  }

  function Goto(s: State, t: Thread, pc: Pc): State
    requires t in s.threads
  {
    s.(threads := s.threads[t := s.threads[t].(pc := pc)])
  }

  predicate UnderRefresh(phase: Phase) {
    phase != First
  }

  /** Leave `key`; the deferred unlock releases `refresh` if this call took it. */
  function Finish(s: State, t: Thread, underRefresh: bool, result: Option<Found>): State
    requires t in s.threads
  {
    Goto(s.(refresh := if underRefresh then None else s.refresh), t, Done(result))
  }

  /** `cached` answered no: release the read lock and go on with `key`. */
  function Miss(s: State, t: Thread, phase: Phase): State
    requires t in s.threads
  {
    var released := s.(readers := s.readers - {t});
    match phase
    case First => Goto(released, t, WaitRefresh)
    case Second => Goto(released, t, Check)
    case Third => Finish(released, t, true, None)
  }

  /** The latest request, under `refresh` the only one that can be running, ends. */
  function Ended(fetches: seq<Fetch>, end: End): seq<Fetch> {
    if fetches == [] then [] else fetches[|fetches| - 1 := fetches[|fetches| - 1].(end := end)]
  }

  function MoveThread(ttl: int, s: State, t: Thread, response: Option<Keys>): State
    requires t in s.threads
  {
    var kid := s.threads[t].kid;
    match s.threads[t].pc
    case Look(phase) =>
      if s.writer.Some? then s else Goto(s.(readers := s.readers + {t}), t, Looking(phase))
    case Looking(phase) =>
      if s.keys.None? then Miss(s, t, phase) else Goto(s, t, Dating(phase))
    case Dating(phase) =>
      if s.fetchedAt.None? || s.now - s.fetchedAt.value > ttl then Miss(s, t, phase)
      else Goto(s, t, Picking(phase, s.now))
    case Picking(phase, datedAt) =>
      if s.keys.None? || kid !in s.keys.value then Miss(s, t, phase)
      else
        var origin := if s.published == [] then 0 else |s.published| - 1;
        Finish(s.(readers := s.readers - {t}), t, UnderRefresh(phase), Some(Found(kid, s.keys.value[kid], datedAt, origin)))
    case WaitRefresh =>
      if s.refresh.Some? then s else Goto(s.(refresh := Some(t)), t, Look(Second))
    case Check =>
      if s.writer.Some? then s else Goto(s.(readers := s.readers + {t}), t, Checking)
    case Checking =>
      Goto(s.(readers := s.readers - {t}), t, Throttle(s.fetchedAt))
    case Throttle(last) =>
      if last.Some? && s.now - last.value < MIN_REFRESH_INTERVAL then Finish(s, t, true, None)
      else Goto(s.(fetches := s.fetches + [Fetch(s.now, Running)]), t, Fetching)
    case Fetching =>
      if response.None? || response.value == map[] then Finish(s.(fetches := Ended(s.fetches, Failed)), t, true, None)
      else Goto(s, t, Publish(response.value))
    case Publish(keys) =>
      if s.writer.Some? || s.readers != {} then s else Goto(s.(writer := Some(t)), t, Publishing(keys))
    case Publishing(keys) =>
      Goto(s.(keys := Some(keys)), t, Stamping(keys))
    case Stamping(keys) =>
      Goto(s.(fetchedAt := Some(s.now), published := s.published + [Published(s.now, keys)],
              fetches := Ended(s.fetches, Succeeded)), t, Stamped)
    case Stamped =>
      Goto(s.(writer := None), t, Look(Third))
    case Done(_) => s
  }

  function Step(ttl: int, s: State, op: Op): State {
    match op
    case Tick(ticks) => s.(now := s.now + ticks)
    case Call(t, kid) =>
      if t in s.threads && !s.threads[t].pc.Done? then s else s.(threads := s.threads[t := Local(kid, Look(First))])
    case Move(t, response) =>
      if t in s.threads then MoveThread(ttl, s, t, response) else s
  }

  function Run(ttl: int, s: State, ops: seq<Op>): State
    decreases |ops|
  {
    if ops == [] then s else Run(ttl, Step(ttl, s, ops[0]), ops[1..])
  }
}
