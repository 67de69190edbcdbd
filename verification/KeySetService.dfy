/** The key set of one provider: reading a JWKS document, and `key` with no other goroutine about. */
module KeySetService {
  import opened Options
  import opened KeySetModel
  import KeySetTheorems

  // --- the document ------------------------------------------------------------------------

  newtype Octet = x: int | 0 <= x < 256
  type Octets = seq<Octet>

  /** One entry of a JSON Web Key Set (section 4 of RFC 7517); a number that is not base64url decodes to None. */
  datatype Jwk = Jwk(kty: string, kid: Kid, use: string, n: Option<Octets>, e: Option<Octets>)

  function BigEndian(octets: Octets): nat {
    if octets == [] then 0 else BigEndian(octets[..|octets| - 1]) * 256 + octets[|octets| - 1] as nat
  }

  /** The signed reading of the low 64 bits. */
  function Int64(x: nat): int {
    var low := x % 0x1_0000_0000_0000_0000;
    if low < 0x8000_0000_0000_0000 then low else low - 0x1_0000_0000_0000_0000
  }

  function RsaPublicKey(j: Jwk): Option<Key> {
    if j.n.None? || j.e.None? || |j.e.value| == 0 || |j.e.value| > 8 then None
    else Some(Key(BigEndian(j.n.value), Int64(BigEndian(j.e.value))))
  }

  predicate Usable(j: Jwk) {
    j.kty == "RSA" && (j.use == "" || j.use == "sig") && RsaPublicKey(j).Some?
  }

  function KeysIn(document: seq<Jwk>): Keys {
    if document == [] then map[]
    else
      var last := document[|document| - 1];
      var before := KeysIn(document[..|document| - 1]);
      if Usable(last) then before[last.kid := RsaPublicKey(last).value] else before
  }

  predicate LastUsable(document: seq<Jwk>, i: int, kid: Kid) {
    && 0 <= i < |document| && Usable(document[i]) && document[i].kid == kid
    && forall j :: i < j < |document| && Usable(document[j]) ==> document[j].kid != kid
  }

  /** A kid is published exactly when a usable entry carries it, and then with the last such entry's key. */
  lemma {:induction false} KeysAreTheLastUsable(document: seq<Jwk>, kid: Kid)
    ensures kid in KeysIn(document) <==> exists i :: LastUsable(document, i, kid)
    ensures forall i :: LastUsable(document, i, kid) ==> Some(KeysIn(document)[kid]) == RsaPublicKey(document[i])
  {
    if document != [] {
      var n := |document| - 1;
      var before := document[..n];
      KeysAreTheLastUsable(before, kid);
      if Usable(document[n]) && document[n].kid == kid {
        assert LastUsable(document, n, kid);
      } else {
        forall i
          ensures LastUsable(document, i, kid) <==> LastUsable(before, i, kid)
        {}
      }
    }
  }

  method ReadKeys(document: seq<Jwk>) returns (keys: Keys)
    ensures keys == KeysIn(document)
  {
    keys := map[];
    for i := 0 to |document|
      invariant keys == KeysIn(document[..i])
    {
      assert document[..i + 1][..i] == document[..i];
      var entry := document[i];
      if entry.kty != "RSA" || (entry.use != "" && entry.use != "sig") {
        continue;
      }
      var parsed := RsaPublicKey(entry);
      if parsed.None? {
        continue;
      }
      keys := keys[entry.kid := parsed.value];
    }
    assert document[..|document|] == document;
  }

  // --- the cache, one goroutine at a time --------------------------------------------------

  datatype Cache = Cache(keys: Option<Keys>, fetchedAt: Option<int>)

  function Lookup(ttl: int, now: int, c: Cache, kid: Kid): Option<Key> {
    if c.keys.None? || c.fetchedAt.None? || now - c.fetchedAt.value > ttl || kid !in c.keys.value then None
    else Some(c.keys.value[kid])
  }

  /** A fetch takes `wait`; `response` is what it would read, None when it fails or finds no usable key. */
  function Resolve(ttl: int, now: int, wait: nat, c: Cache, kid: Kid, response: Option<Keys>): (Cache, Option<Key>) {
    var hit := Lookup(ttl, now, c, kid);
    if hit.Some? then (c, hit)
    else if c.fetchedAt.Some? && now - c.fetchedAt.value < MIN_REFRESH_INTERVAL then (c, None)
    else if response.None? || response.value == map[] then (c, None)
    else
      var refreshed := Cache(response, Some(now + wait));
      (refreshed, Lookup(ttl, now + wait, refreshed, kid))
  }

  /** What `key` answered it goes on answering, from the set it answered from and with no fetch, until that set is too old. */
  lemma AnswersUntilStale(
    ttl: int, now: int, wait: nat, c: Cache, kid: Kid, response: Option<Keys>, later: int, nextWait: nat, next: Option<Keys>)
    requires Resolve(ttl, now, wait, c, kid, response).1.Some?
    ensures var (cache, key) := Resolve(ttl, now, wait, c, kid, response);
      && cache.keys.Some? && kid in cache.keys.value && key.value == cache.keys.value[kid]
      && cache.fetchedAt.Some?
      && (later <= cache.fetchedAt.value + ttl ==> Resolve(ttl, later, nextWait, cache, kid, next) == (cache, key))
  {}

  class KeySet {
    const ttl: int
    var keys: Option<Keys>
    var fetchedAt: Option<int>

    constructor (ttl: int)
      ensures this.ttl == ttl && Contents() == Cache(None, None)
    {
      this.ttl := ttl;
      keys, fetchedAt := None, None;
    }

    ghost function Contents(): Cache
      reads this
    {
      Cache(keys, fetchedAt)
    }

    /** A hit is a key of the current set, and only a set no older than the ttl gives one. */
    method Cached(now: int, kid: Kid) returns (key: Option<Key>)
      ensures key.Some? <==> keys.Some? && fetchedAt.Some? && now - fetchedAt.value <= ttl && kid in keys.value
      ensures key.Some? ==> key.value == keys.value[kid]
    {
      if keys.None? || fetchedAt.None? || now - fetchedAt.value > ttl || kid !in keys.value {
        return None;
      }
      key := Some(keys.value[kid]);
    }

    /** A document with no usable key changes nothing. */
    method Fetch(now: int, document: Option<seq<Jwk>>) returns (ok: bool)
      modifies this
      ensures ok <==> document.Some? && KeysIn(document.value) != map[]
      ensures Contents() == if ok then Cache(Some(KeysIn(document.value)), Some(now)) else old(Contents())
    {
      if document.None? {
        return false;
      }
      var read := ReadKeys(document.value);
      if read == map[] {
        return false;
      }
      keys, fetchedAt := Some(read), Some(now);
      ok := true;
    }

    method Key(now: int, wait: nat, kid: Kid, document: Option<seq<Jwk>>) returns (key: Option<KeySetModel.Key>)
      modifies this
      ensures (Contents(), key) ==
              Resolve(ttl, now, wait, old(Contents()), kid, if document.Some? then Some(KeysIn(document.value)) else None)
    {
      key := Cached(now, kid);
      if key.Some? {
        return;
      }
      if fetchedAt.Some? && now - fetchedAt.value < MIN_REFRESH_INTERVAL {
        return None;
      }
      var ok := Fetch(now + wait, document);
      if !ok {
        return None;
      }
      key := Cached(now + wait, kid);
    }
  }

  // --- a goroutine left alone does exactly that --------------------------------------------

  /** Only thread t takes steps; time may pass between them. */
  ghost predicate OnlyOf(ops: seq<Op>, t: Thread) {
    forall i :: 0 <= i < |ops| ==> ops[i].Tick? || (ops[i].Move? && ops[i].t == t)
  }

  /** s' is where some run of t alone takes s. */
  ghost predicate Reaches(ttl: int, s: State, t: Thread, s': State) {
    exists ops :: OnlyOf(ops, t) && Run(ttl, s, ops) == s'
  }

  lemma ReachesItself(ttl: int, s: State, t: Thread)
    ensures Reaches(ttl, s, t, s)
  {
    assert OnlyOf([], t) && Run(ttl, s, []) == s;
  }

  lemma ReachesOn(ttl: int, s: State, t: Thread, r: State, op: Op)
    requires Reaches(ttl, s, t, r) && OnlyOf([op], t)
    ensures Reaches(ttl, s, t, Step(ttl, r, op))
  {
    var ops :| OnlyOf(ops, t) && Run(ttl, s, ops) == r;
    KeySetTheorems.RunConcat(ttl, s, ops, [op]);
    assert [op][1..] == [];
    assert Run(ttl, r, [op]) == Run(ttl, Step(ttl, r, op), []) == Step(ttl, r, op);
    assert OnlyOf(ops + [op], t);
  }

  /** t is at pc, holding the locks that go with it and nobody else holding any. */
  ghost predicate At(s: State, t: Thread, kid: Kid, pc: Pc, c: Cache, now: int) {
    && t in s.threads && s.threads[t] == Local(kid, pc)
    && s.readers == (if KeySetTheorems.HoldsRead(pc) then {t} else {})
    && s.writer == (if KeySetTheorems.HoldsWrite(pc) then Some(t) else None)
    && s.refresh == (if KeySetTheorems.HoldsRefresh(pc) then Some(t) else None)
    && Cache(s.keys, s.fetchedAt) == c && s.now == now
  }

  function AfterMiss(phase: Phase): Pc {
    match phase
    case First => WaitRefresh
    case Second => Check
    case Third => Done(None)
  }

  /** Where a goroutine left alone goes next; a key picked is another matter. */
  function NextPc(ttl: int, kid: Kid, pc: Pc, c: Cache, now: int, response: Option<Keys>): Pc {
    match pc
    case Look(phase) => Looking(phase)
    case Looking(phase) => if c.keys.None? then AfterMiss(phase) else Dating(phase)
    case Dating(phase) =>
      if c.fetchedAt.None? || now - c.fetchedAt.value > ttl then AfterMiss(phase) else Picking(phase, now)
    case Picking(phase, datedAt) => AfterMiss(phase)
    case WaitRefresh => Look(Second)
    case Check => Checking
    case Checking => Throttle(c.fetchedAt)
    case Throttle(last) => if last.Some? && now - last.value < MIN_REFRESH_INTERVAL then Done(None) else Fetching
    case Fetching => if response.None? || response.value == map[] then Done(None) else Publish(response.value)
    case Publish(keys) => Publishing(keys)
    case Publishing(keys) => Stamping(keys)
    case Stamping(keys) => Stamped
    case Stamped => Look(Third)
    case Done(_) => pc
  }

  function NextCache(pc: Pc, c: Cache, now: int): Cache {
    if pc.Publishing? then c.(keys := Some(pc.keys))
    else if pc.Stamping? then c.(fetchedAt := Some(now))
    else c
  }

  predicate Picks(kid: Kid, pc: Pc, c: Cache) {
    pc.Picking? && c.keys.Some? && kid in c.keys.value
  }

  lemma ReadAt(ttl: int, r: State, t: Thread, kid: Kid, pc: Pc, c: Cache, now: int, response: Option<Keys>)
    requires At(r, t, kid, pc, c, now) && !Picks(kid, pc, c) && (pc.Look? || KeySetTheorems.HoldsRead(pc))
    ensures At(MoveThread(ttl, r, t, response), t, kid, NextPc(ttl, kid, pc, c, now, response), NextCache(pc, c, now), now)
  {
    assert {} + {t} == {t} && {t} - {t} == {} && {} - {t} == {};
  }

  lemma WriteAt(ttl: int, r: State, t: Thread, kid: Kid, pc: Pc, c: Cache, now: int, response: Option<Keys>)
    requires At(r, t, kid, pc, c, now) && !pc.Look? && !KeySetTheorems.HoldsRead(pc)
    ensures At(MoveThread(ttl, r, t, response), t, kid, NextPc(ttl, kid, pc, c, now, response), NextCache(pc, c, now), now)
  {
    assert {} + {t} == {t};
  }

  lemma MoveAt(ttl: int, r: State, t: Thread, kid: Kid, pc: Pc, c: Cache, now: int, response: Option<Keys>)
    requires At(r, t, kid, pc, c, now) && !Picks(kid, pc, c)
    ensures At(MoveThread(ttl, r, t, response), t, kid, NextPc(ttl, kid, pc, c, now, response), NextCache(pc, c, now), now)
  {
    if pc.Look? || KeySetTheorems.HoldsRead(pc) {
      ReadAt(ttl, r, t, kid, pc, c, now, response);
    } else {
      WriteAt(ttl, r, t, kid, pc, c, now, response);
    }
  }

  lemma PickAt(ttl: int, r: State, t: Thread, kid: Kid, pc: Pc, c: Cache, now: int) returns (origin: nat)
    requires At(r, t, kid, pc, c, now) && Picks(kid, pc, c)
    ensures At(MoveThread(ttl, r, t, None), t, kid, Done(Some(Found(kid, c.keys.value[kid], pc.datedAt, origin))), c, now)
  {
    assert {t} - {t} == {};
    origin := if r.published == [] then 0 else |r.published| - 1;
  }

  /** t can get from s to this place, alone. */
  ghost predicate Gets(ttl: int, s: State, t: Thread, kid: Kid, pc: Pc, c: Cache, now: int) {
    exists r :: Reaches(ttl, s, t, r) && At(r, t, kid, pc, c, now)
  }

  lemma GetsOn(ttl: int, s: State, t: Thread, kid: Kid, pc: Pc, c: Cache, now: int, response: Option<Keys>)
    requires Gets(ttl, s, t, kid, pc, c, now) && !Picks(kid, pc, c)
    ensures Gets(ttl, s, t, kid, NextPc(ttl, kid, pc, c, now, response), NextCache(pc, c, now), now)
  {
    var r :| Reaches(ttl, s, t, r) && At(r, t, kid, pc, c, now);
    assert OnlyOf([Move(t, response)], t);
    ReachesOn(ttl, s, t, r, Move(t, response));
    MoveAt(ttl, r, t, kid, pc, c, now, response);
  }

  lemma GetsKey(ttl: int, s: State, t: Thread, kid: Kid, pc: Pc, c: Cache, now: int) returns (origin: nat)
    requires Gets(ttl, s, t, kid, pc, c, now) && Picks(kid, pc, c)
    ensures Gets(ttl, s, t, kid, Done(Some(Found(kid, c.keys.value[kid], pc.datedAt, origin))), c, now)
  {
    var r :| Reaches(ttl, s, t, r) && At(r, t, kid, pc, c, now);
    assert OnlyOf([Move(t, None)], t);
    ReachesOn(ttl, s, t, r, Move(t, None));
    origin := PickAt(ttl, r, t, kid, pc, c, now);
  }

  lemma GetsLater(ttl: int, s: State, t: Thread, kid: Kid, pc: Pc, c: Cache, now: int, wait: nat)
    requires Gets(ttl, s, t, kid, pc, c, now)
    ensures Gets(ttl, s, t, kid, pc, c, now + wait)
  {
    var r :| Reaches(ttl, s, t, r) && At(r, t, kid, pc, c, now);
    assert OnlyOf([Tick(wait)], t);
    ReachesOn(ttl, s, t, r, Tick(wait));
    assert At(Step(ttl, r, Tick(wait)), t, kid, pc, c, now + wait);
  }

  function KeyOf(result: Option<Found>): Option<Key> {
    if result.None? then None else Some(result.value.key)
  }

  ghost predicate Answers(ttl: int, s: State, t: Thread, kid: Kid, c: Cache, key: Option<Key>) {
    exists result, now :: Gets(ttl, s, t, kid, Done(result), c, now) && KeyOf(result) == key
  }

  /** A whole call of `cached`: done with the key it finds, or on to what a miss leads to. */
  lemma CachedAlone(ttl: int, s: State, t: Thread, kid: Kid, phase: Phase, c: Cache, now: int)
    requires Gets(ttl, s, t, kid, Look(phase), c, now)
    ensures var hit := Lookup(ttl, now, c, kid);
      if hit.None? then Gets(ttl, s, t, kid, AfterMiss(phase), c, now) else Answers(ttl, s, t, kid, c, hit)
  {
    GetsOn(ttl, s, t, kid, Look(phase), c, now, None);
    GetsOn(ttl, s, t, kid, Looking(phase), c, now, None);
    if c.keys.Some? {
      GetsOn(ttl, s, t, kid, Dating(phase), c, now, None);
      if c.fetchedAt.Some? && now - c.fetchedAt.value <= ttl {
        if kid in c.keys.value {
          var origin := GetsKey(ttl, s, t, kid, Picking(phase, now), c, now);
          assert KeyOf(Some(Found(kid, c.keys.value[kid], now, origin))) == Lookup(ttl, now, c, kid);
        } else {
          GetsOn(ttl, s, t, kid, Picking(phase, now), c, now, None);
        }
      }
    }
  }

  /** From under `refresh` to the start of a fetch, or to the throttle's refusal. */
  lemma ThrottleAlone(ttl: int, s: State, t: Thread, kid: Kid, c: Cache, now: int)
    requires Gets(ttl, s, t, kid, Check, c, now)
    ensures Gets(ttl, s, t, kid,
                 if c.fetchedAt.Some? && now - c.fetchedAt.value < MIN_REFRESH_INTERVAL then Done(None) else Fetching, c, now)
  {
    GetsOn(ttl, s, t, kid, Check, c, now, None);
    GetsOn(ttl, s, t, kid, Checking, c, now, None);
    GetsOn(ttl, s, t, kid, Throttle(c.fetchedAt), c, now, None);
  }

  /** The write lock, both fields, and the lock released. */
  lemma PublishAlone(ttl: int, s: State, t: Thread, kid: Kid, c: Cache, now: int, keys: Keys)
    requires Gets(ttl, s, t, kid, Publish(keys), c, now)
    ensures Gets(ttl, s, t, kid, Look(Third), Cache(Some(keys), Some(now)), now)
  {
    GetsOn(ttl, s, t, kid, Publish(keys), c, now, None);
    GetsOn(ttl, s, t, kid, Publishing(keys), c, now, None);
    GetsOn(ttl, s, t, kid, Stamping(keys), Cache(Some(keys), c.fetchedAt), now, None);
    GetsOn(ttl, s, t, kid, Stamped, Cache(Some(keys), Some(now)), now, None);
  }

  /** A fetch that takes `wait`: a failure leaves the cache alone, a success replaces both fields. */
  lemma FetchAlone(ttl: int, s: State, t: Thread, kid: Kid, c: Cache, now: int, wait: nat, response: Option<Keys>)
    requires Gets(ttl, s, t, kid, Fetching, c, now)
    ensures if response.None? || response.value == map[] then Gets(ttl, s, t, kid, Done(None), c, now + wait)
            else Gets(ttl, s, t, kid, Look(Third), Cache(response, Some(now + wait)), now + wait)
  {
    GetsLater(ttl, s, t, kid, Fetching, c, now, wait);
    GetsOn(ttl, s, t, kid, Fetching, c, now + wait, response);
    if response.Some? && response.value != map[] { PublishAlone(ttl, s, t, kid, c, now + wait, response.value); }
  }

  lemma MissAlone(ttl: int, s: State, t: Thread, kid: Kid, c: Cache, now: int, wait: nat, response: Option<Keys>)
    requires Gets(ttl, s, t, kid, Check, c, now) && Lookup(ttl, now, c, kid).None?
    ensures var (cache, key) := Resolve(ttl, now, wait, c, kid, response); Answers(ttl, s, t, kid, cache, key)
  {
    assert KeyOf(None) == None;
    ThrottleAlone(ttl, s, t, kid, c, now);
    if c.fetchedAt.None? || now - c.fetchedAt.value >= MIN_REFRESH_INTERVAL {
      FetchAlone(ttl, s, t, kid, c, now, wait, response);
      if response.Some? && response.value != map[] {
        CachedAlone(ttl, s, t, kid, Third, Cache(response, Some(now + wait)), now + wait);
      }
    }
  }

  /**
   A goroutine that runs with no other about reaches the end the sequential method describes: with
   its answer, and leaving its cache.
   */
  lemma AloneIsSequential(
    ttl: int, s: State, t: Thread, kid: Kid, c: Cache, now: int, wait: nat, response: Option<Keys>)
    requires At(s, t, kid, Look(First), c, now)
    ensures var (cache, key) := Resolve(ttl, now, wait, c, kid, response); Answers(ttl, s, t, kid, cache, key)
  {
    ReachesItself(ttl, s, t);
    CachedAlone(ttl, s, t, kid, First, c, now);
    if Lookup(ttl, now, c, kid).None? {
      GetsOn(ttl, s, t, kid, WaitRefresh, c, now, None);
      CachedAlone(ttl, s, t, kid, Second, c, now);
      MissAlone(ttl, s, t, kid, c, now, wait, response);
    }
  }
}
