/**
 The migration runner.  Each migration commits together with its ledger row or not at all; a run
 may stop at any of them, and what the operator sees as a failure may yet have committed.
 */
module MigrationModel {
  import opened Faults

  type Version = string
  datatype Migration = Migration(version: Version, name: string, sql: string, checksum: string, createsUsers: bool)

  /** `executed` is the schema, as the list of what built it; `users` is the probed table. */
  datatype Db = Db(executed: seq<Migration>, ledger: map<Version, string>, users: bool)

  datatype Result = Nil | NeedsBaseline | ChecksumMismatch | Failed | Refused
  datatype Outcome = Outcome(db: Db, result: Result)

  function Empty(): Db {
    Db([], map[], false)
  }

  function Commit(db: Db, m: Migration): Db {
    Db(db.executed + [m], db.ledger[m.version := m.checksum], db.users || m.createsUsers)
  }

  /** The version is the ledger's primary key: a second row for one is refused and rolls its SQL back. */
  function ApplyOne(db: Db, m: Migration, fate: Fate): Outcome {
    if fate.Fails? || m.version in db.ledger then Outcome(db, Failed)
    else Outcome(Commit(db, m), if fate.Lost? then Failed else Nil)
  }

  /** `seen` is the ledger as it was read when the run began; `fates` are those of the transactions still to come. */
  function ApplyFrom(db: Db, seen: map<Version, string>, ms: seq<Migration>, fates: seq<Fate>): Outcome
    decreases |ms|
  {
    if ms == [] then Outcome(db, Nil)
    else if ms[0].version in seen then
      if seen[ms[0].version] != ms[0].checksum then Outcome(db, ChecksumMismatch)
      else ApplyFrom(db, seen, ms[1..], fates)
    else
      var one := ApplyOne(db, ms[0], First(fates));
      if one.result != Nil then one else ApplyFrom(one.db, seen, ms[1..], Rest(fates))
  }

  function Migrate(db: Db, ms: seq<Migration>, fates: seq<Fate>): Outcome {
    if db.ledger == map[] && ms != [] && db.users then Outcome(db, NeedsBaseline)
    else ApplyFrom(db, db.ledger, ms, fates)
  }

  function Pending(ledger: map<Version, string>, ms: seq<Migration>): seq<Migration>
    decreases |ms|
  {
    if ms == [] then []
    else (if ms[0].version in ledger then [] else [ms[0]]) + Pending(ledger, ms[1..])
  }

  /** Record without running, one statement at a time: a failure leaves what came before. */
  function RecordFrom(db: Db, ms: seq<Migration>, fates: seq<Fate>): Outcome
    decreases |ms|
  {
    if ms == [] then Outcome(db, Nil)
    else if First(fates).Fails? || ms[0].version in db.ledger then Outcome(db, Failed)
    else
      var recorded := db.(ledger := db.ledger[ms[0].version := ms[0].checksum]);
      if First(fates).Lost? then Outcome(recorded, Failed) else RecordFrom(recorded, ms[1..], Rest(fates))
  }

  function Baseline(db: Db, ms: seq<Migration>, fates: seq<Fate>): Outcome {
    if db.ledger != map[] || !db.users then Outcome(db, Refused) else RecordFrom(db, ms, fates)
  }

  /** One run of the command, by a release that ships `ms`. */
  datatype Attempt = Attempt(ms: seq<Migration>, fates: seq<Fate>)

  function Attempts(db: Db, runs: seq<Attempt>): Db
    decreases |runs|
  {
    if runs == [] then db else Attempts(Migrate(db, runs[0].ms, runs[0].fates).db, runs[1..])
  }

  ghost predicate Distinct(ms: seq<Migration>) {
    forall i, j :: 0 <= i < j < |ms| ==> ms[i].version != ms[j].version
  }

  /** No listed migration differs from the one its version was recorded with. */
  predicate Unedited(ledger: map<Version, string>, ms: seq<Migration>) {
    forall i :: 0 <= i < |ms| && ms[i].version in ledger ==> ledger[ms[i].version] == ms[i].checksum
  }
}
