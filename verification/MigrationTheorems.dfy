/** What any sequence of migration runs keeps, however each is cut short. */
module MigrationTheorems {
  import opened Faults
  import opened MigrationModel

  // --- one run, on any database ------------------------------------------------------------

  ghost predicate Extends(before: map<Version, string>, after: map<Version, string>) {
    forall v :: v in before ==> v in after && after[v] == before[v]
  }

  /** Every recorded version was executed or baselined once; nothing is executed that is not recorded. */
  ghost predicate RecordedOnce(db: Db) {
    && Distinct(db.executed)
    && forall i :: 0 <= i < |db.executed| ==> db.executed[i].version in db.ledger
  }

  lemma CommitRecordsOnce(db: Db, m: Migration)
    requires RecordedOnce(db) && m.version !in db.ledger
    ensures RecordedOnce(Commit(db, m))
  {}

  lemma {:induction false} ApplyRecordsOnce(db: Db, seen: map<Version, string>, ms: seq<Migration>, fates: seq<Fate>)
    requires RecordedOnce(db)
    ensures var r := ApplyFrom(db, seen, ms, fates);
      RecordedOnce(r.db) && Extends(db.ledger, r.db.ledger) && db.executed <= r.db.executed
    decreases |ms|
  {
    if ms != [] {
      if ms[0].version in seen {
        ApplyRecordsOnce(db, seen, ms[1..], fates);
      } else if ms[0].version !in db.ledger {
        CommitRecordsOnce(db, ms[0]);
        ApplyRecordsOnce(Commit(db, ms[0]), seen, ms[1..], Rest(fates));
      }
    }
  }

  /** Whatever lists the releases ship and however each run ends, no version's SQL ever commits twice, and no row changes. */
  lemma {:induction false} CommitsAtMostOnce(db: Db, runs: seq<Attempt>)
    requires RecordedOnce(db)
    ensures var end := Attempts(db, runs);
      Distinct(end.executed) && db.executed <= end.executed && Extends(db.ledger, end.ledger)
    ensures RecordedOnce(Attempts(db, runs))
    decreases |runs|
  {
    if runs != [] {
      ApplyRecordsOnce(db, db.ledger, runs[0].ms, runs[0].fates);
      CommitsAtMostOnce(Migrate(db, runs[0].ms, runs[0].fates).db, runs[1..]);
    }
  }

  lemma {:induction false} EditStops(db: Db, seen: map<Version, string>, ms: seq<Migration>, fates: seq<Fate>)
    requires !Unedited(seen, ms)
    ensures ApplyFrom(db, seen, ms, fates).result != Nil
    decreases |ms|
  {
    if ms[0].version in seen {
      if seen[ms[0].version] == ms[0].checksum {
        assert !Unedited(seen, ms[1..]) by { UneditedTail(seen, ms); }
        EditStops(db, seen, ms[1..], fates);
      }
    } else {
      assert !Unedited(seen, ms[1..]) by { UneditedTail(seen, ms); }
      var one := ApplyOne(db, ms[0], First(fates));
      if one.result == Nil { EditStops(one.db, seen, ms[1..], Rest(fates)); }
    }
  }

  lemma UneditedTail(seen: map<Version, string>, ms: seq<Migration>)
    requires ms != []
    ensures Unedited(seen, ms) <==>
            (ms[0].version in seen ==> seen[ms[0].version] == ms[0].checksum) && Unedited(seen, ms[1..])
  {}

  /** A migration edited after its version was recorded: no release that ships the edit ever gets a run through. */
  lemma EditedNeverPasses(db: Db, runs: seq<Attempt>, ms: seq<Migration>, fates: seq<Fate>)
    requires RecordedOnce(db) && !Unedited(db.ledger, ms)
    ensures Migrate(Attempts(db, runs), ms, fates).result != Nil
  {
    CommitsAtMostOnce(db, runs);
    var end := Attempts(db, runs);
    var i :| 0 <= i < |ms| && ms[i].version in db.ledger && db.ledger[ms[i].version] != ms[i].checksum;
    assert ms[i].version in end.ledger && end.ledger[ms[i].version] != ms[i].checksum;
    EditStops(end, end.ledger, ms, fates);
  }

  // --- what a run applies ------------------------------------------------------------------

  lemma Between(done: seq<Migration>, m: Migration, more: seq<Migration>, end: seq<Migration>)
    requires done + [m] <= end <= done + [m] + more
    ensures done <= end <= done + ([m] + more)
    ensures end == done + [m] + more ==> end == done + ([m] + more)
  {
    assert done + [m] + more == done + ([m] + more);
  }

  /** The run executes a beginning of the pending list; all of it exactly when it returns nil. */
  lemma {:induction false} ApplyExecutes(db: Db, seen: map<Version, string>, ms: seq<Migration>, fates: seq<Fate>)
    ensures var r := ApplyFrom(db, seen, ms, fates);
      && db.executed <= r.db.executed <= db.executed + Pending(seen, ms)
      && (r.result == Nil ==> r.db.executed == db.executed + Pending(seen, ms))
    decreases |ms|
  {
    if ms != [] {
      if ms[0].version in seen {
        ApplyExecutes(db, seen, ms[1..], fates);
      } else {
        var one := ApplyOne(db, ms[0], First(fates));
        var rest := Pending(seen, ms[1..]);
        if one.result == Nil {
          ApplyExecutes(one.db, seen, ms[1..], Rest(fates));
          Between(db.executed, ms[0], rest, ApplyFrom(one.db, seen, ms[1..], Rest(fates)).db.executed);
        } else {
          assert one.db.executed == db.executed || one.db.executed == db.executed + [ms[0]];
          Between(db.executed, ms[0], rest, db.executed + [ms[0]]);
        }
      }
    }
  }

  /** `Pending` names exactly what the next run applies: all of it if the run returns nil, a beginning of it otherwise. */
  lemma PendingIsTheNextRun(db: Db, ms: seq<Migration>, fates: seq<Fate>)
    ensures var r := Migrate(db, ms, fates);
      && db.executed <= r.db.executed <= db.executed + Pending(db.ledger, ms)
      && (r.result == Nil ==> r.db.executed == db.executed + Pending(db.ledger, ms))
  {
    ApplyExecutes(db, db.ledger, ms, fates);
  }

  lemma {:induction false} PendingHas(seen: map<Version, string>, ms: seq<Migration>, m: Migration)
    ensures m in Pending(seen, ms) <==> m in ms && m.version !in seen
    decreases |ms|
  {
    if ms != [] {
      PendingHas(seen, ms[1..], m);
      assert m in ms <==> m == ms[0] || m in ms[1..];
    }
  }

  ghost predicate DistinctFrom(m: Migration, ms: seq<Migration>) {
    forall i :: 0 <= i < |ms| ==> ms[i].version != m.version
  }

  lemma DistinctCons(m: Migration, ms: seq<Migration>)
    ensures Distinct([m] + ms) <==> DistinctFrom(m, ms) && Distinct(ms)
  {
    var all := [m] + ms;
    assert forall i :: 0 <= i < |ms| ==> all[i + 1] == ms[i];
    if Distinct(all) {
      forall i | 0 <= i < |ms|
        ensures ms[i].version != m.version
      {
        assert all[0].version != all[i + 1].version;
      }
      forall i, j | 0 <= i < j < |ms|
        ensures ms[i].version != ms[j].version
      {
        assert all[i + 1].version != all[j + 1].version;
      }
    }
  }

  /** The first n transactions all work. */
  ghost predicate AllWork(fates: seq<Fate>, n: nat) {
    forall i :: 0 <= i < n && i < |fates| ==> fates[i].Works?
  }

  lemma AllWorkTail(fates: seq<Fate>, n: nat)
    requires n > 0
    ensures AllWork(fates, n) <==> First(fates).Works? && AllWork(Rest(fates), n - 1)
  {}

  ghost predicate Unrecorded(ledger: map<Version, string>, ms: seq<Migration>) {
    forall i :: 0 <= i < |ms| ==> ms[i].version !in ledger
  }

  lemma UnrecordedCons(db: Db, m: Migration, ms: seq<Migration>)
    requires m.version !in db.ledger
    ensures Unrecorded(Commit(db, m).ledger, ms) <==> DistinctFrom(m, ms) && Unrecorded(db.ledger, ms)
    ensures Unrecorded(db.ledger, [m] + ms) <==> Unrecorded(db.ledger, ms)
  {
    assert forall i :: 0 <= i < |ms| ==> ([m] + ms)[i + 1] == ms[i];
  }

  /** The conditions under which a list runs through: nothing edited, no version twice, no transaction failing. */
  ghost predicate Clean(db: Db, seen: map<Version, string>, ms: seq<Migration>, fates: seq<Fate>) {
    var p := Pending(seen, ms);
    Unedited(seen, ms) && Distinct(p) && Unrecorded(db.ledger, p) && AllWork(fates, |p|)
  }

  lemma CleanSkip(db: Db, seen: map<Version, string>, ms: seq<Migration>, fates: seq<Fate>)
    requires ms != [] && ms[0].version in seen
    ensures Clean(db, seen, ms, fates) <==> seen[ms[0].version] == ms[0].checksum && Clean(db, seen, ms[1..], fates)
  {
    UneditedTail(seen, ms);
    assert Pending(seen, ms) == Pending(seen, ms[1..]);
  }

  lemma CleanApply(db: Db, seen: map<Version, string>, ms: seq<Migration>, fates: seq<Fate>)
    requires ms != [] && ms[0].version !in seen && ms[0].version !in db.ledger
    ensures Clean(db, seen, ms, fates) <==>
            First(fates).Works? && Clean(Commit(db, ms[0]), seen, ms[1..], Rest(fates))
  {
    var p := Pending(seen, ms[1..]);
    assert Pending(seen, ms) == [ms[0]] + p;
    UneditedTail(seen, ms);
    DistinctCons(ms[0], p);
    UnrecordedCons(db, ms[0], p);
    AllWorkTail(fates, |p| + 1);
  }

  lemma {:induction false} ApplySucceedsIff(db: Db, seen: map<Version, string>, ms: seq<Migration>, fates: seq<Fate>)
    ensures ApplyFrom(db, seen, ms, fates).result == Nil <==> Clean(db, seen, ms, fates)
    decreases |ms|
  {
    if ms != [] {
      if ms[0].version in seen {
        CleanSkip(db, seen, ms, fates);
        ApplySucceedsIff(db, seen, ms[1..], fates);
      } else if ms[0].version !in db.ledger {
        CleanApply(db, seen, ms, fates);
        ApplySucceedsIff(Commit(db, ms[0]), seen, ms[1..], Rest(fates));
      } else {
        assert Pending(seen, ms)[0] == ms[0];
      }
    }
  }

  /**
   A run returns nil exactly when it may start, nothing recorded was edited, no pending version
   appears twice, and no transaction it needs fails.
   */
  lemma MigrateSucceedsIff(db: Db, ms: seq<Migration>, fates: seq<Fate>)
    ensures var p := Pending(db.ledger, ms);
      Migrate(db, ms, fates).result == Nil <==>
      (db.ledger != map[] || ms == [] || !db.users) && Unedited(db.ledger, ms) && Distinct(p) && AllWork(fates, |p|)
  {
    ApplySucceedsIff(db, db.ledger, ms, fates);
    var p := Pending(db.ledger, ms);
    forall i | 0 <= i < |p|
      ensures p[i].version !in db.ledger
    {
      PendingHas(db.ledger, ms, p[i]);
    }
  }

  // --- from an empty database --------------------------------------------------------------

  /** The database these migrations build when run in this order on nothing. */
  function Build(ms: seq<Migration>): Db {
    if ms == [] then Empty() else Commit(Build(ms[..|ms| - 1]), ms[|ms| - 1])
  }

  lemma BuildOneMore(ms: seq<Migration>, m: Migration)
    ensures Build(ms + [m]) == Commit(Build(ms), m)
  {}

  lemma {:induction false} BuildExecutes(ms: seq<Migration>)
    ensures Build(ms).executed == ms
  {
    if ms != [] { BuildExecutes(ms[..|ms| - 1]); }
  }

  lemma {:induction false} BuildRecords(ms: seq<Migration>, v: Version)
    ensures v in Build(ms).ledger <==> exists i :: 0 <= i < |ms| && ms[i].version == v
  {
    if ms != [] {
      var n := |ms| - 1;
      BuildRecords(ms[..n], v);
      if v in Build(ms[..n]).ledger {
        var i :| 0 <= i < n && ms[..n][i].version == v;
        assert ms[i].version == v;
      } else {
        assert forall i :: 0 <= i < n ==> ms[..n][i] == ms[i];
      }
    }
  }

  lemma CommitBuilds(db: Db, m: Migration)
    requires db == Build(db.executed)
    ensures Commit(db, m) == Build(Commit(db, m).executed)
  {
    BuildOneMore(db.executed, m);
  }

  lemma {:induction false} ApplyBuilds(db: Db, seen: map<Version, string>, ms: seq<Migration>, fates: seq<Fate>)
    requires db == Build(db.executed)
    ensures var r := ApplyFrom(db, seen, ms, fates).db; r == Build(r.executed)
    decreases |ms|
  {
    if ms != [] {
      if ms[0].version in seen {
        ApplyBuilds(db, seen, ms[1..], fates);
      } else if ms[0].version !in db.ledger {
        CommitBuilds(db, ms[0]);
        ApplyBuilds(Commit(db, ms[0]), seen, ms[1..], Rest(fates));
      }
    }
  }

  lemma MigrateBuilds(db: Db, ms: seq<Migration>, fates: seq<Fate>)
    requires db == Build(db.executed)
    ensures var r := Migrate(db, ms, fates).db; r == Build(r.executed)
  {
    ApplyBuilds(db, db.ledger, ms, fates);
  }

  lemma {:induction false} AttemptsBuild(db: Db, runs: seq<Attempt>)
    requires db == Build(db.executed)
    ensures var end := Attempts(db, runs); end == Build(end.executed)
    decreases |runs|
  {
    if runs != [] {
      MigrateBuilds(db, runs[0].ms, runs[0].fates);
      AttemptsBuild(Migrate(db, runs[0].ms, runs[0].fates).db, runs[1..]);
    }
  }

  lemma {:induction false} PendingAll(ledger: map<Version, string>, ms: seq<Migration>)
    requires Unrecorded(ledger, ms)
    ensures Pending(ledger, ms) == ms
    decreases |ms|
  {
    if ms != [] {
      assert forall i :: 0 <= i < |ms[1..]| ==> ms[1..][i] == ms[i + 1];
      PendingAll(ledger, ms[1..]);
    }
  }

  /** A fresh, uninterrupted run succeeds exactly when no version is listed twice, and then builds the whole list. */
  lemma FreshRunCompletesIff(ms: seq<Migration>)
    ensures Migrate(Empty(), ms, []).result == Nil <==> Distinct(ms)
    ensures Distinct(ms) ==> Migrate(Empty(), ms, []).db == Build(ms)
  {
    MigrateSucceedsIff(Empty(), ms, []);
    PendingAll(map[], ms);
    PendingIsTheNextRun(Empty(), ms, []);
    MigrateBuilds(Empty(), ms, []);
    assert [] + ms == ms;
  }

  /** A list that begins with what was executed has exactly the rest pending. */
  lemma {:induction false} PendingIsTheRest(ledger: map<Version, string>, ms: seq<Migration>, k: nat)
    requires k <= |ms| && Unrecorded(ledger, ms[k..])
    requires forall i :: 0 <= i < k ==> ms[i].version in ledger
    ensures Pending(ledger, ms) == ms[k..]
    decreases |ms|
  {
    if k == 0 {
      assert ms[0..] == ms;
      PendingAll(ledger, ms);
    } else {
      assert ms[1..][k - 1..] == ms[k..];
      PendingIsTheRest(ledger, ms[1..], k - 1);
    }
  }

  lemma PrefixPends(executed: seq<Migration>, ms: seq<Migration>)
    requires Distinct(ms) && executed <= ms
    ensures Pending(Build(executed).ledger, ms) == ms[|executed|..]
  {
    var k := |executed|;
    forall i | 0 <= i < |ms|
      ensures ms[i].version in Build(executed).ledger <==> i < k
    {
      BuildRecords(executed, ms[i].version);
      if i < k { assert executed[i].version == ms[i].version; }
    }
    PendingIsTheRest(Build(executed).ledger, ms, k);
  }

  lemma NilExecutesTheList(executed: seq<Migration>, ms: seq<Migration>)
    requires Distinct(ms)
    ensures executed + Pending(Build(executed).ledger, ms) == ms <==> executed <= ms
  {
    if executed <= ms {
      PrefixPends(executed, ms);
      assert executed + ms[|executed|..] == ms;
    }
  }

  lemma BuiltConvergesIff(db: Db, ms: seq<Migration>, fates: seq<Fate>)
    requires Distinct(ms) && db == Build(db.executed) && Migrate(db, ms, fates).result == Nil
    ensures Migrate(db, ms, fates).db == Build(ms) <==> db.executed <= ms
  {
    NilExecutesTheList(db.executed, ms);
    PendingIsTheNextRun(db, ms, fates);
    MigrateBuilds(db, ms, fates);
    BuildExecutes(ms);
  }

  /**
   A release's first complete run leaves the database of a fresh, uninterrupted install exactly
   when what ran before it, under whatever releases and interruptions, is a beginning of its list.
   */
  lemma ConvergesIff(runs: seq<Attempt>, ms: seq<Migration>, fates: seq<Fate>)
    requires Distinct(ms)
    requires Migrate(Attempts(Empty(), runs), ms, fates).result == Nil
    ensures var db := Attempts(Empty(), runs);
      Migrate(db, ms, fates).db == Migrate(Empty(), ms, []).db <==> db.executed <= ms
  {
    AttemptsBuild(Empty(), runs);
    BuiltConvergesIff(Attempts(Empty(), runs), ms, fates);
    FreshRunCompletesIff(ms);
  }

  ghost predicate AllShipBeginningsOf(runs: seq<Attempt>, ms: seq<Migration>) {
    forall i :: 0 <= i < |runs| ==> runs[i].ms <= ms
  }

  lemma BeginningStays(executed: seq<Migration>, shipped: seq<Migration>, ms: seq<Migration>)
    requires Distinct(ms) && shipped <= ms && executed <= ms
    ensures executed + Pending(Build(executed).ledger, shipped) <= ms
  {
    var k := |executed|;
    if k <= |shipped| {
      PrefixPends(executed, shipped);
      assert executed + shipped[k..] == shipped;
    } else {
      forall i | 0 <= i < |shipped|
        ensures shipped[i].version in Build(executed).ledger
      {
        BuildRecords(executed, shipped[i].version);
        assert executed[i].version == shipped[i].version;
      }
      PendingIsTheRest(Build(executed).ledger, shipped, |shipped|);
      assert executed + [] == executed;
    }
  }

  lemma RunStaysABeginning(db: Db, ms: seq<Migration>, run: Attempt)
    requires Distinct(ms) && run.ms <= ms && db == Build(db.executed) && db.executed <= ms
    ensures var next := Migrate(db, run.ms, run.fates).db; next == Build(next.executed) && next.executed <= ms
  {
    BeginningStays(db.executed, run.ms, ms);
    PendingIsTheNextRun(db, run.ms, run.fates);
    MigrateBuilds(db, run.ms, run.fates);
  }

  /** From an empty database, at every point of every sequence of interrupted runs, the ledger is a beginning of the sorted list. */
  lemma {:induction false} LedgerIsABeginning(db: Db, runs: seq<Attempt>, ms: seq<Migration>)
    requires Distinct(ms) && AllShipBeginningsOf(runs, ms)
    requires db == Build(db.executed) && db.executed <= ms
    ensures var end := Attempts(db, runs); end.executed <= ms && end == Build(end.executed)
    decreases |runs|
  {
    if runs != [] {
      RunStaysABeginning(db, ms, runs[0]);
      LedgerIsABeginning(Migrate(db, runs[0].ms, runs[0].fates).db, runs[1..], ms);
    }
  }

  /** Crash and retry converge: once a run returns nil, it is as if one run had never been interrupted. */
  lemma CrashAndRetryConverge(runs: seq<Attempt>, ms: seq<Migration>, fates: seq<Fate>)
    requires Distinct(ms) && AllShipBeginningsOf(runs, ms)
    requires Migrate(Attempts(Empty(), runs), ms, fates).result == Nil
    ensures Migrate(Attempts(Empty(), runs), ms, fates) == Migrate(Empty(), ms, [])
  {
    LedgerIsABeginning(Empty(), runs, ms);
    ConvergesIff(runs, ms, fates);
    FreshRunCompletesIff(ms);
  }

  /** And a retry that meets no failure does return nil. */
  lemma RetrySucceeds(runs: seq<Attempt>, ms: seq<Migration>)
    requires Distinct(ms) && AllShipBeginningsOf(runs, ms)
    ensures Migrate(Attempts(Empty(), runs), ms, []).result == Nil
  {
    var db := Attempts(Empty(), runs);
    LedgerIsABeginning(Empty(), runs, ms);
    PrefixPends(db.executed, ms);
    MigrateSucceedsIff(db, ms, []);
    BuiltIsUnedited(db.executed, ms);
  }

  lemma {:induction false} BuildChecksums(ms: seq<Migration>, i: nat)
    requires Distinct(ms) && i < |ms|
    ensures ms[i].version in Build(ms).ledger && Build(ms).ledger[ms[i].version] == ms[i].checksum
  {
    var n := |ms| - 1;
    if i < n { BuildChecksums(ms[..n], i); }
  }

  lemma BuiltIsUnedited(executed: seq<Migration>, ms: seq<Migration>)
    requires Distinct(ms) && executed <= ms
    ensures Unedited(Build(executed).ledger, ms)
    ensures Build(executed).ledger == map[] ==> executed == [] && !Build(executed).users
  {}

  // --- baseline ----------------------------------------------------------------------------

  ghost predicate Records(ledger: map<Version, string>, ms: seq<Migration>) {
    forall i :: 0 <= i < |ms| ==> ms[i].version in ledger && ledger[ms[i].version] == ms[i].checksum
  }

  /** What a baseline writes on the way: rows for a beginning of the list, and nothing but rows. */
  lemma {:induction false} RecordFromRecords(db: Db, ms: seq<Migration>, fates: seq<Fate>)
    ensures var r := RecordFrom(db, ms, fates);
      && r.db.executed == db.executed && r.db.users == db.users && Extends(db.ledger, r.db.ledger)
      && (r.result == Nil ==> Records(r.db.ledger, ms))
    decreases |ms|
  {
    if ms != [] && !First(fates).Fails? && ms[0].version !in db.ledger && !First(fates).Lost? {
      var recorded := db.(ledger := db.ledger[ms[0].version := ms[0].checksum]);
      RecordFromRecords(recorded, ms[1..], Rest(fates));
      var r := RecordFrom(recorded, ms[1..], Rest(fates));
      if r.result == Nil {
        forall i | 0 <= i < |ms|
          ensures ms[i].version in r.db.ledger && r.db.ledger[ms[i].version] == ms[i].checksum
        {
          if i > 0 { assert ms[i] == ms[1..][i - 1]; }
        }
      }
    }
  }

  lemma {:induction false} NothingPending(ledger: map<Version, string>, ms: seq<Migration>)
    requires Records(ledger, ms)
    ensures Pending(ledger, ms) == []
    decreases |ms|
  {
    if ms != [] {
      assert forall i :: 0 <= i < |ms[1..]| ==> ms[1..][i] == ms[i + 1];
      NothingPending(ledger, ms[1..]);
    }
  }

  /** After a complete baseline nothing is pending, and the next run of the same release changes nothing. */
  lemma BaselineAdopts(db: Db, ms: seq<Migration>, fates: seq<Fate>, later: seq<Fate>)
    requires Baseline(db, ms, fates).result == Nil
    ensures var after := Baseline(db, ms, fates).db;
      && after.executed == db.executed
      && Pending(after.ledger, ms) == []
      && Migrate(after, ms, later) == Outcome(after, Nil)
  {
    RecordFromRecords(db, ms, fates);
    var after := Baseline(db, ms, fates).db;
    NothingPending(after.ledger, ms);
    if ms != [] { assert ms[0].version in after.ledger; }
    AllSeen(after, ms, later);
  }

  lemma {:induction false} AllSeen(db: Db, ms: seq<Migration>, fates: seq<Fate>)
    requires Records(db.ledger, ms)
    ensures ApplyFrom(db, db.ledger, ms, fates) == Outcome(db, Nil)
    decreases |ms|
  {
    if ms != [] {
      assert forall i :: 0 <= i < |ms[1..]| ==> ms[1..][i] == ms[i + 1];
      AllSeen(db, ms[1..], fates);
    }
  }

  /** A database built from nothing by any runs of any releases can never be baselined. */
  lemma BaselineRefusesWhatRunsBuilt(runs: seq<Attempt>, ms: seq<Migration>, fates: seq<Fate>)
    ensures Baseline(Attempts(Empty(), runs), ms, fates) == Outcome(Attempts(Empty(), runs), Refused)
  {
    var db := Attempts(Empty(), runs);
    AttemptsBuild(Empty(), runs);
    if db.executed != [] {
      BuildRecords(db.executed, db.executed[0].version);
      assert db.executed[0].version in db.ledger;
    }
  }

  // --- what the ledger does not protect from -----------------------------------------------

  /**
   Two files under one version: a first run always fails with the first of them committed, and the
   next run passes exactly when the files are alike, so the two are not one interrupted run.
   */
  lemma DuplicateVersion(a: Migration, b: Migration)
    requires a.version == b.version
    ensures var half := Commit(Empty(), a);
      && Migrate(Empty(), [a, b], []) == Outcome(half, Failed)
      && Migrate(half, [a, b], []) == Outcome(half, if a.checksum == b.checksum then Nil else ChecksumMismatch)
  {
    var half := Commit(Empty(), a);
    assert [a, b][1..] == [b] && [b][1..] == [];
    assert ApplyFrom(half, map[], [b], []) == Outcome(half, Failed);
    assert ApplyFrom(half, half.ledger, [b], []) ==
           Outcome(half, if a.checksum == b.checksum then Nil else ChecksumMismatch);
  }

  /** A migration merged late, under a version between two applied ones, runs last: the order differs from a fresh install's. */
  lemma LateMigrationRunsLast(a: Migration, b: Migration, c: Migration)
    requires a.version != b.version && b.version != c.version && a.version != c.version
    ensures var db := Build([a, c]);
      && Migrate(db, [a, b, c], []).result == Nil
      && Migrate(db, [a, b, c], []).db.executed == [a, c, b]
  {
    var ms, db := [a, b, c], Build([a, c]);
    BuildExecutes([a, c]);
    BuildTwo(a, c);
    assert ms[1..] == [b, c] && [b, c][1..] == [c] && [c][1..] == [];
    PendingOne(db.ledger, a, b, c);
    PendingIsTheNextRun(db, ms, []);
    MigrateSucceedsIff(db, ms, []);
    assert [a, c] + [b] == [a, c, b];
  }

  lemma BuildTwo(a: Migration, c: Migration)
    requires a.version != c.version
    ensures Build([a, c]).ledger == map[a.version := a.checksum, c.version := c.checksum]
  {
    assert [a, c] == [a] + [c] && [a] == [] + [a];
    BuildOneMore([a], c);
    BuildOneMore([], a);
  }

  lemma PendingOne(ledger: map<Version, string>, a: Migration, b: Migration, c: Migration)
    requires a.version in ledger && b.version !in ledger && c.version in ledger
    ensures Pending(ledger, [a, b, c]) == [b]
  {
    assert [a, b, c][1..] == [b, c] && [b, c][1..] == [c] && [c][1..] == [];
    assert Pending(ledger, [c]) == [];
    assert Pending(ledger, [b, c]) == [b];
  }
}
