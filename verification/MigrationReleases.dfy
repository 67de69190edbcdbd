/** From a release's files to what its runs answer. */
module MigrationReleases {
  import opened Faults
  import opened MigrationModel
  import opened MigrationFiles
  import opened MigrationTheorems

  // --- files -------------------------------------------------------------------------------

  /** The migration a file stands for: its name and its contents can be told from it again. */
  ghost predicate IsReadAs(file: File, m: Migration) {
    && !file.isDir
    && '_' !in m.version
    && (file.name == m.version + "_" + m.name + ".sql" || (file.name == m.version + ".sql" && m.name == ""))
    && m.sql == file.contents && m.checksum == file.contents
  }

  lemma StemAndSuffix(name: string)
    requires HasSuffix(name, ".sql")
    ensures name == TrimSuffix(name, ".sql") + ".sql"
  {}

  /** A file is a migration exactly when it is a file whose name ends in .sql; nothing of it is lost. */
  lemma FilesAreReadWhole(file: File, creates: string -> bool)
    ensures IsMigration(file) <==> !file.isDir && |file.name| >= 4 && file.name[|file.name| - 4..] == ".sql"
    ensures IsMigration(file) ==>
              IsReadAs(file, MigrationOf(file, creates)) && MigrationOf(file, creates).createsUsers == creates(file.contents)
  {
    if IsMigration(file) {
      StemAndSuffix(file.name);
      var stem := TrimSuffix(file.name, ".sql");
      CutSplits(stem);
      CutAlone(stem);
      assert Cut(stem).0 + "_" + Cut(stem).1 + ".sql" == (Cut(stem).0 + "_" + Cut(stem).1) + ".sql";
    }
  }

  lemma {:induction false} CutAlone(s: string)
    ensures '_' !in s ==> Cut(s).1 == ""
  {
    if s != "" { CutAlone(s[1..]); }
  }

  /** Exactly the migrations of the listed files are read. */
  lemma {:induction false} ReadHas(files: seq<File>, creates: string -> bool, m: Migration)
    ensures m in Read(files, creates) <==> exists file :: file in files && IsMigration(file) && MigrationOf(file, creates) == m
  {
    if files != [] {
      var n := |files| - 1;
      ReadHas(files[..n], creates, m);
      assert files == files[..n] + [files[n]];
      assert forall file :: file in files <==> file in files[..n] || file == files[n];
    }
  }

  /** A file edited after its migration was recorded: however often it is run, that release never gets through. */
  lemma EditedFileNeverPasses(
    db: Db, runs: seq<Attempt>, original: File, edited: File, creates: string -> bool, ms: seq<Migration>, fates: seq<Fate>)
    requires IsMigration(original) && edited == original.(contents := edited.contents)
    requires edited.contents != original.contents
    requires RecordedOnce(db)
    requires var m := MigrationOf(original, creates); m.version in db.ledger && db.ledger[m.version] == m.checksum
    requires MigrationOf(edited, creates) in ms
    ensures Migrate(Attempts(db, runs), ms, fates).result != Nil
  {
    FilesAreReadWhole(original, creates);
    FilesAreReadWhole(edited, creates);
    var i :| 0 <= i < |ms| && ms[i] == MigrationOf(edited, creates);
    assert ms[i].version == MigrationOf(original, creates).version;
    EditedNeverPasses(db, runs, ms, fates);
  }

  // --- what a run answers ------------------------------------------------------------------

  lemma {:induction false} FaultlessApply(db: Db, seen: map<Version, string>, ms: seq<Migration>)
    requires Distinct(Pending(seen, ms)) && Unrecorded(db.ledger, Pending(seen, ms))
    ensures ApplyFrom(db, seen, ms, []).result == if Unedited(seen, ms) then Nil else ChecksumMismatch
    decreases |ms|
  {
    if ms != [] {
      UneditedTail(seen, ms);
      if ms[0].version in seen {
        assert Pending(seen, ms) == Pending(seen, ms[1..]);
        FaultlessApply(db, seen, ms[1..]);
      } else {
        var rest := Pending(seen, ms[1..]);
        assert Pending(seen, ms) == [ms[0]] + rest;
        assert Pending(seen, ms)[0] == ms[0];
        DistinctCons(ms[0], rest);
        UnrecordedCons(db, ms[0], rest);
        FaultlessApply(Commit(db, ms[0]), seen, ms[1..]);
      }
    }
  }

  /**
   A run that meets no fault asks for a baseline exactly when tables are there that no migration
   made, complains of a checksum exactly when something recorded was edited, and else returns nil.
   */
  lemma FaultlessRunAnswers(db: Db, ms: seq<Migration>)
    requires Distinct(Pending(db.ledger, ms))
    ensures Migrate(db, ms, []).result ==
            if db.ledger == map[] && ms != [] && db.users then NeedsBaseline
            else if Unedited(db.ledger, ms) then Nil else ChecksumMismatch
  {
    var p := Pending(db.ledger, ms);
    forall i | 0 <= i < |p|
      ensures p[i].version !in db.ledger
    {
      PendingHas(db.ledger, ms, p[i]);
    }
    FaultlessApply(db, db.ledger, ms);
  }

  lemma NeedsBaselineIff(db: Db, ms: seq<Migration>, fates: seq<Fate>)
    ensures Migrate(db, ms, fates).result == NeedsBaseline <==> db.ledger == map[] && ms != [] && db.users
    ensures Migrate(db, ms, fates).result == NeedsBaseline ==> Migrate(db, ms, fates).db == db
  {
    NeverMidRun(db, db.ledger, ms, fates);
  }

  lemma {:induction false} NeverMidRun(db: Db, seen: map<Version, string>, ms: seq<Migration>, fates: seq<Fate>)
    ensures ApplyFrom(db, seen, ms, fates).result != NeedsBaseline
    decreases |ms|
  {
    if ms != [] {
      if ms[0].version in seen {
        NeverMidRun(db, seen, ms[1..], fates);
      } else {
        var one := ApplyOne(db, ms[0], First(fates));
        if one.result == Nil { NeverMidRun(one.db, seen, ms[1..], Rest(fates)); }
      }
    }
  }

  /** In a database that runs built, the probed table is there exactly when an executed migration made it. */
  lemma {:induction false} UsersIffCreated(executed: seq<Migration>)
    ensures Build(executed).users <==> exists m :: m in executed && m.createsUsers
  {
    if executed != [] {
      var n := |executed| - 1;
      UsersIffCreated(executed[..n]);
      assert executed == executed[..n] + [executed[n]];
      assert forall m :: m in executed <==> m in executed[..n] || m == executed[n];
    }
  }

  // --- baselines ---------------------------------------------------------------------------

  lemma RecordedOneMore(db: Db, m: Migration, ms: seq<Migration>)
    requires m.version !in db.ledger
    ensures Unrecorded(db.ledger[m.version := m.checksum], ms) <==> DistinctFrom(m, ms) && Unrecorded(db.ledger, ms)
  {}

  lemma {:induction false} RecordSucceedsIff(db: Db, ms: seq<Migration>, fates: seq<Fate>)
    ensures RecordFrom(db, ms, fates).result == Nil <==> Distinct(ms) && Unrecorded(db.ledger, ms) && AllWork(fates, |ms|)
    ensures RecordFrom(db, ms, fates).result in [Nil, Failed]
    decreases |ms|
  {
    if ms != [] {
      assert ms == [ms[0]] + ms[1..];
      DistinctCons(ms[0], ms[1..]);
      AllWorkTail(fates, |ms|);
      if ms[0].version !in db.ledger {
        RecordedOneMore(db, ms[0], ms[1..]);
        UnrecordedCons(db, ms[0], ms[1..]);
        RecordSucceedsIff(db.(ledger := db.ledger[ms[0].version := ms[0].checksum]), ms[1..], Rest(fates));
      }
    }
  }

  /** A baseline is refused exactly when something is recorded or nothing is there; else it succeeds exactly when every row goes in. */
  lemma BaselineSucceedsIff(db: Db, ms: seq<Migration>, fates: seq<Fate>)
    ensures Baseline(db, ms, fates).result == Refused <==> db.ledger != map[] || !db.users
    ensures Baseline(db, ms, fates).result == Nil <==>
            db.ledger == map[] && db.users && Distinct(ms) && AllWork(fates, |ms|)
    ensures Baseline(db, ms, fates).db.executed == db.executed
  {
    RecordSucceedsIff(db, ms, fates);
    RecordFromRecords(db, ms, fates);
  }
}
