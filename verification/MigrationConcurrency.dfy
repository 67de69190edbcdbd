/**
 Several runs of the migration command at once.  Nothing locks the ledger: each run reads it once,
 into a copy of its own, and only each migration's transaction is atomic.
 */
module MigrationConcurrency {
  import opened Faults
  import opened MigrationModel
  import opened MigrationTheorems

  /** `seen` is the runner's copy of the ledger and `i` the migration it has come to. */
  datatype Runner =
    | Reading(ms: seq<Migration>)
    | Probing(ms: seq<Migration>, seen: map<Version, string>)
    | Applying(ms: seq<Migration>, seen: map<Version, string>, i: nat)
    | Ended(ms: seq<Migration>, result: Result)

  datatype State = State(db: Db, runners: map<nat, Runner>, started: nat)

  datatype Op = Start(ms: seq<Migration>) | Move(runner: nat, fate: Fate)

  function Init(): State {
    State(Empty(), map[], 0)
  }

  /** The runner's next statement, and what it does to the database. */
  function Advance(db: Db, r: Runner, fate: Fate): (Db, Runner) {
    match r
    case Reading(ms) => (db, if fate.Works? then Probing(ms, db.ledger) else Ended(ms, Failed))
    case Probing(ms, seen) =>
      if seen != map[] || ms == [] then (db, Applying(ms, seen, 0))
      else if !fate.Works? then (db, Ended(ms, Failed))
      else (db, if db.users then Ended(ms, NeedsBaseline) else Applying(ms, seen, 0))
    case Applying(ms, seen, i) =>
      if i >= |ms| then (db, Ended(ms, Nil))
      else if ms[i].version in seen then
        (db, if seen[ms[i].version] != ms[i].checksum then Ended(ms, ChecksumMismatch) else Applying(ms, seen, i + 1))
      else
        var one := ApplyOne(db, ms[i], fate);
        (one.db, if one.result == Nil then Applying(ms, seen, i + 1) else Ended(ms, one.result))
    case Ended(_, _) => (db, r)
  }

  function Step(s: State, op: Op): State {
    match op
    case Start(ms) => s.(runners := s.runners[s.started := Reading(ms)], started := s.started + 1)
    case Move(r, fate) =>
      if r !in s.runners then s
      else
        var (db, runner) := Advance(s.db, s.runners[r], fate);
        s.(db := db, runners := s.runners[r := runner])
  }

  function Run(s: State, ops: seq<Op>): State
    decreases |ops|
  {
    if ops == [] then s else Run(Step(s, ops[0]), ops[1..])
  }

  // --- whatever lists the runners ship -----------------------------------------------------

  lemma StepRecordsOnce(s: State, op: Op)
    requires RecordedOnce(s.db)
    ensures var t := Step(s, op);
      RecordedOnce(t.db) && Extends(s.db.ledger, t.db.ledger) && s.db.executed <= t.db.executed
  {
    if op.Move? && op.runner in s.runners && s.runners[op.runner].Applying? {
      var r := s.runners[op.runner];
      if r.i < |r.ms| && r.ms[r.i].version !in s.db.ledger { CommitRecordsOnce(s.db, r.ms[r.i]); }
    }
  }

  /** However runs of whatever releases interleave, no version's SQL commits twice and no ledger row changes. */
  lemma {:induction false} InterleavedCommitsAtMostOnce(s: State, ops: seq<Op>)
    requires RecordedOnce(s.db)
    ensures var t := Run(s, ops);
      && RecordedOnce(t.db) && Distinct(t.db.executed)
      && Extends(s.db.ledger, t.db.ledger) && s.db.executed <= t.db.executed
    decreases |ops|
  {
    if ops != [] {
      StepRecordsOnce(s, ops[0]);
      InterleavedCommitsAtMostOnce(Step(s, ops[0]), ops[1..]);
    }
  }

  // --- runners that ship beginnings of one list --------------------------------------------

  /** What the runner has seen was executed, and it has passed nothing that is not. */
  ghost predicate Behind(db: Db, r: Runner, ms: seq<Migration>) {
    && r.ms <= ms
    && (r.Probing? || r.Applying? ==> Extends(r.seen, db.ledger))
    && (r.Applying? ==> r.i <= |db.executed| && r.i <= |r.ms|)
    && (r.Ended? && r.result == Nil ==> r.ms <= db.executed)
  }

  ghost predicate Inv(s: State, ms: seq<Migration>) {
    && s.db == Build(s.db.executed) && s.db.executed <= ms
    && forall r :: r in s.runners ==> Behind(s.db, s.runners[r], ms)
  }

  /** In a database built from a beginning of the list, just that beginning is recorded. */
  lemma RecordedIffExecuted(executed: seq<Migration>, ms: seq<Migration>, i: nat)
    requires Distinct(ms) && executed <= ms && i < |ms|
    ensures ms[i].version in Build(executed).ledger <==> i < |executed|
  {
    BuildRecords(executed, ms[i].version);
    if i < |executed| { assert executed[i].version == ms[i].version; }
  }

  /** The only migration a runner can commit is the next one of the list. */
  lemma CommitsTheNext(executed: seq<Migration>, ms: seq<Migration>, i: nat)
    requires Distinct(ms) && executed <= ms && i <= |executed| && i < |ms|
    requires ms[i].version !in Build(executed).ledger
    ensures i == |executed| && executed + [ms[i]] <= ms
  {
    RecordedIffExecuted(executed, ms, i);
    OneMoreIsABeginning(executed, ms);
  }

  lemma OneMoreIsABeginning(executed: seq<Migration>, ms: seq<Migration>)
    requires executed <= ms && |executed| < |ms|
    ensures executed + [ms[|executed|]] <= ms
  {}

  lemma BehindStays(db: Db, db': Db, r: Runner, ms: seq<Migration>)
    requires Behind(db, r, ms) && Extends(db.ledger, db'.ledger) && db.executed <= db'.executed
    ensures Behind(db', r, ms)
  {}

  /** What keeps the invariant, from one database to the next. */
  ghost predicate Onward(db: Db, db': Db, ms: seq<Migration>) {
    && db' == Build(db'.executed) && db'.executed <= ms
    && Extends(db.ledger, db'.ledger) && db.executed <= db'.executed
  }

  lemma CommitGoesOn(db: Db, ms: seq<Migration>, i: nat)
    requires Distinct(ms) && db == Build(db.executed) && db.executed <= ms && i <= |db.executed| && i < |ms|
    requires ms[i].version !in db.ledger
    ensures i == |db.executed| && Commit(db, ms[i]).executed == db.executed + [ms[i]]
    ensures Onward(db, Commit(db, ms[i]), ms)
  {
    CommitsTheNext(db.executed, ms, i);
    BuildOneMore(db.executed, ms[i]);
  }

  lemma ApplyKeeps(db: Db, r: Runner, fate: Fate, ms: seq<Migration>)
    requires Distinct(ms) && db == Build(db.executed) && db.executed <= ms && Behind(db, r, ms)
    requires r.Applying? && r.i < |r.ms| && r.ms[r.i].version !in r.seen
    ensures Onward(db, Advance(db, r, fate).0, ms) && Behind(Advance(db, r, fate).0, Advance(db, r, fate).1, ms)
  {
    assert r.ms[r.i] == ms[r.i];
    var (db', r') := Advance(db, r, fate);
    if fate.Fails? || ms[r.i].version in db.ledger {
      assert db' == db && r' == Ended(r.ms, Failed);
    } else {
      CommitGoesOn(db, ms, r.i);
      assert db' == Commit(db, ms[r.i]);
      assert r' == if fate.Lost? then Ended(r.ms, Failed) else Applying(r.ms, r.seen, r.i + 1);
    }
  }

  lemma SkipKeeps(db: Db, r: Runner, fate: Fate, ms: seq<Migration>)
    requires Distinct(ms) && db == Build(db.executed) && db.executed <= ms && Behind(db, r, ms)
    requires r.Applying? ==> r.i < |r.ms| ==> r.ms[r.i].version in r.seen
    ensures Advance(db, r, fate).0 == db && Behind(db, Advance(db, r, fate).1, ms)
  {
    if r.Applying? {
      if r.i < |r.ms| {
        assert r.ms[r.i] == ms[r.i];
        RecordedIffExecuted(db.executed, ms, r.i);
      } else {
        assert r.ms == ms[..r.i] == db.executed[..r.i];
      }
    }
  }

  lemma AdvanceKeeps(db: Db, r: Runner, fate: Fate, ms: seq<Migration>)
    requires Distinct(ms) && db == Build(db.executed) && db.executed <= ms && Behind(db, r, ms)
    ensures Onward(db, Advance(db, r, fate).0, ms) && Behind(Advance(db, r, fate).0, Advance(db, r, fate).1, ms)
  {
    if r.Applying? && r.i < |r.ms| && r.ms[r.i].version !in r.seen {
      ApplyKeeps(db, r, fate, ms);
    } else {
      SkipKeeps(db, r, fate, ms);
    }
  }

  lemma StepKeeps(s: State, op: Op, ms: seq<Migration>)
    requires Distinct(ms) && Inv(s, ms) && (op.Start? ==> op.ms <= ms)
    ensures Inv(Step(s, op), ms)
  {
    if op.Move? && op.runner in s.runners {
      AdvanceKeeps(s.db, s.runners[op.runner], op.fate, ms);
      var t := Step(s, op);
      forall r | r in t.runners
        ensures Behind(t.db, t.runners[r], ms)
      {
        if r != op.runner { BehindStays(s.db, t.db, s.runners[r], ms); }
      }
    }
  }

  ghost predicate AllBegin(ops: seq<Op>, ms: seq<Migration>) {
    forall op :: op in ops && op.Start? ==> op.ms <= ms
  }

  lemma {:induction false} RunKeeps(s: State, ops: seq<Op>, ms: seq<Migration>)
    requires Distinct(ms) && Inv(s, ms) && AllBegin(ops, ms)
    ensures Inv(Run(s, ops), ms)
    decreases |ops|
  {
    if ops != [] {
      StepKeeps(s, ops[0], ms);
      RunKeeps(Step(s, ops[0]), ops[1..], ms);
    }
  }

  /**
   However runs that ship beginnings of one list interleave on an empty database, and however
   they fail, what is executed stays a beginning of the list; and a run that returns nil has
   seen its whole list executed, by itself or by others.
   */
  lemma InterleavedLedgerIsABeginning(ops: seq<Op>, ms: seq<Migration>)
    requires Distinct(ms) && AllBegin(ops, ms)
    ensures var s := Run(Init(), ops);
      && s.db.executed <= ms && s.db == Build(s.db.executed)
      && forall r :: r in s.runners && s.runners[r].Ended? && s.runners[r].result == Nil ==>
           s.runners[r].ms <= s.db.executed
  {
    RunKeeps(Init(), ops, ms);
  }

  /** A run only ever loses to another: told that a step failed which met no fault, it finds its migration executed. */
  lemma LoserFindsItsMigrationExecuted(ops: seq<Op>, ms: seq<Migration>, r: nat)
    requires Distinct(ms) && AllBegin(ops, ms)
    requires var s := Run(Init(), ops); r in s.runners && s.runners[r].Applying?
    requires var s := Run(Init(), ops); Advance(s.db, s.runners[r], Works).1.Ended?
    ensures var s := Run(Init(), ops);
      var runner, end := s.runners[r], Advance(s.db, s.runners[r], Works).1;
      if runner.i == |runner.ms| then end.result == Nil
      else end.result == Failed && runner.ms[runner.i].version !in runner.seen && runner.ms[runner.i] in s.db.executed
  {
    RunKeeps(Init(), ops, ms);
    var s := Run(Init(), ops);
    var runner := s.runners[r];
    if runner.i < |runner.ms| {
      assert runner.ms[runner.i] == ms[runner.i];
      RecordedIffExecuted(s.db.executed, ms, runner.i);
      if runner.ms[runner.i].version in s.db.ledger {
        assert s.db.executed[runner.i] == ms[runner.i];
        BuildChecksums(s.db.executed, runner.i);
      }
    }
  }

  /** After any such interleaving one more run, alone, leaves the database of an uninterrupted install. */
  lemma InterleavingConverges(ops: seq<Op>, ms: seq<Migration>)
    requires Distinct(ms) && AllBegin(ops, ms)
    ensures Migrate(Run(Init(), ops).db, ms, []) == Migrate(Empty(), ms, [])
  {
    InterleavedLedgerIsABeginning(ops, ms);
    var db := Run(Init(), ops).db;
    PrefixPends(db.executed, ms);
    BuiltIsUnedited(db.executed, ms);
    MigrateSucceedsIff(db, ms, []);
    BuiltConvergesIff(db, ms, []);
    FreshRunCompletesIff(ms);
  }

  // --- one runner alone --------------------------------------------------------------------

  lemma {:induction false} RunConcat(s: State, a: seq<Op>, b: seq<Op>)
    ensures Run(s, a + b) == Run(Run(s, a), b)
    decreases |a|
  {
    if a == [] {
      assert a + b == b;
    } else {
      assert (a + b)[1..] == a[1..] + b;
      RunConcat(Step(s, a[0]), a[1..], b);
    }
  }

  function EndedState(s: State, r: nat, ms: seq<Migration>, o: Outcome): State {
    s.(db := o.db, runners := s.runners[r := Ended(ms, o.result)])
  }

  lemma {:induction false} ApplyingAlone(s: State, r: nat, fates: seq<Fate>) returns (ops: seq<Op>)
    requires r in s.runners && s.runners[r].Applying? && s.runners[r].i <= |s.runners[r].ms|
    ensures var runner := s.runners[r];
      Run(s, ops) == EndedState(s, r, runner.ms, ApplyFrom(s.db, runner.seen, runner.ms[runner.i..], fates))
    decreases |s.runners[r].ms| - s.runners[r].i
  {
    var runner := s.runners[r];
    var left := runner.ms[runner.i..];
    var skips := left != [] && left[0].version in runner.seen;
    var first, rest := if left == [] || skips then Works else First(fates), if skips then fates else Rest(fates);
    var t := Step(s, Move(r, first));
    if left != [] {
      assert left[0] == runner.ms[runner.i] && left[1..] == runner.ms[runner.i + 1..];
    }
    if t.runners[r].Applying? {
      var more := ApplyingAlone(t, r, rest);
      ops := [Move(r, first)] + more;
      assert ops[1..] == more;
      assert t.runners[r := Ended(runner.ms, Nil)] == s.runners[r := Ended(runner.ms, Nil)];
    } else {
      ops := [Move(r, first)];
      assert ops[1..] == [];
    }
  }

  lemma RunThree(s: State, x: Op, y: Op, z: Op)
    ensures Run(s, [x, y, z]) == Step(Step(Step(s, x), y), z)
  {
    assert [x, y, z][1..] == [y, z] && [y, z][1..] == [z] && [z][1..] == [];
    assert Run(Step(s, x), [y, z]) == Run(Step(Step(s, x), y), [z]);
  }

  /** A runner that nobody interrupts does what `Migrate` says. */
  lemma RunningAloneIsMigrate(s: State, ms: seq<Migration>, fates: seq<Fate>) returns (ops: seq<Op>)
    ensures Run(s, ops) == EndedState(s, s.started, ms, Migrate(s.db, ms, fates)).(started := s.started + 1)
  {
    var r := s.started;
    var head := [Start(ms), Move(r, Works), Move(r, Works)];
    var begun := Step(s, Start(ms));
    var read := Step(begun, Move(r, Works));
    var probed := Step(read, Move(r, Works));
    RunThree(s, Start(ms), Move(r, Works), Move(r, Works));
    assert read.runners[r] == Probing(ms, s.db.ledger);
    if s.db.ledger == map[] && ms != [] && s.db.users {
      ops := head;
      assert probed.runners == s.runners[r := Ended(ms, NeedsBaseline)];
    } else {
      assert probed.runners[r] == Applying(ms, s.db.ledger, 0);
      var more := ApplyingAlone(probed, r, fates);
      assert ms[0..] == ms;
      ops := head + more;
      RunConcat(s, head, more);
      var result := Migrate(s.db, ms, fates).result;
      assert probed.runners[r := Ended(ms, result)] == s.runners[r := Ended(ms, result)];
    }
  }
}
