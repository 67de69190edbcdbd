/** The runner as the command executes it: loops over the release's files, a ledger it grows. */
module MigrationService {
  import opened Faults
  import opened MigrationModel

  class Database {
    var executed: seq<Migration>
    var ledger: map<Version, string>
    var users: bool

    constructor (db: Db)
      ensures Contents() == db
    {
      executed, ledger, users := db.executed, db.ledger, db.users;
    }

    ghost function Contents(): Db
      reads this
    {
      Db(executed, ledger, users)
    }

    /** The SQL and its ledger row, one transaction. */
    method ApplyOne(m: Migration, fate: Fate) returns (result: Result)
      modifies this
      ensures Outcome(Contents(), result) == MigrationModel.ApplyOne(old(Contents()), m, fate)
    {
      if fate.Fails? || m.version in ledger {
        return Failed;
      }
      executed := executed + [m];
      users := users || m.createsUsers;
      ledger := ledger[m.version := m.checksum];
      result := if fate.Lost? then Failed else Nil;
    }

    method Migrate(ms: seq<Migration>, fates: seq<Fate>) returns (result: Result, count: nat)
      modifies this
      ensures Outcome(Contents(), result) == MigrationModel.Migrate(old(Contents()), ms, fates)
      ensures result == Nil ==> count == |MigrationModel.Pending(old(ledger), ms)|
    {
      count := 0;
      var seen := ledger;
      if ledger == map[] && |ms| > 0 && users {
        return NeedsBaseline, 0;
      }
      var left := fates;
      for i := 0 to |ms|
        invariant ApplyFrom(Contents(), seen, ms[i..], left) == ApplyFrom(old(Contents()), seen, ms, fates)
        invariant count + |MigrationModel.Pending(seen, ms[i..])| == |MigrationModel.Pending(seen, ms)|
      {
        assert ms[i..][0] == ms[i] && ms[i..][1..] == ms[i + 1..];
        if ms[i].version in seen {
          if seen[ms[i].version] != ms[i].checksum {
            return ChecksumMismatch, count;
          }
          continue;
        }
        result := ApplyOne(ms[i], First(left));
        if result != Nil {
          return result, count;
        }
        left := Rest(left);
        count := count + 1;
      }
      result := Nil;
    }

    method Pending(ms: seq<Migration>) returns (pending: seq<Migration>)
      ensures pending == MigrationModel.Pending(ledger, ms)
    {
      pending := [];
      for i := 0 to |ms|
        invariant pending + MigrationModel.Pending(ledger, ms[i..]) == MigrationModel.Pending(ledger, ms)
      {
        assert ms[i..][0] == ms[i] && ms[i..][1..] == ms[i + 1..];
        if ms[i].version !in ledger {
          pending := pending + [ms[i]];
        }
      }
    }

    method Baseline(ms: seq<Migration>, fates: seq<Fate>) returns (result: Result)
      modifies this
      ensures Outcome(Contents(), result) == MigrationModel.Baseline(old(Contents()), ms, fates)
    {
      if ledger != map[] || !users {
        return Refused;
      }
      var left := fates;
      for i := 0 to |ms|
        invariant RecordFrom(Contents(), ms[i..], left) == RecordFrom(old(Contents()), ms, fates)
      {
        assert ms[i..][0] == ms[i] && ms[i..][1..] == ms[i + 1..];
        if First(left).Fails? || ms[i].version in ledger {
          return Failed;
        }
        ledger := ledger[ms[i].version := ms[i].checksum];
        if First(left).Lost? {
          return Failed;
        }
        left := Rest(left);
      }
      result := Nil;
    }
  }
}
