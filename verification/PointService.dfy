/** The point service and its repository, with their tables as fields. */
module PointService {
  import opened Options
  import opened PointModel
  import opened Text
  import PointTheorems

  datatype Balance = Balance(cached: int, ledger: int, drift: int, entries: nat, expired: int)

  class Points {
    const accounts: set<UserId>
    var ledger: seq<Entry>
    var totals: map<UserId, Total>

    constructor (accounts: set<UserId>, tables: Tables)
      ensures this.accounts == accounts && Current() == tables
    {
      this.accounts := accounts;
      ledger, totals := tables.ledger, tables.totals;
    }

    ghost function Current(): Tables
      reads this
    {
      Tables(ledger, totals)
    }

    /** The aggregate query: inflow minus outflow over the account's rows, beside the cached total. */
    method ReadBalance(u: UserId, now: int) returns (b: Balance)
      ensures b.ledger == LedgerOf(ledger, u)
      ensures b.cached == CachedOf(Current(), u) && b.drift == Drift(Current(), u)
      ensures b.cached == if u in totals && !totals[u].deleted && totals[u].points.Some? then totals[u].points.value else 0
      ensures b.drift == b.cached - b.ledger
      ensures b.entries == |Rows(ledger, u)| && b.expired == ExpiredOf(ledger, u, now)
    {
      var inflow, outflow, entries, expired := 0, 0, 0, 0;
      for i := 0 to |ledger|
        invariant inflow - outflow == LedgerOf(ledger[..i], u)
        invariant entries == |Rows(ledger[..i], u)|
        invariant expired == ExpiredOf(ledger[..i], u, now)
      {
        assert ledger[..i + 1][..i] == ledger[..i];
        var row := ledger[i];
        if row.movement.user == u && !row.deleted {
          entries := entries + 1;
          if row.movement.direction == In {
            inflow := inflow + row.movement.points;
            if row.expires.Some? && row.expires.value < now {
              expired := expired + row.movement.points;
            }
          } else {
            outflow := outflow + row.movement.points;
          }
        }
      }
      assert ledger[..|ledger|] == ledger;
      var cached := if u in totals && !totals[u].deleted && totals[u].points.Some? then totals[u].points.value else 0;
      b := Balance(cached, inflow - outflow, cached - (inflow - outflow), entries, expired);
    }

    /** Validate, then judge a deduction against the ledger, not against the cache. */
    method Prepare(
      actor: UserId, u: UserId, points: int, direction: Option<Direction>, rawReason: string, now: int) returns (v: Verdict)
      ensures v == Check(Current(), accounts, actor, u, points, direction, rawReason)
    {
      if u !in accounts {
        return Refused(NoAccount);
      }
      var problems := [];
      if direction.None? {
        problems := problems + [BadDirection];
      }
      if points <= 0 {
        problems := problems + [NotPositive];
      } else if points > MAX_ADJUSTMENT {
        problems := problems + [TooLarge];
      }
      var reason := TrimSpace(rawReason);
      if reason == "" {
        problems := problems + [ReasonMissing];
      }
      if |reason| > MAX_REASON_RUNES {
        problems := problems + [ReasonTooLong];
      }
      assert problems == Problems(direction, points, reason);
      if |problems| > 0 {
        return Refused(Invalid(problems));
      }
      var current := ReadBalance(u, now);
      if direction == Some(Out) && current.ledger - points < 0 {
        return Refused(Overdrawn);
      }
      v := Valid(Adjustment(u, points, direction.value, reason, actor));
    }

    /** The ledger row and the relative update of the total, one transaction. */
    method Record(a: Adjustment)
      modifies this
      ensures Current() == Write(old(Current()), a)
    {
      ledger := ledger + [Entry(a, None, false)];
      if a.user !in totals {
        totals := totals[a.user := Total(Some(Delta(a)), false)];
      } else if totals[a.user].points.Some? {
        totals := totals[a.user := totals[a.user].(points := Some(totals[a.user].points.value + Delta(a)))];
      }
    }

    /** With no other adjustment in between, a ledger that was not negative stays so. */
    method Adjust(
      actor: UserId, u: UserId, points: int, direction: Option<Direction>, rawReason: string, now: int) returns (v: Verdict)
      modifies this
      ensures v == Check(old(Current()), accounts, actor, u, points, direction, rawReason)
      ensures Current() == if v.Valid? then Write(old(Current()), v.adjustment) else old(Current())
      ensures old(LedgerOf(ledger, u)) >= 0 ==> LedgerOf(ledger, u) >= 0
    {
      v := Prepare(actor, u, points, direction, rawReason, now);
      if v.Valid? {
        PointTheorems.WriteMoves(Current(), v.adjustment, u);
        Record(v.adjustment);
      }
    }
  }

  /** The account's rows, oldest first. */
  function Rows(ledger: seq<Entry>, u: UserId): seq<Entry> {
    if ledger == [] then []
    else Rows(ledger[..|ledger| - 1], u) + if Visible(ledger[|ledger| - 1], u) then [ledger[|ledger| - 1]] else []
  }
}
