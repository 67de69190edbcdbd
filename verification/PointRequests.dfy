/** What an adjustment must ask for, where ledger rows come from, and what the balance adds up. */
module PointRequests {
  import opened Options
  import opened PointModel
  import opened Text

  // --- validation --------------------------------------------------------------------------

  /** A positive amount of at most a million, one of the two directions, and a reason of one to 500 characters. */
  predicate WellFormed(points: int, direction: Option<Direction>, reason: string) {
    direction.Some? && 1 <= points <= 1_000_000 && 1 <= |reason| <= 500
  }

  /** An adjustment is taken up exactly when it is well formed, the account exists, and the ledger covers a deduction. */
  lemma TakenUpIff(
    t: Tables, accounts: set<UserId>, actor: UserId, u: UserId, points: int, direction: Option<Direction>, raw: string)
    ensures var v := Check(t, accounts, actor, u, points, direction, raw);
      && (v.Valid? <==>
          && u in accounts && WellFormed(points, direction, TrimSpace(raw))
          && (direction == Some(Out) ==> points <= LedgerOf(t.ledger, u)))
      && (v.Valid? ==> v.adjustment == Adjustment(u, points, direction.value, TrimSpace(raw), actor))
  {
    ProblemsAre(direction, points, TrimSpace(raw));
  }

  /** A refusal names what is wrong: the account before the form, all of the form's faults at once, the ledger last. */
  lemma RefusalsAnswer(
    t: Tables, accounts: set<UserId>, actor: UserId, u: UserId, points: int, direction: Option<Direction>, raw: string)
    ensures var v := Check(t, accounts, actor, u, points, direction, raw);
      && (v == Refused(NoAccount) <==> u !in accounts)
      && (v == Refused(Overdrawn) <==>
          && u in accounts && WellFormed(points, direction, TrimSpace(raw))
          && direction == Some(Out) && points > LedgerOf(t.ledger, u))
      && (v.Refused? && v.why.Invalid? <==> u in accounts && !WellFormed(points, direction, TrimSpace(raw)))
      && (v.Refused? && v.why.Invalid? ==>
            && (BadDirection in v.why.problems <==> direction.None?)
            && (NotPositive in v.why.problems <==> points < 1)
            && (TooLarge in v.why.problems <==> points > 1_000_000)
            && (ReasonMissing in v.why.problems <==> TrimSpace(raw) == "")
            && (ReasonTooLong in v.why.problems <==> |TrimSpace(raw)| > 500))
  {
    ProblemsAre(direction, points, TrimSpace(raw));
  }

  lemma ProblemsAre(direction: Option<Direction>, points: int, reason: string)
    ensures var problems := Problems(direction, points, reason);
      && (problems == [] <==> WellFormed(points, direction, reason))
      && (BadDirection in problems <==> direction.None?)
      && (NotPositive in problems <==> points < 1)
      && (TooLarge in problems <==> points > 1_000_000)
      && (ReasonMissing in problems <==> reason == "")
      && (ReasonTooLong in problems <==> |reason| > 500)
  {}

  // --- the balance -------------------------------------------------------------------------

  /** What one row adds to an account's balance: nothing once it is soft-deleted. */
  function Worth(e: Entry, u: UserId): int {
    if e.deleted || e.movement.user != u then 0
    else match e.movement.direction
      case In => e.movement.points
      case Out => -e.movement.points
  }

  /** What one row adds to the expired inflow. */
  function ExpiredWorth(e: Entry, u: UserId, now: int): int {
    if Worth(e, u) != 0 && e.movement.direction == In && e.expires.Some? && e.expires.value < now
    then e.movement.points else 0
  }

  function Total(ledger: seq<Entry>, worth: Entry -> int): int {
    if ledger == [] then 0 else worth(ledger[0]) + Total(ledger[1..], worth)
  }

  lemma {:induction false} TotalOneMore(ledger: seq<Entry>, e: Entry, worth: Entry -> int)
    ensures Total(ledger + [e], worth) == Total(ledger, worth) + worth(e)
    decreases |ledger|
  {
    if ledger == [] {
      assert [] + [e] == [e] && [e][1..] == [];
    } else {
      assert (ledger + [e])[1..] == ledger[1..] + [e];
      TotalOneMore(ledger[1..], e, worth);
    }
  }

  /** The balance and the expired inflow are sums over the rows, each counted by itself. */
  lemma {:induction false} BalancesAreSums(ledger: seq<Entry>, u: UserId, now: int)
    ensures LedgerOf(ledger, u) == Total(ledger, e => Worth(e, u))
    ensures ExpiredOf(ledger, u, now) == Total(ledger, e => ExpiredWorth(e, u, now))
  {
    if ledger != [] {
      var n := |ledger| - 1;
      BalancesAreSums(ledger[..n], u, now);
      assert ledger == ledger[..n] + [ledger[n]];
      TotalOneMore(ledger[..n], ledger[n], e => Worth(e, u));
      TotalOneMore(ledger[..n], ledger[n], e => ExpiredWorth(e, u, now));
    }
  }

  // --- where every ledger row comes from ---------------------------------------------------

  /** The request asks for this very adjustment of an account that exists. */
  ghost predicate AsksFor(accounts: set<UserId>, op: Op, a: Adjustment) {
    && op.Begin? && op.actor == a.actor && op.user == a.user && op.points == a.points
    && op.direction == Some(a.direction) && a.reason == TrimSpace(op.reason)
    && a.user in accounts && WellFormed(a.points, Some(a.direction), a.reason)
  }

  ghost predicate AskedFor(accounts: set<UserId>, ops: seq<Op>, a: Adjustment) {
    exists i :: 0 <= i < |ops| && AsksFor(accounts, ops[i], a)
  }

  ghost predicate RowAskedFor(accounts: set<UserId>, ops: seq<Op>, e: Entry) {
    AskedFor(accounts, ops, e.movement) && e.expires == None && !e.deleted
  }

  ghost predicate Sourced(before: seq<Entry>, s: State, past: seq<Op>) {
    && before <= s.tables.ledger
    && (forall i :: |before| <= i < |s.tables.ledger| ==> RowAskedFor(s.accounts, past, s.tables.ledger[i]))
    && (forall i :: 0 <= i < |s.pending| ==> AskedFor(s.accounts, past, s.pending[i]))
  }

  lemma AskedLater(accounts: set<UserId>, past: seq<Op>, op: Op, a: Adjustment)
    requires AskedFor(accounts, past, a) || AsksFor(accounts, op, a)
    ensures AskedFor(accounts, past + [op], a)
  {
    if AsksFor(accounts, op, a) {
      assert (past + [op])[|past|] == op;
    } else {
      var i :| 0 <= i < |past| && AsksFor(accounts, past[i], a);
      assert (past + [op])[i] == past[i];
    }
  }

  /** What a step adds: at most one pending call, which it asks for, or one row, which was pending. */
  lemma StepAdds(s: State, op: Op)
    ensures var t := Step(s, op);
      && t.accounts == s.accounts
      && (forall i :: 0 <= i < |t.pending| ==> t.pending[i] in s.pending || AsksFor(s.accounts, op, t.pending[i]))
      && (t.tables.ledger == s.tables.ledger ||
          (op.Commit? && op.call < |s.pending| &&
           t.tables.ledger == s.tables.ledger + [Entry(s.pending[op.call], None, false)]))
  {
    match op
    case Begin(actor, u, points, direction, reason) =>
      TakenUpIff(s.tables, s.accounts, actor, u, points, direction, reason);
    case Commit(i) =>
    case Abort(i) =>
  }

  lemma StepKeepsSourced(before: seq<Entry>, s: State, past: seq<Op>, op: Op)
    requires Sourced(before, s, past)
    ensures Sourced(before, Step(s, op), past + [op])
  {
    var t := Step(s, op);
    StepAdds(s, op);
    forall i | |before| <= i < |t.tables.ledger|
      ensures RowAskedFor(t.accounts, past + [op], t.tables.ledger[i])
    {
      if i < |s.tables.ledger| {
        assert RowAskedFor(s.accounts, past, s.tables.ledger[i]);
      }
      AskedLater(s.accounts, past, op, t.tables.ledger[i].movement);
    }
    forall i | 0 <= i < |t.pending|
      ensures AskedFor(t.accounts, past + [op], t.pending[i])
    {
      AskedLater(s.accounts, past, op, t.pending[i]);
    }
  }

  lemma {:induction false} RunKeepsSourced(before: seq<Entry>, s: State, past: seq<Op>, ops: seq<Op>)
    requires Sourced(before, s, past)
    ensures Sourced(before, Run(s, ops), past + ops) && Run(s, ops).accounts == s.accounts
    decreases |ops|
  {
    if ops == [] {
      assert past + ops == past;
    } else {
      StepKeepsSourced(before, s, past, ops[0]);
      StepAdds(s, ops[0]);
      RunKeepsSourced(before, Step(s, ops[0]), past + [ops[0]], ops[1..]);
      assert past + [ops[0]] + ops[1..] == past + ops;
    }
  }

  /** Under any interleaving every row a run adds was asked for, well formed, of an account that exists; and it never expires. */
  lemma EveryRowWasAskedFor(s: State, ops: seq<Op>, i: nat)
    requires s.pending == [] && |s.tables.ledger| <= i < |Run(s, ops).tables.ledger|
    ensures RowAskedFor(s.accounts, ops, Run(s, ops).tables.ledger[i])
  {
    RunKeepsSourced(s.tables.ledger, s, [], ops);
    assert [] + ops == ops;
  }
}
