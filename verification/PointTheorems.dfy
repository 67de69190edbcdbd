/** What any interleaving of adjustments keeps. */
module PointTheorems {
  import opened Options
  import opened PointModel

  // --- sums over the pending calls ---------------------------------------------------------

  /** What the pending deductions of the account will take once they all commit. */
  function Owed(pending: seq<Adjustment>, u: UserId): int {
    if pending == [] then 0
    else Owed(pending[..|pending| - 1], u) + if Deducts(pending[|pending| - 1], u) then pending[|pending| - 1].points else 0
  }

  lemma {:induction false} SumsConcat(a: seq<Adjustment>, b: seq<Adjustment>, u: UserId)
    ensures Owed(a + b, u) == Owed(a, u) + Owed(b, u)
    ensures Overlap(a + b, u) == Overlap(a, u) + Overlap(b, u)
  {
    if b == [] {
      assert a + b == a;
    } else {
      assert (a + b)[..|a + b| - 1] == a + b[..|b| - 1];
      SumsConcat(a, b[..|b| - 1], u);
    }
  }

  lemma SumsOne(a: Adjustment, u: UserId)
    ensures Owed([a], u) == if Deducts(a, u) then a.points else 0
    ensures Overlap([a], u) == if Deducts(a, u) then 1 else 0
  {}

  lemma SumsWithout(pending: seq<Adjustment>, i: nat, u: UserId)
    requires i < |pending|
    ensures Owed(pending, u) == Owed(Without(pending, i), u) + if Deducts(pending[i], u) then pending[i].points else 0
    ensures Overlap(pending, u) == Overlap(Without(pending, i), u) + if Deducts(pending[i], u) then 1 else 0
  {
    assert pending == pending[..i] + ([pending[i]] + pending[i + 1..]);
    SumsConcat(pending[..i], [pending[i]] + pending[i + 1..], u);
    SumsConcat([pending[i]], pending[i + 1..], u);
    SumsConcat(pending[..i], pending[i + 1..], u);
    SumsOne(pending[i], u);
  }

  ghost predicate Bounded(pending: seq<Adjustment>) {
    forall i :: 0 <= i < |pending| ==> 0 < pending[i].points <= MAX_ADJUSTMENT
  }

  lemma {:induction false} OwedBound(pending: seq<Adjustment>, u: UserId)
    requires Bounded(pending)
    ensures 0 <= Owed(pending, u) <= Overlap(pending, u) * MAX_ADJUSTMENT
  {
    if pending != [] { OwedBound(pending[..|pending| - 1], u); }
  }

  lemma WriteMoves(t: Tables, a: Adjustment, u: UserId)
    ensures LedgerOf(Write(t, a).ledger, u) == LedgerOf(t.ledger, u) + if a.user == u then Delta(a) else 0
  {}

  // --- the overlap bound -------------------------------------------------------------------

  ghost predicate Safe(k: int, s: State, u: UserId) {
    Bounded(s.pending) && LedgerOf(s.tables.ledger, u) - Owed(s.pending, u) >= -(k - 1) * MAX_ADJUSTMENT
  }

  lemma BeginKeepsSafe(k: int, s: State, a: Adjustment, u: UserId)
    requires Safe(k, s, u) && 0 < a.points <= MAX_ADJUSTMENT
    requires Deducts(a, u) ==> a.points <= LedgerOf(s.tables.ledger, u)
    requires Overlap(s.pending + [a], u) <= k
    ensures Safe(k, s.(pending := s.pending + [a]), u)
  {
    SumsConcat(s.pending, [a], u);
    SumsOne(a, u);
    OwedBound(s.pending, u);
    if Deducts(a, u) {
      assert Overlap(s.pending, u) <= k - 1;
      assert Owed(s.pending, u) <= (k - 1) * MAX_ADJUSTMENT;
    }
  }

  lemma CommitKeepsSafe(k: int, s: State, i: nat, u: UserId)
    requires Safe(k, s, u) && i < |s.pending|
    ensures Safe(k, s.(tables := Write(s.tables, s.pending[i]), pending := Without(s.pending, i)), u)
  {
    CommitSettles(s, i, u);
    assert forall j :: 0 <= j < |Without(s.pending, i)| ==>
      Without(s.pending, i)[j] == if j < i then s.pending[j] else s.pending[j + 1];
  }

  /** Committing a deduction lowers the ledger and what is owed by the same amount. */
  lemma CommitSettles(s: State, i: nat, u: UserId)
    requires Bounded(s.pending) && i < |s.pending|
    ensures LedgerOf(Write(s.tables, s.pending[i]).ledger, u) - Owed(Without(s.pending, i), u) >=
            LedgerOf(s.tables.ledger, u) - Owed(s.pending, u)
  {
    SumsWithout(s.pending, i, u);
    WriteMoves(s.tables, s.pending[i], u);
  }

  lemma AbortKeepsSafe(k: int, s: State, i: nat, u: UserId)
    requires Safe(k, s, u) && i < |s.pending|
    ensures Safe(k, s.(pending := Without(s.pending, i)), u)
  {
    SumsWithout(s.pending, i, u);
    assert forall j :: 0 <= j < |Without(s.pending, i)| ==>
      Without(s.pending, i)[j] == if j < i then s.pending[j] else s.pending[j + 1];
  }

  /** What an accepted adjustment has been checked for. */
  lemma CheckAccepts(t: Tables, accounts: set<UserId>, actor: UserId, user: UserId, points: int, direction: Option<Direction>, reason: string)
    requires Check(t, accounts, actor, user, points, direction, reason).Valid?
    ensures var a := Check(t, accounts, actor, user, points, direction, reason).adjustment;
      && 0 < a.points <= MAX_ADJUSTMENT && a.user == user
      && (a.direction == Out ==> a.points <= LedgerOf(t.ledger, user))
  {}

  lemma StepKeepsSafe(k: int, s: State, op: Op, u: UserId)
    requires Safe(k, s, u) && Overlap(Step(s, op).pending, u) <= k
    ensures Safe(k, Step(s, op), u)
  {
    match op
    case Begin(actor, user, points, direction, reason) =>
      var v := Check(s.tables, s.accounts, actor, user, points, direction, reason);
      if v.Valid? {
        CheckAccepts(s.tables, s.accounts, actor, user, points, direction, reason);
        BeginKeepsSafe(k, s, v.adjustment, u);
      }
    case Commit(i) =>
      if i < |s.pending| { CommitKeepsSafe(k, s, i, u); }
    case Abort(i) =>
      if i < |s.pending| { AbortKeepsSafe(k, s, i, u); }
  }

  lemma {:induction false} RunKeepsSafe(k: nat, s: State, ops: seq<Op>, u: UserId)
    requires Safe(k, s, u) && OverlapAtMost(k, s, ops, u)
    ensures Safe(k, Run(s, ops), u)
    decreases |ops|
  {
    if ops != [] {
      StepKeepsSafe(k, s, ops[0], u);
      RunKeepsSafe(k, Step(s, ops[0]), ops[1..], u);
    }
  }

  /**
   If at most k deductions of an account are ever between their check and their commit at once,
   its ledger, once non-negative, never falls below -(k - 1) * MAX_ADJUSTMENT.
   */
  lemma OverlapBound(k: nat, s: State, ops: seq<Op>, u: UserId)
    requires k >= 1 && s.pending == [] && LedgerOf(s.tables.ledger, u) >= 0
    requires OverlapAtMost(k, s, ops, u)
    ensures LedgerOf(Run(s, ops).tables.ledger, u) >= -(k - 1) * MAX_ADJUSTMENT
  {
    RunKeepsSafe(k, s, ops, u);
    OwedBound(Run(s, ops).pending, u);
  }

  // --- the bound is reached ----------------------------------------------------------------

  const LARGEST := Adjustment(1, MAX_ADJUSTMENT, Out, "x", 2)
  const GRANT := Entry(Adjustment(1, MAX_ADJUSTMENT, In, "x", 2), None, false)

  function Copies(n: nat): seq<Adjustment> {
    seq(n, _ => LARGEST)
  }

  function Begins(n: nat): seq<Op> {
    seq(n, _ => Begin(2, 1, MAX_ADJUSTMENT, Some(Out), "x"))
  }

  function Commits(n: nat): seq<Op> {
    seq(n, _ => Commit(0))
  }

  function Granted(pending: nat): State {
    State(Tables([GRANT], map[]), {1}, Copies(pending))
  }

  lemma GrantCounts()
    ensures LedgerOf([GRANT], 1) == MAX_ADJUSTMENT
  {}

  lemma {:induction false} CopiesSum(n: nat)
    ensures Overlap(Copies(n), 1) == n
  {
    if n > 0 {
      assert Copies(n)[..n - 1] == Copies(n - 1);
      CopiesSum(n - 1);
    }
  }

  lemma BeginPiles(begun: nat)
    ensures Step(Granted(begun), Begin(2, 1, MAX_ADJUSTMENT, Some(Out), "x")) == Granted(begun + 1)
  {
    GrantCounts();
    Text.TrimSpaceKeeps("x");
    assert Copies(begun) + [LARGEST] == Copies(begun + 1);
  }

  lemma BeginsHead(n: nat, rest: seq<Op>)
    requires n > 0
    ensures var ops := Begins(n) + rest;
      |ops| > 0 && ops[0] == Begin(2, 1, MAX_ADJUSTMENT, Some(Out), "x") && ops[1..] == Begins(n - 1) + rest
  {}

  lemma {:induction false} BeginsPile(begun: nat, n: nat, rest: seq<Op>)
    ensures Run(Granted(begun), Begins(n) + rest) == Run(Granted(begun + n), rest)
    decreases n
  {
    if n == 0 {
      assert Begins(n) + rest == rest;
    } else {
      BeginPiles(begun);
      BeginsHead(n, rest);
      BeginsPile(begun + 1, n - 1, rest);
    }
  }

  lemma OneStepMore(k: nat, s: State, t: State, ops: seq<Op>, u: UserId)
    requires ops != [] && t == Step(s, ops[0])
    requires Overlap(s.pending, u) <= k && OverlapAtMost(k, t, ops[1..], u)
    ensures OverlapAtMost(k, s, ops, u)
  {}

  lemma {:induction false} BeginsOverlap(k: nat, begun: nat, n: nat, rest: seq<Op>)
    requires begun + n <= k && OverlapAtMost(k, Granted(begun + n), rest, 1)
    ensures OverlapAtMost(k, Granted(begun), Begins(n) + rest, 1)
    decreases n
  {
    if n == 0 {
      assert Begins(n) + rest == rest;
    } else {
      BeginsOverlap(k, begun + 1, n - 1, rest);
      BeginPiles(begun);
      BeginsHead(n, rest);
      CopiesSum(begun);
      OneStepMore(k, Granted(begun), Granted(begun + 1), Begins(n) + rest, 1);
    }
  }

  lemma CommitDrops(s: State, n: nat)
    requires n > 0 && s.pending == Copies(n)
    ensures Step(s, Commit(0)).pending == Copies(n - 1) && Overlap(s.pending, 1) == n
  {
    assert Without(s.pending, 0) == Copies(n - 1);
    CopiesSum(n);
  }

  lemma CommitLands(s: State, n: nat)
    requires n > 0 && s.pending == Copies(n)
    ensures LedgerOf(Step(s, Commit(0)).tables.ledger, 1) == LedgerOf(s.tables.ledger, 1) - MAX_ADJUSTMENT
  {
    WriteMoves(s.tables, s.pending[0], 1);
  }

  lemma CommitsHead(s: State, n: nat)
    requires n > 0
    ensures Run(s, Commits(n)) == Run(Step(s, Commit(0)), Commits(n - 1))
  {
    assert Commits(n)[1..] == Commits(n - 1);
  }

  lemma {:induction false} CommitsLand(s: State, n: nat)
    requires s.pending == Copies(n)
    ensures var t := Run(s, Commits(n));
      t.pending == [] && LedgerOf(t.tables.ledger, 1) == LedgerOf(s.tables.ledger, 1) - n * MAX_ADJUSTMENT
    decreases n
  {
    if n > 0 {
      CommitDrops(s, n);
      CommitLands(s, n);
      CommitsHead(s, n);
      CommitsLand(Step(s, Commit(0)), n - 1);
    }
  }

  lemma {:induction false} CommitsOverlap(k: nat, s: State, n: nat)
    requires s.pending == Copies(n) && n <= k
    ensures OverlapAtMost(k, s, Commits(n), 1)
    decreases n
  {
    if n > 0 {
      var t := Step(s, Commit(0));
      CommitDrops(s, n);
      CommitsOverlap(k, t, n - 1);
      assert Commits(n)[0] == Commit(0) && Commits(n)[1..] == Commits(n - 1);
      OneStepMore(k, s, t, Commits(n), 1);
    }
  }

  /** For every k there is a run that overlaps k deductions and ends exactly on the bound; for k >= 2 it is an overdraft. */
  lemma OverlapBoundIsReached(k: nat)
    requires k >= 1
    ensures var s, ops := Granted(0), Begins(k) + Commits(k);
      && s.pending == [] && LedgerOf(s.tables.ledger, 1) == MAX_ADJUSTMENT
      && OverlapAtMost(k, s, ops, 1)
      && LedgerOf(Run(s, ops).tables.ledger, 1) == -(k - 1) * MAX_ADJUSTMENT
  {
    GrantCounts();
    BeginsPile(0, k, Commits(k));
    CommitsOverlap(k, Granted(k), k);
    BeginsOverlap(k, 0, k, Commits(k));
    CommitsLand(Granted(k), k);
  }

  // --- drift -------------------------------------------------------------------------------

  /** A total the adjustment can keep in step: no row yet, or a live one holding a number. */
  predicate Trackable(t: Tables, u: UserId) {
    u !in t.totals || (!t.totals[u].deleted && t.totals[u].points.Some?)
  }

  /** One adjustment leaves its account's drift alone exactly when the total is trackable. */
  lemma WriteKeepsDriftIff(t: Tables, a: Adjustment)
    requires a.points > 0
    ensures Drift(Write(t, a), a.user) == Drift(t, a.user) <==> Trackable(t, a.user)
  {}

  lemma WriteMovesTotal(t: Tables, a: Adjustment, u: UserId)
    ensures Trackable(t, u) <==> Trackable(Write(t, a), u)
    ensures CachedOf(Write(t, a), u) ==
            if !Trackable(t, u) then 0 else CachedOf(t, u) + if a.user == u then Delta(a) else 0
    ensures !Trackable(t, u) ==> CachedOf(t, u) == 0
  {}

  lemma WriteKeepsDrift(t: Tables, a: Adjustment, u: UserId)
    ensures Trackable(t, u) <==> Trackable(Write(t, a), u)
    ensures Trackable(t, u) ==> Drift(Write(t, a), u) == Drift(t, u)
    ensures !Trackable(t, u) ==> CachedOf(Write(t, a), u) == CachedOf(t, u) == 0
  {
    WriteMovesTotal(t, a, u);
    WriteMoves(t, a, u);
  }

  lemma {:induction false} DriftFollows(s: State, ops: seq<Op>, u: UserId)
    ensures var t := Run(s, ops).tables;
      if Trackable(s.tables, u) then Drift(t, u) == Drift(s.tables, u) else CachedOf(t, u) == CachedOf(s.tables, u) == 0
    decreases |ops|
  {
    if ops != [] {
      if ops[0].Commit? && ops[0].call < |s.pending| {
        WriteKeepsDrift(s.tables, s.pending[ops[0].call], u);
      }
      DriftFollows(Step(s, ops[0]), ops[1..], u);
    }
  }

  /**
   Whatever drift an account starts with, an interleaving of adjustments, on any accounts, leaves
   it exactly when the account's total is trackable or its ledger balance ends where it began.
   */
  lemma DriftUnchangedIff(s: State, ops: seq<Op>, u: UserId)
    ensures var t := Run(s, ops).tables;
      Drift(t, u) == Drift(s.tables, u) <==>
      Trackable(s.tables, u) || LedgerOf(t.ledger, u) == LedgerOf(s.tables.ledger, u)
  {
    DriftFollows(s, ops, u);
  }

  lemma WriteNeverExpires(t: Tables, a: Adjustment, u: UserId, now: int)
    ensures ExpiredOf(Write(t, a).ledger, u, now) == ExpiredOf(t.ledger, u, now)
  {
    var ledger := Write(t, a).ledger;
    assert ledger[..|ledger| - 1] == t.ledger;
  }

  /** No adjustment, not even a deduction, changes what counts as expired inflow. */
  lemma {:induction false} AdjustmentsNeverExpire(s: State, ops: seq<Op>, u: UserId, now: int)
    ensures ExpiredOf(Run(s, ops).tables.ledger, u, now) == ExpiredOf(s.tables.ledger, u, now)
    decreases |ops|
  {
    if ops != [] {
      if ops[0].Commit? && ops[0].call < |s.pending| {
        WriteNeverExpires(s.tables, s.pending[ops[0].call], u, now);
      }
      AdjustmentsNeverExpire(Step(s, ops[0]), ops[1..], u, now);
    }
  }

  /** An adjustment is recorded, never rewritten: the old ledger stays a prefix of every later one. */
  lemma {:induction false} LedgerIsAppendOnly(s: State, ops: seq<Op>)
    ensures s.tables.ledger <= Run(s, ops).tables.ledger
    decreases |ops|
  {
    if ops != [] { LedgerIsAppendOnly(Step(s, ops[0]), ops[1..]); }
  }
}
