/**
 The point ledger: one row per movement is the truth, one cached total per account sits beside it.
 A manual adjustment checks the ledger first and writes later, in a transaction of its own, so
 other adjustments may commit in between.
 */
module PointModel {
  import opened Options
  import opened Text

  type UserId = nat
  datatype Direction = In | Out

  const MAX_ADJUSTMENT := 1_000_000
  const MAX_REASON_RUNES := 500

  datatype Adjustment = Adjustment(user: UserId, points: int, direction: Direction, reason: string, actor: UserId)

  /** A user_points row; the column is nullable and the row can be soft-deleted. */
  datatype Total = Total(points: Option<int>, deleted: bool)

  /** A user_point_histories row: rewards may expire, and any row can be soft-deleted. */
  datatype Entry = Entry(movement: Adjustment, expires: Option<int>, deleted: bool)

  datatype Tables = Tables(ledger: seq<Entry>, totals: map<UserId, Total>)

  function Delta(a: Adjustment): int {
    if a.direction == Out then -a.points else a.points
  }

  /** The rows an account's queries see. */
  predicate Visible(e: Entry, u: UserId) {
    e.movement.user == u && !e.deleted
  }

  function LedgerOf(ledger: seq<Entry>, u: UserId): int {
    if ledger == [] then 0
    else LedgerOf(ledger[..|ledger| - 1], u) +
         if Visible(ledger[|ledger| - 1], u) then Delta(ledger[|ledger| - 1].movement) else 0
  }

  predicate HasExpired(e: Entry, now: int) {
    e.movement.direction == In && e.expires.Some? && e.expires.value < now
  }

  /** A diagnostic only: expired points still count in the ledger until an 'out' row takes them. */
  function ExpiredOf(ledger: seq<Entry>, u: UserId, now: int): int {
    if ledger == [] then 0
    else ExpiredOf(ledger[..|ledger| - 1], u, now) +
         if Visible(ledger[|ledger| - 1], u) && HasExpired(ledger[|ledger| - 1], now)
         then ledger[|ledger| - 1].movement.points else 0
  }

  /** The row the balance query can see. */
  predicate Counted(t: Tables, u: UserId) {
    u in t.totals && !t.totals[u].deleted && t.totals[u].points.Some?
  }

  function CachedOf(t: Tables, u: UserId): int {
    if Counted(t, u) then t.totals[u].points.value else 0
  }

  function Drift(t: Tables, u: UserId): int {
    CachedOf(t, u) - LedgerOf(t.ledger, u)
  }

  function Upsert(totals: map<UserId, Total>, u: UserId, delta: int): map<UserId, Total> {
    if u !in totals then totals[u := Total(Some(delta), false)]
    else
      var row := totals[u];
      totals[u := row.(points := if row.points.Some? then Some(row.points.value + delta) else None)]
  }

  /** The transaction: the ledger row and the relative update of the total. */
  function Write(t: Tables, a: Adjustment): Tables {
    Tables(t.ledger + [Entry(a, None, false)], Upsert(t.totals, a.user, Delta(a)))
  }

  // --- validation --------------------------------------------------------------------------

  datatype Problem = BadDirection | NotPositive | TooLarge | ReasonMissing | ReasonTooLong
  datatype Refusal = NoAccount | Invalid(problems: seq<Problem>) | Overdrawn | Internal
  datatype Verdict = Valid(adjustment: Adjustment) | Refused(why: Refusal)

  function Problems(direction: Option<Direction>, points: int, reason: string): seq<Problem> {
    (if direction.None? then [BadDirection] else []) +
    (if points <= 0 then [NotPositive] else if points > MAX_ADJUSTMENT then [TooLarge] else []) +
    (if reason == "" then [ReasonMissing] else []) +
    (if |reason| > MAX_REASON_RUNES then [ReasonTooLong] else [])
  }

  /** `direction` is None when the request names neither 'in' nor 'out'. */
  function Check(
    t: Tables, accounts: set<UserId>, actor: UserId, u: UserId, points: int, direction: Option<Direction>, rawReason: string): Verdict
  {
    var problems := Problems(direction, points, TrimSpace(rawReason));
    if u !in accounts then Refused(NoAccount)
    else if problems != [] then Refused(Invalid(problems))
    else if direction == Some(Out) && LedgerOf(t.ledger, u) - points < 0 then Refused(Overdrawn)
    else Valid(Adjustment(u, points, direction.value, TrimSpace(rawReason), actor))
  }

  // --- interleaving ------------------------------------------------------------------------

  /** `pending` holds the adjustments between their check and their commit. */
  datatype State = State(tables: Tables, accounts: set<UserId>, pending: seq<Adjustment>)
  datatype Op =
    | Begin(actor: UserId, user: UserId, points: int, direction: Option<Direction>, reason: string)
    | Commit(call: nat)
    | Abort(call: nat)

  function Without(pending: seq<Adjustment>, i: nat): seq<Adjustment>
    requires i < |pending|
  {
    pending[..i] + pending[i + 1..]
  }

  function Step(s: State, op: Op): State {
    match op
    case Begin(actor, u, points, direction, reason) =>
      var v := Check(s.tables, s.accounts, actor, u, points, direction, reason);
      if v.Valid? then s.(pending := s.pending + [v.adjustment]) else s
    case Commit(i) =>
      if i < |s.pending| then s.(tables := Write(s.tables, s.pending[i]), pending := Without(s.pending, i)) else s
    case Abort(i) =>
      if i < |s.pending| then s.(pending := Without(s.pending, i)) else s
  }

  function Run(s: State, ops: seq<Op>): State
    decreases |ops|
  {
    if ops == [] then s else Run(Step(s, ops[0]), ops[1..])
  }

  predicate Deducts(a: Adjustment, u: UserId) {
    a.user == u && a.direction == Out
  }

  /** How many deductions of the account are between check and commit. */
  function Overlap(pending: seq<Adjustment>, u: UserId): nat {
    if pending == [] then 0
    else Overlap(pending[..|pending| - 1], u) + if Deducts(pending[|pending| - 1], u) then 1 else 0
  }

  predicate OverlapAtMost(k: nat, s: State, ops: seq<Op>, u: UserId)
    decreases |ops|
  {
    Overlap(s.pending, u) <= k && (ops == [] || OverlapAtMost(k, Step(s, ops[0]), ops[1..], u))
  }
}
