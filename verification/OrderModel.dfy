/**
 The order lifecycle: a status graph with an order-type filter, and operators who read an order,
 validate a transition against what they read, and write it with a guarded UPDATE.
 */
module OrderModel {
  import opened Options
  import opened Text

  datatype Status =
    | Draft | WaitingPayment | Paid | WaitingStore | StoreAccepted | StoreRejected
    | SearchingDriver | DriverAssigned | OnTheWay | Delivered | Completed | Canceled
  datatype OrderType = TakeAway | Delivery

  const MAX_REASON_RUNES := 500

  function Transitions(s: Status): seq<Status> {
    match s
    case Draft => [WaitingPayment, Canceled]
    case WaitingPayment => [Paid, Canceled]
    case Paid => [WaitingStore, Canceled]
    case WaitingStore => [StoreAccepted, StoreRejected, Canceled]
    case StoreAccepted => [SearchingDriver, Completed, Canceled]
    case SearchingDriver => [DriverAssigned, Canceled]
    case DriverAssigned => [OnTheWay]
    case OnTheWay => [Delivered]
    case Delivered => [Completed]
    case Completed => []
    case Canceled => []
    case StoreRejected => []
  }

  predicate AllowedFor(current: Status, next: Status, kind: OrderType) {
    current != StoreAccepted ||
    match next
    case SearchingDriver => kind == Delivery
    case Completed => kind == TakeAway
    case _ => true
  }

  predicate Legal(current: Status, next: Status, kind: OrderType) {
    next in Transitions(current) && AllowedFor(current, next, kind)
  }

  predicate ReasonRequired(s: Status) {
    s == Canceled || s == StoreRejected
  }

  function Filter(xs: seq<Status>, keep: Status -> bool): seq<Status> {
    if xs == [] then []
    else Filter(xs[..|xs| - 1], keep) + if keep(xs[|xs| - 1]) then [xs[|xs| - 1]] else []
  }

  lemma {:induction false} FilterKeeps(xs: seq<Status>, keep: Status -> bool, x: Status)
    ensures x in Filter(xs, keep) <==> x in xs && keep(x)
  {
    if xs != [] {
      assert xs == xs[..|xs| - 1] + [xs[|xs| - 1]];
      FilterKeeps(xs[..|xs| - 1], keep, x);
    }
  }

  function NextOf(current: Status, kind: OrderType): seq<Status> {
    Filter(Transitions(current), next => AllowedFor(current, next, kind))
  }

  // --- the tables and the operators --------------------------------------------------------

  type OrderId = nat
  type ShopId = nat
  type Operator = nat

  datatype Order = Order(status: Status, kind: OrderType, shop: ShopId)
  datatype Row = Row(order: OrderId, from: Status, to: Status, reason: string, actor: Operator)

  /** A validated change an operator has read for, but not written yet. */
  datatype Change = Change(order: OrderId, from: Status, to: Status, reason: string, actor: Operator)

  datatype Tables = Tables(orders: map<OrderId, Order>, history: seq<Row>)
  datatype Refusal = UnknownStatus | NotFound | AlreadyThere | Illegal | ReasonMissing | ReasonTooLong | Moved | Internal
  datatype Verdict = Valid(change: Change) | Refused(why: Refusal)

  /** The shops a caller works in; None for the superadmin, who sees every shop. */
  type Scope = Option<set<ShopId>>

  predicate InScope(scope: Scope, shop: ShopId) {
    scope.None? || shop in scope.value
  }

  /** Read and validate, in the service's order of checks.  `target` is None for an unknown status name. */
  function Check(
    t: Tables, actor: Operator, scope: Scope, id: OrderId, target: Option<Status>, rawReason: string): Verdict
  {
    if target.None? then Refused(UnknownStatus)
    else if id !in t.orders || !InScope(scope, t.orders[id].shop) then Refused(NotFound)
    else
      var current := t.orders[id].status;
      var reason := TrimSpace(rawReason);
      if target.value == current then Refused(AlreadyThere)
      else if !Legal(current, target.value, t.orders[id].kind) then Refused(Illegal)
      else if ReasonRequired(target.value) && reason == "" then Refused(ReasonMissing)
      else if |reason| > MAX_REASON_RUNES then Refused(ReasonTooLong)
      else Valid(Change(id, current, target.value, reason, actor))
  }

  predicate Guard(t: Tables, c: Change) {
    c.order in t.orders && t.orders[c.order].status == c.from
  }

  /** The guarded UPDATE with its history row; nothing at all when the guard matches no row. */
  function Write(t: Tables, c: Change): Tables {
    if !Guard(t, c) then t
    else Tables(
        t.orders[c.order := t.orders[c.order].(status := c.to)],
        t.history + [Row(c.order, c.from, c.to, c.reason, c.actor)])
  }

  // --- interleaving ------------------------------------------------------------------------

  datatype State = State(tables: Tables, pending: map<Operator, Change>)
  datatype Op =
    | Read(who: Operator, scope: Scope, id: OrderId, target: Option<Status>, reason: string)
    | Apply(who: Operator)
    | Abandon(who: Operator)
  datatype Out = Pending | Written | Rejected(why: Refusal) | Nothing
  datatype Outcome = Outcome(state: State, out: Out)

  function Step(s: State, op: Op): Outcome {
    match op
    case Read(who, scope, id, target, reason) =>
      (match Check(s.tables, who, scope, id, target, reason)
       case Valid(change) => Outcome(s.(pending := s.pending[who := change]), Pending)
       case Refused(why) => Outcome(s.(pending := s.pending - {who}), Rejected(why)))
    case Apply(who) =>
      if who !in s.pending then Outcome(s, Nothing)
      else
        var c := s.pending[who];
        Outcome(State(Write(s.tables, c), s.pending - {who}), if Guard(s.tables, c) then Written else Rejected(Moved))
    case Abandon(who) => Outcome(s.(pending := s.pending - {who}), Rejected(Internal))
  }

  function Run(s: State, ops: seq<Op>): State
    decreases |ops|
  {
    if ops == [] then s else Run(Step(s, ops[0]).state, ops[1..])
  }

  /** Orders as checkout left them, no history yet, nobody half-way through a change. */
  function Init(orders: map<OrderId, Order>): State {
    State(Tables(orders, []), map[])
  }

  // --- what the report counts --------------------------------------------------------------

  const REVENUE_STATUSES: seq<Status> :=
    [Paid, WaitingStore, StoreAccepted, SearchingDriver, DriverAssigned, OnTheWay, Delivered, Completed]

  predicate CountsAsRevenue(s: Status) {
    s in REVENUE_STATUSES
  }
}
