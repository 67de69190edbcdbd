/** Who may move an order, what they must have asked for, and where an order may go. */
module OrderRequests {
  import opened Options
  import opened OrderModel
  import opened OrderTheorems
  import opened Text

  // --- the graph ---------------------------------------------------------------------------

  /**
   An order is canceled only before a driver is assigned and rejected only while the store decides;
   otherwise it goes one stop further, which for an accepted take-away is the last one.
   */
  lemma LegalIff(current: Status, next: Status, kind: OrderType)
    ensures Legal(current, next, kind) <==>
            match next
            case Canceled => Rank(current) <= Rank(SearchingDriver)
            case StoreRejected => current == WaitingStore
            case _ =>
              if current == StoreAccepted && kind == TakeAway then next == Completed else Rank(next) == Rank(current) + 1
  {}

  /** The order in which the statuses are listed everywhere. */
  function Listed(s: Status): nat {
    match s
    case Draft => 0
    case WaitingPayment => 1
    case Paid => 2
    case WaitingStore => 3
    case StoreAccepted => 4
    case StoreRejected => 5
    case SearchingDriver => 6
    case DriverAssigned => 7
    case OnTheWay => 8
    case Delivered => 9
    case Completed => 10
    case Canceled => 11
  }

  predicate InListedOrder(xs: seq<Status>) {
    forall i, j :: 0 <= i < j < |xs| ==> Listed(xs[i]) < Listed(xs[j])
  }

  lemma {:induction false} FilterKeepsOrder(xs: seq<Status>, keep: Status -> bool)
    requires InListedOrder(xs)
    ensures InListedOrder(Filter(xs, keep))
  {
    if xs != [] {
      var n := |xs| - 1;
      FilterKeepsOrder(xs[..n], keep);
      var before := Filter(xs[..n], keep);
      forall i | 0 <= i < |before|
        ensures Listed(before[i]) < Listed(xs[n])
      {
        FilterKeeps(xs[..n], keep, before[i]);
      }
    }
  }

  lemma OfferedIff(current: Status, kind: OrderType, next: Status)
    ensures next in NextOf(current, kind) <==> Legal(current, next, kind)
  {
    FilterKeeps(Transitions(current), s => AllowedFor(current, s, kind), next);
  }

  lemma OfferedSorted(current: Status, kind: OrderType)
    ensures InListedOrder(NextOf(current, kind))
  {
    TransitionsInOrder(current);
    FilterKeepsOrder(Transitions(current), s => AllowedFor(current, s, kind));
  }

  /** The screen offers each legal next status once, in the order statuses are listed. */
  lemma OfferedInOrder(current: Status, kind: OrderType, next: Status)
    ensures next in NextOf(current, kind) <==> Legal(current, next, kind)
    ensures InListedOrder(NextOf(current, kind))
  {
    OfferedIff(current, kind, next);
    OfferedSorted(current, kind);
  }

  lemma TransitionsInOrder(current: Status)
    ensures InListedOrder(Transitions(current))
  {}

  // --- what a request is answered ----------------------------------------------------------

  /** The order is there for this caller: an operator sees the orders of their own shops only. */
  predicate Sees(t: Tables, scope: Option<set<ShopId>>, id: OrderId) {
    id in t.orders && (scope == None || t.orders[id].shop in scope.value)
  }

  predicate Justified(target: Status, reason: string) {
    (target in [Canceled, StoreRejected] ==> reason != "") && |reason| <= 500
  }

  /** A request is taken up exactly when its caller sees the order, the move is legal, and its reason will do. */
  lemma ReadIsTakenUpIff(s: State, who: Operator, scope: Scope, id: OrderId, target: Option<Status>, raw: string)
    ensures Step(s, Read(who, scope, id, target, raw)).out == Pending <==>
            && target.Some? && Sees(s.tables, scope, id)
            && Legal(s.tables.orders[id].status, target.value, s.tables.orders[id].kind)
            && Justified(target.value, TrimSpace(raw))
  {
    if Sees(s.tables, scope, id) && target.Some? {
      var o := s.tables.orders[id];
      if Legal(o.status, target.value, o.kind) { LegalClimbs(o.status, target.value, o.kind); }
    }
  }

  /**
   A caller who does not see an order is told what a caller is told whose order does not exist, and
   no row changes; one who sees it is never told so.
   */
  lemma UnseenIsNotFound(s: State, who: Operator, scope: Scope, id: OrderId, target: Status, raw: string)
    ensures var o := Step(s, Read(who, scope, id, Some(target), raw));
      && (o.out == Rejected(NotFound) <==> !Sees(s.tables, scope, id))
      && o.state.tables == s.tables
  {}

  /** The remaining refusals, for an order the caller sees. */
  lemma RefusalsAnswer(s: State, who: Operator, scope: Scope, id: OrderId, target: Option<Status>, raw: string)
    requires Sees(s.tables, scope, id)
    ensures var out := Step(s, Read(who, scope, id, target, raw)).out;
      var o := s.tables.orders[id];
      && (out == Rejected(UnknownStatus) <==> target.None?)
      && (target.Some? ==>
            && (out == Rejected(AlreadyThere) <==> target.value == o.status)
            && (out == Rejected(Illegal) <==> target.value != o.status && !Legal(o.status, target.value, o.kind))
            && (Legal(o.status, target.value, o.kind) ==>
                  && (out == Rejected(ReasonMissing) <==>
                      target.value in [Canceled, StoreRejected] && TrimSpace(raw) == "")
                  && (out == Rejected(ReasonTooLong) <==> |TrimSpace(raw)| > 500)))
  {
    if target.Some? && Legal(s.tables.orders[id].status, target.value, s.tables.orders[id].kind) {
      LegalClimbs(s.tables.orders[id].status, target.value, s.tables.orders[id].kind);
    }
  }

  // --- where every history row comes from --------------------------------------------------

  /** The request asks for this very change, by someone who sees the order. */
  ghost predicate AsksFor(start: map<OrderId, Order>, op: Op, c: Change) {
    && op.Read? && op.who == c.actor && op.id == c.order && op.target == Some(c.to)
    && c.reason == TrimSpace(op.reason) && Justified(c.to, c.reason)
    && c.order in start && (op.scope == None || start[c.order].shop in op.scope.value)
  }

  ghost predicate AskedFor(start: map<OrderId, Order>, ops: seq<Op>, c: Change) {
    exists i :: 0 <= i < |ops| && AsksFor(start, ops[i], c)
  }

  function ChangeOf(row: Row): Change {
    Change(row.order, row.from, row.to, row.reason, row.actor)
  }

  /** An order's shop and type are as checkout left them. */
  ghost predicate SameShops(start: map<OrderId, Order>, t: Tables) {
    forall id :: id in t.orders ==> id in start && t.orders[id].shop == start[id].shop
  }

  ghost predicate Sourced(start: map<OrderId, Order>, s: State, past: seq<Op>) {
    && SameShops(start, s.tables)
    && (forall i :: 0 <= i < |s.tables.history| ==> AskedFor(start, past, ChangeOf(s.tables.history[i])))
    && (forall who :: who in s.pending ==> s.pending[who].actor == who && AskedFor(start, past, s.pending[who]))
  }

  lemma AskedLater(start: map<OrderId, Order>, past: seq<Op>, op: Op, c: Change)
    requires AskedFor(start, past, c) || AsksFor(start, op, c)
    ensures AskedFor(start, past + [op], c)
  {
    if AsksFor(start, op, c) {
      assert (past + [op])[|past|] == op;
    } else {
      var i :| 0 <= i < |past| && AsksFor(start, past[i], c);
      assert (past + [op])[i] == past[i];
    }
  }

  lemma ReadAsks(start: map<OrderId, Order>, s: State, op: Op)
    requires SameShops(start, s.tables) && op.Read? && Step(s, op).out == Pending
    ensures var t := Step(s, op).state;
      && t.tables == s.tables && op.who in t.pending && t.pending[op.who].actor == op.who
      && t.pending == s.pending[op.who := t.pending[op.who]]
      && AsksFor(start, op, t.pending[op.who])
  {
    ReadIsTakenUpIff(s, op.who, op.scope, op.id, op.target, op.reason);
  }

  lemma ApplyRecords(s: State, who: Operator)
    requires who in s.pending
    ensures var t := Step(s, Apply(who)).state;
      && t.pending == s.pending - {who}
      && (t.tables.history == s.tables.history || t.tables.history == s.tables.history + [RowOf(s.pending[who])])
      && (forall id :: id in t.tables.orders ==> id in s.tables.orders && t.tables.orders[id].shop == s.tables.orders[id].shop)
  {}

  function RowOf(c: Change): Row {
    Row(c.order, c.from, c.to, c.reason, c.actor)
  }

  lemma StepKeepsSourced(start: map<OrderId, Order>, s: State, past: seq<Op>, op: Op)
    requires Sourced(start, s, past)
    ensures Sourced(start, Step(s, op).state, past + [op])
  {
    var t := Step(s, op).state;
    if op.Read? && Step(s, op).out == Pending { ReadAsks(start, s, op); }
    if op.Apply? && op.who in s.pending { ApplyRecords(s, op.who); }
    forall i | 0 <= i < |t.tables.history|
      ensures AskedFor(start, past + [op], ChangeOf(t.tables.history[i]))
    {
      AskedLater(start, past, op, ChangeOf(t.tables.history[i]));
    }
    forall who | who in t.pending
      ensures t.pending[who].actor == who && AskedFor(start, past + [op], t.pending[who])
    {
      AskedLater(start, past, op, t.pending[who]);
    }
  }

  lemma {:induction false} RunKeepsSourced(start: map<OrderId, Order>, s: State, past: seq<Op>, ops: seq<Op>)
    requires Sourced(start, s, past)
    ensures Sourced(start, Run(s, ops), past + ops)
    decreases |ops|
  {
    if ops == [] {
      assert past + ops == past;
    } else {
      StepKeepsSourced(start, s, past, ops[0]);
      RunKeepsSourced(start, Step(s, ops[0]).state, past + [ops[0]], ops[1..]);
      assert past + [ops[0]] + ops[1..] == past + ops;
    }
  }

  /**
   Under any interleaving every history row was asked for: by the operator it names, who saw the
   order, for the status it records, and with the reason it records.
   */
  lemma EveryRowWasAskedFor(start: map<OrderId, Order>, ops: seq<Op>, i: nat)
    requires i < |Run(Init(start), ops).tables.history|
    ensures AskedFor(start, ops, ChangeOf(Run(Init(start), ops).tables.history[i]))
  {
    RunKeepsSourced(start, Init(start), [], ops);
    assert [] + ops == ops;
  }

  /** An operator who works in these shops never moves an order of another, however requests interleave. */
  lemma OperatorsKeepToTheirShops(start: map<OrderId, Order>, ops: seq<Op>, w: Operator, shops: set<ShopId>, i: nat)
    requires forall op :: op in ops && op.Read? && op.who == w ==> op.scope == Some(shops)
    requires i < |Run(Init(start), ops).tables.history| && Run(Init(start), ops).tables.history[i].actor == w
    ensures var order := Run(Init(start), ops).tables.history[i].order;
      order in start && start[order].shop in shops
  {
    EveryRowWasAskedFor(start, ops, i);
  }

  /** And an operator of the order's shop can make any legal move: read and write with nobody in between. */
  lemma OperatorsMoveTheirOrders(
    s: State, w: Operator, shops: set<ShopId>, id: OrderId, target: Status, raw: string)
    requires id in s.tables.orders && s.tables.orders[id].shop in shops
    requires Legal(s.tables.orders[id].status, target, s.tables.orders[id].kind) && Justified(target, TrimSpace(raw))
    ensures var o := s.tables.orders[id];
      var t := Step(Step(s, Read(w, Some(shops), id, Some(target), raw)).state, Apply(w));
      && t.out == Written
      && t.state.tables.orders == s.tables.orders[id := Order(target, o.kind, o.shop)]
      && t.state.tables.history == s.tables.history + [Row(id, o.status, target, TrimSpace(raw), w)]
  {
    ReadIsTakenUpIff(s, w, Some(shops), id, Some(target), raw);
  }
}
