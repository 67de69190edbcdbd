/** What any interleaving of operators keeps. */
module OrderTheorems {
  import opened Options
  import opened OrderModel

  function RowsOf(history: seq<Row>, id: OrderId): seq<Row> {
    if history == [] then []
    else RowsOf(history[..|history| - 1], id) + if history[|history| - 1].order == id then [history[|history| - 1]] else []
  }

  /** The rows lead from `first` to `last`, each one a legal transition out of the status before it. */
  predicate Path(rows: seq<Row>, first: Status, last: Status, kind: OrderType) {
    if rows == [] then first == last
    else
      var row := rows[|rows| - 1];
      row.to == last && Legal(row.from, row.to, kind) && Path(rows[..|rows| - 1], first, row.from, kind)
  }

  ghost predicate OrderSound(start: map<OrderId, Order>, t: Tables, id: OrderId)
    requires id in start && id in t.orders
  {
    && t.orders[id].kind == start[id].kind
    && Path(RowsOf(t.history, id), start[id].status, t.orders[id].status, start[id].kind)
  }

  ghost predicate TablesSound(start: map<OrderId, Order>, t: Tables) {
    t.orders.Keys == start.Keys && forall id :: id in start && id in t.orders ==> OrderSound(start, t, id)
  }

  ghost predicate LegalChange(start: map<OrderId, Order>, c: Change) {
    c.order in start && Legal(c.from, c.to, start[c.order].kind)
  }

  ghost predicate Inv(start: map<OrderId, Order>, s: State) {
    && TablesSound(start, s.tables)
    && (forall who :: who in s.pending ==> LegalChange(start, s.pending[who]))
  }

  lemma WriteAppends(t: Tables, c: Change, id: OrderId)
    requires Guard(t, c)
    ensures RowsOf(Write(t, c).history, id) ==
            RowsOf(t.history, id) + if c.order == id then [Row(c.order, c.from, c.to, c.reason, c.actor)] else []
  {}

  lemma PathGrows(rows: seq<Row>, row: Row, first: Status, kind: OrderType)
    requires Path(rows, first, row.from, kind) && Legal(row.from, row.to, kind)
    ensures Path(rows + [row], first, row.to, kind)
  {
    assert (rows + [row])[..|rows|] == rows;
  }

  lemma WriteKeepsOrder(start: map<OrderId, Order>, t: Tables, c: Change, id: OrderId)
    requires Guard(t, c) && id in start && id in t.orders && OrderSound(start, t, id)
    requires c.order == id ==> Legal(c.from, c.to, start[id].kind)
    ensures id in Write(t, c).orders && OrderSound(start, Write(t, c), id)
  {
    var rows := RowsOf(t.history, id);
    WriteAppends(t, c, id);
    if id == c.order {
      PathGrows(rows, Row(c.order, c.from, c.to, c.reason, c.actor), start[id].status, start[id].kind);
    } else {
      assert RowsOf(Write(t, c).history, id) == rows;
    }
  }

  lemma WriteKeeps(start: map<OrderId, Order>, t: Tables, c: Change)
    requires TablesSound(start, t) && LegalChange(start, c)
    ensures TablesSound(start, Write(t, c))
  {
    if Guard(t, c) {
      forall id | id in start && id in Write(t, c).orders
        ensures OrderSound(start, Write(t, c), id)
      {
        WriteKeepsOrder(start, t, c, id);
      }
    }
  }

  lemma StepKeeps(start: map<OrderId, Order>, s: State, op: Op)
    requires Inv(start, s)
    ensures Inv(start, Step(s, op).state)
  {
    match op
    case Apply(who) => if who in s.pending { WriteKeeps(start, s.tables, s.pending[who]); }
    case Abandon(who) =>
    case Read(who, scope, id, target, reason) =>
      var v := Check(s.tables, who, scope, id, target, reason);
      assert v.Valid? ==> LegalChange(start, v.change);
  }

  lemma {:induction false} RunKeeps(start: map<OrderId, Order>, s: State, ops: seq<Op>)
    requires Inv(start, s)
    ensures Inv(start, Run(s, ops))
    decreases |ops|
  {
    if ops != [] {
      StepKeeps(start, s, ops[0]);
      RunKeeps(start, Step(s, ops[0]).state, ops[1..]);
    }
  }

  /** Whatever the interleaving, an order's history is an unbroken legal path from its first status to its current one. */
  lemma HistoryIsAPath(start: map<OrderId, Order>, ops: seq<Op>, id: OrderId)
    requires id in start
    ensures var s := Run(Init(start), ops);
      && id in s.tables.orders
      && Path(RowsOf(s.tables.history, id), start[id].status, s.tables.orders[id].status, start[id].kind)
  {
    RunKeeps(start, Init(start), ops);
  }

  // --- no status is left twice -------------------------------------------------------------

  function Rank(s: Status): nat {
    match s
    case Draft => 0
    case WaitingPayment => 1
    case Paid => 2
    case WaitingStore => 3
    case StoreAccepted => 4
    case SearchingDriver => 5
    case DriverAssigned => 6
    case OnTheWay => 7
    case Delivered => 8
    case Completed => 9
    case Canceled => 9
    case StoreRejected => 9
  }

  lemma LegalClimbs(current: Status, next: Status, kind: OrderType)
    requires Legal(current, next, kind)
    ensures Rank(current) < Rank(next)
  {}

  lemma {:induction false} PathClimbs(rows: seq<Row>, first: Status, last: Status, kind: OrderType, i: nat)
    requires Path(rows, first, last, kind) && i < |rows|
    ensures Rank(first) <= Rank(rows[i].from) < Rank(rows[i].to) <= Rank(last)
  {
    var row := rows[|rows| - 1];
    LegalClimbs(row.from, row.to, kind);
    if i < |rows| - 1 {
      PathClimbs(rows[..|rows| - 1], first, row.from, kind, i);
    } else if |rows| > 1 {
      PathClimbs(rows[..|rows| - 1], first, row.from, kind, |rows| - 2);
    }
  }

  lemma {:induction false} PathLeavesOnce(rows: seq<Row>, first: Status, last: Status, kind: OrderType, i: nat, j: nat)
    requires Path(rows, first, last, kind) && i < j < |rows|
    ensures rows[i].from != rows[j].from
  {
    var row := rows[|rows| - 1];
    if j < |rows| - 1 {
      PathLeavesOnce(rows[..|rows| - 1], first, row.from, kind, i, j);
    } else {
      PathClimbs(rows[..|rows| - 1], first, row.from, kind, i);
    }
  }

  /** In the whole run an order leaves each status at most once. */
  lemma EachStatusLeftOnce(start: map<OrderId, Order>, ops: seq<Op>, id: OrderId, i: nat, j: nat)
    requires id in start
    requires var rows := RowsOf(Run(Init(start), ops).tables.history, id); i < j < |rows|
    ensures var rows := RowsOf(Run(Init(start), ops).tables.history, id); rows[i].from != rows[j].from
  {
    HistoryIsAPath(start, ops, id);
    var s := Run(Init(start), ops);
    PathLeavesOnce(RowsOf(s.tables.history, id), start[id].status, s.tables.orders[id].status, start[id].kind, i, j);
  }

  /** Between two states of a run: rows only accumulate, and exactly as the status climbs. */
  ghost predicate Advances(t: Tables, t': Tables, id: OrderId)
    requires id in t.orders && id in t'.orders
  {
    && |RowsOf(t.history, id)| <= |RowsOf(t'.history, id)|
    && Rank(t.orders[id].status) <= Rank(t'.orders[id].status)
    && (|RowsOf(t.history, id)| == |RowsOf(t'.history, id)| <==> t.orders[id].status == t'.orders[id].status)
    && (Rank(t.orders[id].status) == Rank(t'.orders[id].status) ==> t.orders[id].status == t'.orders[id].status)
  }

  lemma WriteAdvances(start: map<OrderId, Order>, t: Tables, c: Change, id: OrderId)
    requires TablesSound(start, t) && LegalChange(start, c) && id in start
    ensures Advances(t, Write(t, c), id)
  {
    if Guard(t, c) {
      WriteAppends(t, c, id);
      LegalClimbs(c.from, c.to, start[c.order].kind);
    }
  }

  lemma {:induction false} RunAdvances(start: map<OrderId, Order>, s: State, ops: seq<Op>, id: OrderId)
    requires Inv(start, s) && id in start
    ensures Inv(start, Run(s, ops)) && Advances(s.tables, Run(s, ops).tables, id)
    decreases |ops|
  {
    if ops != [] {
      var t := Step(s, ops[0]).state;
      StepKeeps(start, s, ops[0]);
      if ops[0].Apply? && ops[0].who in s.pending {
        WriteAdvances(start, s.tables, s.pending[ops[0].who], id);
      }
      RunAdvances(start, t, ops[1..], id);
    }
  }

  /**
   Of two operators who read the same status of one order, once the first has written, the second
   is refused whenever it gets to write, whatever happens in between, and its refusal changes no row.
   */
  lemma OneWinnerPerStatus(start: map<OrderId, Order>, before: seq<Op>, winner: Operator, loser: Operator, between: seq<Op>)
    requires var s := Run(Init(start), before);
      && winner in s.pending && loser in s.pending && winner != loser
      && s.pending[winner].order == s.pending[loser].order
      && s.pending[winner].from == s.pending[loser].from
      && Step(s, Apply(winner)).out == Written
    requires var s := Run(Init(start), before);
      var t := Run(Step(s, Apply(winner)).state, between);
      loser in t.pending && t.pending[loser] == s.pending[loser]
    ensures var t := Run(Step(Run(Init(start), before), Apply(winner)).state, between);
      && Step(t, Apply(loser)).out == Rejected(Moved)
      && Step(t, Apply(loser)).state.tables == t.tables
  {
    var s := Run(Init(start), before);
    RunKeeps(start, Init(start), before);
    var c := s.pending[winner];
    LegalClimbs(c.from, c.to, start[c.order].kind);
    StepKeeps(start, s, Apply(winner));
    RunAdvances(start, Step(s, Apply(winner)).state, between, c.order);
  }

  /** What a read leaves its operator with. */
  lemma PendingFromRead(s: State, read: Op)
    requires read.Read? && Step(s, read).out == Pending
    ensures var t := Step(s, read).state;
      && t.tables == s.tables && read.who in t.pending && read.id in s.tables.orders
      && t.pending[read.who].order == read.id && t.pending[read.who].from == s.tables.orders[read.id].status
  {}

  /** An operator's write lands exactly when nobody has moved the order since it was read. */
  lemma WriteLandsIffUnmoved(start: map<OrderId, Order>, before: seq<Op>, read: Op, between: seq<Op>)
    requires read.Read? && Step(Run(Init(start), before), read).out == Pending
    requires var s := Step(Run(Init(start), before), read).state;
      var t := Run(s, between);
      read.who in t.pending && t.pending[read.who] == s.pending[read.who]
    ensures var s := Step(Run(Init(start), before), read).state;
      var t := Run(s, between);
      Step(t, Apply(read.who)).out == Written <==>
      |RowsOf(t.tables.history, read.id)| == |RowsOf(s.tables.history, read.id)|
  {
    var r := Run(Init(start), before);
    RunKeeps(start, Init(start), before);
    StepKeeps(start, r, read);
    PendingFromRead(r, read);
    RunAdvances(start, Step(r, read).state, between, read.id);
  }

  // --- whole lives -------------------------------------------------------------------------

  function Longest(kind: OrderType): nat {
    if kind == Delivery then 9 else 5
  }

  predicate CourierState(s: Status) {
    s in [SearchingDriver, DriverAssigned, OnTheWay, Delivered]
  }

  function Depth(s: Status, kind: OrderType): nat {
    if kind == TakeAway && s in [Completed, Canceled, StoreRejected] then 5 else Rank(s)
  }

  predicate Visits(rows: seq<Row>, s: Status) {
    exists i :: 0 <= i < |rows| && rows[i].to == s
  }

  lemma LegalDeepens(current: Status, next: Status, kind: OrderType)
    requires Legal(current, next, kind) && (kind == TakeAway ==> !CourierState(current))
    ensures Depth(current, kind) < Depth(next, kind) <= Longest(kind)
    ensures kind == TakeAway ==> !CourierState(next)
  {}

  lemma {:induction false} DraftPath(rows: seq<Row>, last: Status, kind: OrderType)
    requires Path(rows, Draft, last, kind)
    ensures |rows| <= Depth(last, kind) <= Longest(kind)
    ensures kind == TakeAway ==> !CourierState(last) && forall i :: 0 <= i < |rows| ==> !CourierState(rows[i].to)
  {
    if rows != [] {
      var row := rows[|rows| - 1];
      DraftPath(rows[..|rows| - 1], row.from, kind);
      LegalDeepens(row.from, row.to, kind);
    }
  }

  /** The statuses every path from a draft to `s` goes through. */
  predicate MustVisit(s: Status, kind: OrderType, via: Status) {
    match via
    case Paid => CountsAsRevenue(s) || s == StoreRejected
    case OnTheWay => s == OnTheWay || s == Delivered || (s == Completed && kind == Delivery)
    case Delivered => s == Delivered || (s == Completed && kind == Delivery)
    case _ => false
  }

  lemma MustVisitEarlier(current: Status, next: Status, kind: OrderType, via: Status)
    requires Legal(current, next, kind) && MustVisit(next, kind, via) && next != via
    ensures MustVisit(current, kind, via)
  {}

  lemma {:induction false} DraftPathVisits(rows: seq<Row>, last: Status, kind: OrderType, via: Status)
    requires Path(rows, Draft, last, kind) && MustVisit(last, kind, via)
    ensures Visits(rows, via)
  {
    if rows == [] {
      assert false;
    } else {
      var row := rows[|rows| - 1];
      if row.to != via {
        MustVisitEarlier(row.from, row.to, kind, via);
        DraftPathVisits(rows[..|rows| - 1], row.from, kind, via);
        var i :| 0 <= i < |rows[..|rows| - 1]| && rows[..|rows| - 1][i].to == via;
        assert rows[i].to == via;
      }
    }
  }

  /** At most nine transitions for a delivery, five for a take-away, which never enters a courier state. */
  lemma LifeIsBounded(start: map<OrderId, Order>, ops: seq<Op>, id: OrderId)
    requires id in start && start[id].status == Draft
    ensures var rows := RowsOf(Run(Init(start), ops).tables.history, id);
      && |rows| <= Longest(start[id].kind)
      && (start[id].kind == TakeAway ==> forall i :: 0 <= i < |rows| ==> !CourierState(rows[i].to))
  {
    HistoryIsAPath(start, ops, id);
    var s := Run(Init(start), ops);
    DraftPath(RowsOf(s.tables.history, id), s.tables.orders[id].status, start[id].kind);
  }

  function Journey(kind: OrderType): seq<Status> {
    [WaitingPayment, Paid, WaitingStore, StoreAccepted] +
    (if kind == TakeAway then [Completed] else [SearchingDriver, DriverAssigned, OnTheWay, Delivered, Completed])
  }

  /** One operator advancing the order through each status in turn. */
  function Walk(id: OrderId, path: seq<Status>): seq<Op> {
    if path == [] then [] else [Read(0, None, id, Some(path[0]), ""), Apply(0)] + Walk(id, path[1..])
  }

  predicate LegalWalk(current: Status, path: seq<Status>, kind: OrderType)
    decreases |path|
  {
    path == [] ||
    (path[0] != current && !ReasonRequired(path[0]) && Legal(current, path[0], kind) && LegalWalk(path[0], path[1..], kind))
  }

  /** Read, then write, with nobody in between. */
  lemma Advance(s: State, id: OrderId, next: Status)
    requires s.pending == map[] && id in s.tables.orders
    requires var o := s.tables.orders[id]; next != o.status && !ReasonRequired(next) && Legal(o.status, next, o.kind)
    ensures var o := s.tables.orders[id];
      Step(Step(s, Read(0, None, id, Some(next), "")).state, Apply(0)).state ==
      State(Write(s.tables, Change(id, o.status, next, "", 0)), map[])
  {}

  lemma {:induction false} WalkArrives(s: State, id: OrderId, path: seq<Status>)
    requires s.pending == map[] && id in s.tables.orders
    requires LegalWalk(s.tables.orders[id].status, path, s.tables.orders[id].kind)
    ensures |RowsOf(Run(s, Walk(id, path)).tables.history, id)| == |RowsOf(s.tables.history, id)| + |path|
    decreases |path|
  {
    if path != [] {
      Advance(s, id, path[0]);
      var ops := Walk(id, path);
      var r := Step(s, ops[0]).state;
      var t := Step(r, ops[1]).state;
      assert ops[1..][1..] == Walk(id, path[1..]);
      assert Run(s, ops) == Run(r, ops[1..]) == Run(t, Walk(id, path[1..]));
      assert t.tables.history[..|s.tables.history|] == s.tables.history;
      WalkArrives(t, id, path[1..]);
    }
  }

  /** Both bounds are reached by an order that goes all the way. */
  lemma LongestLifeIsReached(start: map<OrderId, Order>, id: OrderId)
    requires id in start && start[id].status == Draft
    ensures |RowsOf(Run(Init(start), Walk(id, Journey(start[id].kind))).tables.history, id)| == Longest(start[id].kind)
  {
    JourneyIsLegal(start[id].kind);
    WalkArrives(Init(start), id, Journey(start[id].kind));
  }

  lemma JourneyIsLegal(kind: OrderType)
    ensures LegalWalk(Draft, Journey(kind), kind) && |Journey(kind)| == Longest(kind)
  {
    var j := Journey(kind);
    LastLeg(kind);
    assert j[4..] == Journey(kind)[4..];
    assert LegalWalk(WaitingStore, j[3..], kind) by { assert j[3..][1..] == j[4..]; }
    assert LegalWalk(Paid, j[2..], kind) by { assert j[2..][1..] == j[3..]; }
    assert LegalWalk(WaitingPayment, j[1..], kind) by { assert j[1..][1..] == j[2..]; }
  }

  lemma LastLeg(kind: OrderType)
    ensures LegalWalk(StoreAccepted, Journey(kind)[4..], kind)
  {
    var j := Journey(kind);
    if kind == Delivery {
      assert LegalWalk(Delivered, j[8..], kind) by { assert j[8..][1..] == []; }
      assert LegalWalk(OnTheWay, j[7..], kind) by { assert j[7..][1..] == j[8..]; }
      assert LegalWalk(DriverAssigned, j[6..], kind) by { assert j[6..][1..] == j[7..]; }
      assert LegalWalk(SearchingDriver, j[5..], kind) by { assert j[5..][1..] == j[6..]; }
      assert j[4..][1..] == j[5..];
    } else {
      assert j[4..][1..] == [];
    }
  }

  /** A completed delivery really was on the way and delivered. */
  lemma CompletedDeliveryWasDelivered(start: map<OrderId, Order>, ops: seq<Op>, id: OrderId)
    requires id in start && start[id].status == Draft && start[id].kind == Delivery
    requires id in Run(Init(start), ops).tables.orders && Run(Init(start), ops).tables.orders[id].status == Completed
    ensures var rows := RowsOf(Run(Init(start), ops).tables.history, id); Visits(rows, OnTheWay) && Visits(rows, Delivered)
  {
    HistoryIsAPath(start, ops, id);
    var rows := RowsOf(Run(Init(start), ops).tables.history, id);
    DraftPathVisits(rows, Completed, Delivery, OnTheWay);
    DraftPathVisits(rows, Completed, Delivery, Delivered);
  }

  /** An order counts as revenue exactly when it has been paid for and the sale has not been reversed. */
  lemma RevenueIffPaidAndKept(start: map<OrderId, Order>, ops: seq<Op>, id: OrderId)
    requires id in start && start[id].status == Draft
    ensures var s := Run(Init(start), ops);
      && id in s.tables.orders
      && (CountsAsRevenue(s.tables.orders[id].status) <==>
          Visits(RowsOf(s.tables.history, id), Paid) &&
          s.tables.orders[id].status != Canceled && s.tables.orders[id].status != StoreRejected)
  {
    HistoryIsAPath(start, ops, id);
    var s := Run(Init(start), ops);
    var rows, last := RowsOf(s.tables.history, id), s.tables.orders[id].status;
    if CountsAsRevenue(last) {
      DraftPathVisits(rows, last, start[id].kind, Paid);
    }
    if Visits(rows, Paid) {
      var i :| 0 <= i < |rows| && rows[i].to == Paid;
      PathClimbs(rows, Draft, last, start[id].kind, i);
    }
  }

  /** Nobody can reach a status the screen does not offer, and every status it offers can be reached. */
  lemma ScreenMatchesValidator(t: Tables, actor: Operator, scope: Scope, id: OrderId, target: Status, reason: string)
    requires id in t.orders && InScope(scope, t.orders[id].shop)
    requires Text.TrimSpace(reason) != "" && |Text.TrimSpace(reason)| <= MAX_REASON_RUNES
    ensures Check(t, actor, scope, id, Some(target), reason).Valid? <==>
            target in NextOf(t.orders[id].status, t.orders[id].kind)
  {
    var o := t.orders[id];
    FilterKeeps(Transitions(o.status), next => AllowedFor(o.status, next, o.kind), target);
  }
}
