/** The order service and its repository, with their tables as fields. */
module OrderService {
  import opened Options
  import opened OrderModel
  import opened Text

  /** The buttons the screen renders: the graph's candidates, filtered by order type, in graph order. */
  method NextStatuses(current: Status, kind: OrderType) returns (allowed: seq<Status>)
    ensures allowed == NextOf(current, kind)
  {
    var candidates := Transitions(current);
    var keep := next => AllowedFor(current, next, kind);
    allowed := [];
    for i := 0 to |candidates|
      invariant allowed == Filter(candidates[..i], keep)
    {
      assert candidates[..i + 1][..i] == candidates[..i];
      if AllowedFor(current, candidates[i], kind) {
        allowed := allowed + [candidates[i]];
      }
    }
    assert candidates[..|candidates|] == candidates;
  }

  /** The validator's own scan of the same graph. */
  method CanTransition(current: Status, next: Status, kind: OrderType) returns (yes: bool)
    ensures yes <==> Legal(current, next, kind)
  {
    var candidates := Transitions(current);
    for i := 0 to |candidates|
      invariant next !in candidates[..i]
    {
      if candidates[i] == next {
        return AllowedFor(current, next, kind);
      }
    }
    assert candidates[..|candidates|] == candidates;
    yes := false;
  }

  /** The offered statuses that will ask for a reason. */
  method ReasonRequiredFor(offered: seq<Status>) returns (demanding: seq<Status>)
    ensures demanding == Filter(offered, ReasonRequired)
  {
    demanding := [];
    for i := 0 to |offered|
      invariant demanding == Filter(offered[..i], ReasonRequired)
    {
      assert offered[..i + 1][..i] == offered[..i];
      if ReasonRequired(offered[i]) {
        demanding := demanding + [offered[i]];
      }
    }
    assert offered[..|offered|] == offered;
  }

  class Orders {
    var orders: map<OrderId, Order>
    var history: seq<Row>

    constructor (orders: map<OrderId, Order>)
      ensures Current() == Tables(orders, [])
    {
      this.orders, history := orders, [];
    }

    ghost function Current(): Tables
      reads this
    {
      Tables(orders, history)
    }

    /** Read the order and validate the request against it. */
    method Prepare(actor: Operator, scope: Scope, id: OrderId, target: Option<Status>, rawReason: string) returns (v: Verdict)
      ensures v == Check(Current(), actor, scope, id, target, rawReason)
    {
      if target.None? {
        return Refused(UnknownStatus);
      }
      if id !in orders || !InScope(scope, orders[id].shop) {
        return Refused(NotFound);
      }
      var current := orders[id].status;
      if target.value == current {
        return Refused(AlreadyThere);
      }
      var legal := CanTransition(current, target.value, orders[id].kind);
      if !legal {
        return Refused(Illegal);
      }
      var reason := TrimSpace(rawReason);
      if ReasonRequired(target.value) && reason == "" {
        return Refused(ReasonMissing);
      }
      if |reason| > MAX_REASON_RUNES {
        return Refused(ReasonTooLong);
      }
      v := Valid(Change(id, current, target.value, reason, actor));
    }

    /** The guarded UPDATE and its history row, one transaction. */
    method ApplyStatus(c: Change) returns (found: bool)
      modifies this
      ensures found <==> Guard(old(Current()), c)
      ensures Current() == Write(old(Current()), c)
    {
      found := c.order in orders && orders[c.order].status == c.from;
      if found {
        orders := orders[c.order := orders[c.order].(status := c.to)];
        history := history + [Row(c.order, c.from, c.to, c.reason, c.actor)];
      }
    }

    /** With nobody else in between, a valid request is always written. */
    method ChangeStatus(actor: Operator, scope: Scope, id: OrderId, target: Option<Status>, rawReason: string)
      returns (v: Verdict)
      modifies this
      ensures v == Check(old(Current()), actor, scope, id, target, rawReason)
      ensures v.Refused? ==> Current() == old(Current())
      ensures v.Valid? ==>
        && id in old(orders)
        && orders == old(orders)[id := old(orders)[id].(status := target.value)]
        && history == old(history) + [Row(id, old(orders)[id].status, target.value, TrimSpace(rawReason), actor)]
    {
      v := Prepare(actor, scope, id, target, rawReason);
      if v.Valid? {
        var found := ApplyStatus(v.change);
        if !found {
          v := Refused(Moved);
        }
      }
    }
  }
}
