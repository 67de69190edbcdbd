/** What every run of address operations keeps. */
module AddressTheorems {
  import opened Faults
  import opened AddressModel

  ghost predicate OneDefault(rows: Rows, u: UserId) {
    exists id :: Defaults(rows, u) == {id}
  }

  /** Exactly one default for a customer with any address, none for one without, and never too many addresses. */
  ghost predicate Kept(rows: Rows, u: UserId) {
    && |Owned(rows, u)| <= MAX_ADDRESSES_PER_USER
    && (if Owned(rows, u) == {} then Defaults(rows, u) == {} else OneDefault(rows, u))
  }

  // --- other customers ---------------------------------------------------------------------

  function Of(rows: Rows, u: UserId): Rows {
    map id | id in rows && rows[id].user == u :: rows[id]
  }

  lemma OwnRowsDecide(rows: Rows, rows': Rows, u: UserId)
    requires Of(rows, u) == Of(rows', u)
    ensures Owned(rows, u) == Owned(rows', u) && Defaults(rows, u) == Defaults(rows', u)
    ensures Kept(rows, u) == Kept(rows', u)
  {
    forall id
      ensures IsOwned(rows, u, id) <==> IsOwned(rows', u, id)
      ensures IsOwned(rows, u, id) ==> rows[id] == rows'[id]
    {
      assert IsOwned(rows, u, id) <==> id in Of(rows, u);
      assert IsOwned(rows', u, id) <==> id in Of(rows', u);
    }
    assert Owned(rows, u) == Owned(rows', u);
    assert Defaults(rows, u) == Defaults(rows', u);
  }

  /** No operation touches a row of anybody but its own caller. */
  lemma OthersUntouched(rows: Rows, op: Op, u: UserId)
    requires u != op.user
    ensures Of(Step(rows, op).0, u) == Of(rows, u)
  {}

  lemma {:induction false} OthersUntouchedForever(rows: Rows, ops: seq<Op>, u: UserId)
    requires forall i :: 0 <= i < |ops| ==> ops[i].user != u
    ensures Of(Run(rows, ops), u) == Of(rows, u)
    decreases |ops|
  {
    if ops != [] {
      OthersUntouched(rows, ops[0], u);
      assert forall i :: 0 <= i < |ops[1..]| ==> ops[1..][i] == ops[i + 1];
      OthersUntouchedForever(Step(rows, ops[0]).0, ops[1..], u);
    }
  }

  // --- the caller's own rows ---------------------------------------------------------------

  lemma CreateKeeps(rows: Rows, u: UserId, id: AddressId, input: Input, now: int)
    requires Kept(rows, u) && id !in rows && |Owned(rows, u)| < MAX_ADDRESSES_PER_USER
    ensures Kept(Inserted(rows, u, id, input, now), u)
  {
    var after := Inserted(rows, u, id, input, now);
    assert Owned(after, u) == Owned(rows, u) + {id};
    assert Defaults(after, u) == if Owned(rows, u) == {} then {id} else Defaults(rows, u);
  }

  lemma UpdateKeeps(rows: Rows, u: UserId, id: AddressId, input: Input, now: int)
    requires Kept(rows, u) && IsOwned(rows, u, id)
    ensures Kept(rows[id := rows[id].(input := input, updatedAt := now)], u)
  {
    var after := rows[id := rows[id].(input := input, updatedAt := now)];
    assert Owned(after, u) == Owned(rows, u) && Defaults(after, u) == Defaults(rows, u);
  }

  lemma DeleteKeeps(rows: Rows, u: UserId, id: AddressId, now: int)
    requires Kept(rows, u) && IsOwned(rows, u, id)
    ensures Kept(Removed(rows, u, id, now), u)
  {
    var left, after := rows - {id}, Removed(rows, u, id, now);
    assert Owned(left, u) == Owned(rows, u) - {id};
    assert id in Owned(rows, u);
    var d :| Defaults(rows, u) == {d};
    assert d in Defaults(rows, u);
    if rows[id].isDefault {
      assert id in Defaults(rows, u);
      assert Defaults(left, u) == {};
      if Owned(left, u) != {} {
        var next := Newest(left, Owned(left, u));
        assert Owned(after, u) == Owned(left, u);
        assert Defaults(after, u) == {next};
      }
    } else {
      assert Defaults(left, u) == {d} && d in Owned(left, u);
    }
  }

  /** Promoting an address leaves it as the only default, whatever flags were set before. */
  lemma SetDefaultHeals(rows: Rows, u: UserId, id: AddressId, now: int)
    requires IsOwned(rows, u, id)
    ensures var after := Step(rows, SetDefault(u, id, now, Works)).0;
      Defaults(after, u) == {id} && Owned(after, u) == Owned(rows, u)
  {}

  lemma StepKeeps(rows: Rows, op: Op, u: UserId)
    requires Kept(rows, u)
    ensures Kept(Step(rows, op).0, u)
  {
    if u != op.user {
      OthersUntouched(rows, op, u);
      OwnRowsDecide(rows, Step(rows, op).0, u);
    } else if !op.fate.Fails? {
      match op
      case Create(_, id, input, now, _) =>
        if |Owned(rows, u)| < MAX_ADDRESSES_PER_USER && id !in rows { CreateKeeps(rows, u, id, input, now); }
      case Update(_, id, patch, now, _) =>
        if IsOwned(rows, u, id) { UpdateKeeps(rows, u, id, Apply(patch, rows[id].input), now); }
      case Delete(_, id, now, _) =>
        if IsOwned(rows, u, id) { DeleteKeeps(rows, u, id, now); }
      case SetDefault(_, id, now, _) =>
        if IsOwned(rows, u, id) {
          SetDefaultHeals(rows, u, id, now);
          assert id in Owned(rows, u);
        }
    }
  }

  lemma {:induction false} RunKeeps(rows: Rows, ops: seq<Op>, u: UserId)
    requires Kept(rows, u)
    ensures Kept(Run(rows, ops), u)
    decreases |ops|
  {
    if ops != [] {
      StepKeeps(rows, ops[0], u);
      RunKeeps(Step(rows, ops[0]).0, ops[1..], u);
    }
  }

  // --- theorems ----------------------------------------------------------------------------

  /**
   However customers create, edit, delete and promote, and whatever fails: each has exactly one
   default if they have any address and none otherwise, and never more than fifty.
   */
  lemma ExactlyOneDefault(ops: seq<Op>, u: UserId)
    ensures var rows := Run(map[], ops);
      && |Owned(rows, u)| <= 50
      && |Defaults(rows, u)| == if Owned(rows, u) == {} then 0 else 1
  {
    assert Owned(map[], u) == {} && Defaults(map[], u) == {};
    RunKeeps(map[], ops, u);
  }

  /** Checkout finds an address exactly when the customer has one, and it is the flagged one. */
  lemma CheckoutFindsTheDefault(ops: seq<Op>, u: UserId)
    ensures var rows := Run(map[], ops);
      && (FindDefault(rows, u).Some? <==> Owned(rows, u) != {})
      && (FindDefault(rows, u).Some? ==> Defaults(rows, u) == {FindDefault(rows, u).value})
  {
    var rows := Run(map[], ops);
    assert Owned(map[], u) == {} && Defaults(map[], u) == {};
    RunKeeps(map[], ops, u);
    if Owned(rows, u) != {} {
      var d :| Defaults(rows, u) == {d};
      assert d in Defaults(rows, u);
      assert Newest(rows, Defaults(rows, u)) in Defaults(rows, u);
    }
  }

  /** A set-default answers not-found exactly when the id is not the caller's, and then nothing at all changes. */
  lemma ForeignSetDefaultChangesNothing(rows: Rows, u: UserId, id: AddressId, now: int, fate: Fate)
    requires !fate.Fails?
    ensures Step(rows, SetDefault(u, id, now, fate)).1 == NotFound <==> !IsOwned(rows, u, id)
    ensures !IsOwned(rows, u, id) ==> Step(rows, SetDefault(u, id, now, fate)).0 == rows
  {}

  /** Deleting the default hands the flag to the most recent survivor, and to no other. */
  lemma NewestSurvivorInherits(rows: Rows, u: UserId, id: AddressId, now: int, other: AddressId)
    requires Kept(rows, u) && IsDefaultOf(rows, u, id) && other != id && IsOwned(rows, u, other)
    ensures var after := Step(rows, Delete(u, id, now, Works)).0;
      && FindDefault(after, u).Some?
      && rows[FindDefault(after, u).value].createdAt >= rows[other].createdAt
  {
    var left, after := rows - {id}, Removed(rows, u, id, now);
    assert other in Owned(left, u);
    var next := Newest(left, Owned(left, u));
    var d :| Defaults(rows, u) == {d};
    assert id in Defaults(rows, u);
    assert Defaults(after, u) == {next};
    assert Newest(after, Defaults(after, u)) in {next};
  }

  /** Making an address the default and then deleting another one leaves the choice alone. */
  lemma ChoiceSurvives(rows: Rows, u: UserId, id: AddressId, other: AddressId, now: int, later: int)
    requires IsOwned(rows, u, id) && IsOwned(rows, u, other) && id != other
    ensures var chosen := Step(rows, SetDefault(u, id, now, Works)).0;
      Defaults(Step(chosen, Delete(u, other, later, Works)).0, u) == {id}
  {}
}
