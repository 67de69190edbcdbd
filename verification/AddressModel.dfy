/**
 A customer's saved addresses and the one of them that is the default.  Each operation is one
 transaction: it commits whole, or an error rolls all of it back.
 */
module AddressModel {
  import opened Faults
  import opened Options

  type UserId = nat
  type AddressId = nat

  const MAX_ADDRESSES_PER_USER := 50

  datatype Input = Input(name: string, text: string, lat: real, lng: real)
  datatype Patch = Patch(name: Option<string>, text: Option<string>, lat: Option<real>, lng: Option<real>)
  datatype Row = Row(user: UserId, input: Input, isDefault: bool, createdAt: int, updatedAt: int)

  type Rows = map<AddressId, Row>

  datatype Answer = Done | NotFound | TooMany | Failed

  datatype Op =
    | Create(user: UserId, id: AddressId, input: Input, now: int, fate: Fate)
    | Update(user: UserId, id: AddressId, patch: Patch, now: int, fate: Fate)
    | Delete(user: UserId, id: AddressId, now: int, fate: Fate)
    | SetDefault(user: UserId, id: AddressId, now: int, fate: Fate)

  // --- queries -----------------------------------------------------------------------------

  function Owned(rows: Rows, u: UserId): set<AddressId> {
    set id | id in rows && rows[id].user == u
  }

  predicate IsOwned(rows: Rows, u: UserId, id: AddressId) {
    id in rows && rows[id].user == u
  }

  predicate IsDefaultOf(rows: Rows, u: UserId, id: AddressId) {
    IsOwned(rows, u, id) && rows[id].isDefault
  }

  /** `ORDER BY created_at DESC`, ties by primary key. */
  predicate Precedes(rows: Rows, a: AddressId, b: AddressId)
    requires a in rows && b in rows
  {
    rows[a].createdAt > rows[b].createdAt || (rows[a].createdAt == rows[b].createdAt && a <= b)
  }

  predicate IsNewest(rows: Rows, ids: set<AddressId>, id: AddressId)
    requires forall i :: i in ids ==> i in rows
  {
    id in ids && forall other :: other in ids ==> Precedes(rows, id, other)
  }

  lemma {:induction false} NewestExists(rows: Rows, ids: set<AddressId>)
    requires ids != {} && forall i :: i in ids ==> i in rows
    ensures exists id :: IsNewest(rows, ids, id)
    decreases |ids|
  {
    var some :| some in ids;
    if ids == {some} {
      assert IsNewest(rows, ids, some);
    } else {
      var rest := ids - {some};
      assert ids == {some} + rest;
      NewestExists(rows, rest);
      var id :| IsNewest(rows, rest, id);
      assert forall o :: o in ids ==> o == some || o in rest;
      assert IsNewest(rows, ids, if Precedes(rows, some, id) then some else id);
    }
  }

  lemma NewestIsUnique(rows: Rows, ids: set<AddressId>)
    requires forall i :: i in ids ==> i in rows
    ensures forall a, b :: IsNewest(rows, ids, a) && IsNewest(rows, ids, b) ==> a == b
  {}

  /** The most recent of these rows. */
  function Newest(rows: Rows, ids: set<AddressId>): (id: AddressId)
    requires ids != {} && forall i :: i in ids ==> i in rows
    ensures IsNewest(rows, ids, id)
  {
    NewestExists(rows, ids);
    NewestIsUnique(rows, ids);
    var id :| id in ids && IsNewest(rows, ids, id);
    id
  }

  function Defaults(rows: Rows, u: UserId): set<AddressId> {
    set id | id in rows && IsDefaultOf(rows, u, id)
  }

  /** What checkout preselects. */
  function FindDefault(rows: Rows, u: UserId): Option<AddressId> {
    if Defaults(rows, u) == {} then None else Some(Newest(rows, Defaults(rows, u)))
  }

  // --- writes ------------------------------------------------------------------------------

  function Apply(patch: Patch, current: Input): Input {
    Input(if patch.name.Some? then patch.name.value else current.name,
          if patch.text.Some? then patch.text.value else current.text,
          if patch.lat.Some? then patch.lat.value else current.lat,
          if patch.lng.Some? then patch.lng.value else current.lng)
  }

  function Demoted(row: Row, now: int): Row {
    row.(isDefault := false, updatedAt := now)
  }

  /** Clear the user's flag wherever it stands. */
  function Demote(rows: Rows, u: UserId, now: int): Rows {
    map id | id in rows :: if IsDefaultOf(rows, u, id) then Demoted(rows[id], now) else rows[id]
  }

  function Promote(rows: Rows, id: AddressId, now: int): Rows
    requires id in rows
  {
    rows[id := rows[id].(isDefault := true, updatedAt := now)]
  }

  function Inserted(rows: Rows, u: UserId, id: AddressId, input: Input, now: int): Rows {
    rows[id := Row(u, input, Owned(rows, u) == {}, now, now)]
  }

  /** Without the row; if it was the default, the newest survivor is promoted. */
  function Removed(rows: Rows, u: UserId, id: AddressId, now: int): Rows
    requires IsOwned(rows, u, id)
  {
    var left := rows - {id};
    if !rows[id].isDefault || Owned(left, u) == {} then left else Promote(left, Newest(left, Owned(left, u)), now)
  }

  /** What the operation would write, or why it refuses. */
  function Attempt(rows: Rows, op: Op): (Rows, Answer) {
    match op
    case Create(u, id, input, now, _) =>
      if |Owned(rows, u)| >= MAX_ADDRESSES_PER_USER then (rows, TooMany)
      else if id in rows then (rows, Failed)
      else (Inserted(rows, u, id, input, now), Done)
    case Update(u, id, patch, now, _) =>
      if !IsOwned(rows, u, id) then (rows, NotFound)
      else (rows[id := rows[id].(input := Apply(patch, rows[id].input), updatedAt := now)], Done)
    case Delete(u, id, now, _) =>
      if !IsOwned(rows, u, id) then (rows, NotFound) else (Removed(rows, u, id, now), Done)
    case SetDefault(u, id, now, _) =>
      if !IsOwned(rows, u, id) then (rows, NotFound) else (Promote(Demote(rows, u, now), id, now), Done)
  }

  /** The transaction: an error in it, or a refusal, rolls everything back. */
  function Step(rows: Rows, op: Op): (Rows, Answer) {
    if op.fate.Fails? then (rows, Failed)
    else
      var (written, answer) := Attempt(rows, op);
      (written, if op.fate.Lost? && answer == Done then Failed else answer)
  }

  function Run(rows: Rows, ops: seq<Op>): Rows
    decreases |ops|
  {
    if ops == [] then rows else Run(Step(rows, ops[0]).0, ops[1..])
  }
}
