/** The address repository, statement by statement; an error restores the rows the transaction began with. */
module AddressService {
  import opened Faults
  import opened AddressModel

  /** What the caller is told once the transaction's work is done. */
  function Told(fate: Fate): Answer {
    if fate.Lost? then Failed else Done
  }

  /** Moving the default touches the flag and the time of the change, nothing else. */
  predicate SameButFlag(before: Row, after: Row) {
    after == before.(isDefault := after.isDefault, updatedAt := after.updatedAt)
  }

  class AddressBook {
    var rows: Rows

    constructor ()
      ensures rows == map[]
    {
      rows := map[];
    }

    /** Count and insert in one transaction: the first address saved is the default. */
    method Create(u: UserId, id: AddressId, input: Input, now: int, fate: Fate) returns (answer: Answer)
      modifies this
      ensures (rows, answer) == Step(old(rows), Op.Create(u, id, input, now, fate))
      ensures answer == TooMany <==> !fate.Fails? && |Owned(old(rows), u)| >= 50
      ensures answer == Done <==> fate.Works? && |Owned(old(rows), u)| < 50 && id !in old(rows)
      ensures answer != Done && !fate.Lost? ==> rows == old(rows)
      ensures answer == Done ==>
                && id !in old(rows)
                && rows == old(rows)[id := Row(u, input, forall i :: i in old(rows) ==> old(rows)[i].user != u, now, now)]
    {
      if fate.Fails? {
        return Failed;
      }
      var existing := |Owned(rows, u)|;
      assert existing == 0 <==> Owned(rows, u) == {};
      assert Owned(rows, u) == {} <==> forall i :: i in rows ==> i !in Owned(rows, u);
      if existing >= MAX_ADDRESSES_PER_USER {
        return TooMany;
      }
      if id in rows {
        return Failed;
      }
      rows := rows[id := Row(u, input, existing == 0, now, now)];
      answer := Told(fate);
    }

    /** The stored values with what was sent on top, written to the caller's own row only. */
    method Update(u: UserId, id: AddressId, patch: Patch, now: int, fate: Fate) returns (answer: Answer)
      modifies this
      ensures (rows, answer) == Step(old(rows), Op.Update(u, id, patch, now, fate))
      ensures answer == NotFound <==> !fate.Fails? && !(id in old(rows) && old(rows)[id].user == u)
      ensures answer == Done <==> fate.Works? && id in old(rows) && old(rows)[id].user == u
      ensures answer != Done && !fate.Lost? ==> rows == old(rows)
      ensures answer == Done ==>
                && id in old(rows) && id in rows && old(rows)[id].user == u && rows - {id} == old(rows) - {id}
                && rows[id] == old(rows)[id].(input := rows[id].input, updatedAt := now)
                && rows[id].input.name == (if patch.name.Some? then patch.name.value else old(rows)[id].input.name)
                && rows[id].input.text == (if patch.text.Some? then patch.text.value else old(rows)[id].input.text)
                && rows[id].input.lat == (if patch.lat.Some? then patch.lat.value else old(rows)[id].input.lat)
                && rows[id].input.lng == (if patch.lng.Some? then patch.lng.value else old(rows)[id].input.lng)
    {
      if fate.Fails? {
        return Failed;
      }
      if id !in rows || rows[id].user != u {
        return NotFound;
      }
      var input := rows[id].input;
      if patch.name.Some? {
        input := input.(name := patch.name.value);
      }
      if patch.text.Some? {
        input := input.(text := patch.text.value);
      }
      if patch.lat.Some? {
        input := input.(lat := patch.lat.value);
      }
      if patch.lng.Some? {
        input := input.(lng := patch.lng.value);
      }
      rows := rows[id := rows[id].(input := input, updatedAt := now)];
      answer := Told(fate);
    }

    /** Delete, then promote the newest survivor if the deleted row held the flag. */
    method Delete(u: UserId, id: AddressId, now: int, fate: Fate) returns (answer: Answer)
      modifies this
      ensures (rows, answer) == Step(old(rows), Op.Delete(u, id, now, fate))
      ensures answer == NotFound <==> !fate.Fails? && !(id in old(rows) && old(rows)[id].user == u)
      ensures answer == Done <==> fate.Works? && id in old(rows) && old(rows)[id].user == u
      ensures answer != Done && !fate.Lost? ==> rows == old(rows)
      ensures answer == Done ==> id in old(rows) && old(rows)[id].user == u && rows.Keys == old(rows).Keys - {id}
      ensures answer == Done ==> forall i :: i in rows ==> SameButFlag(old(rows)[i], rows[i])
    {
      if fate.Fails? {
        return Failed;
      }
      if id !in rows || rows[id].user != u {
        return NotFound;
      }
      var deleted := rows[id];
      rows := rows - {id};
      if deleted.isDefault {
        var survivors := Owned(rows, u);
        if survivors != {} {
          NewestExists(rows, survivors);
          NewestIsUnique(rows, survivors);
          var next :| next in survivors && IsNewest(rows, survivors, next);
          rows := rows[next := rows[next].(isDefault := true, updatedAt := now)];
        }
      }
      answer := Told(fate);
    }

    /** Demote first, promote second; a target that is not the caller's rolls the demotion back. */
    method SetDefault(u: UserId, id: AddressId, now: int, fate: Fate) returns (answer: Answer)
      modifies this
      ensures (rows, answer) == Step(old(rows), Op.SetDefault(u, id, now, fate))
      ensures answer == NotFound <==> !fate.Fails? && !(id in old(rows) && old(rows)[id].user == u)
      ensures answer == Done <==> fate.Works? && id in old(rows) && old(rows)[id].user == u
      ensures answer != Done && !fate.Lost? ==> rows == old(rows)
      ensures answer == Done ==>
                && rows.Keys == old(rows).Keys && (forall i :: i in rows ==> SameButFlag(old(rows)[i], rows[i]))
                && (forall i :: i in rows && rows[i].user == u ==> (rows[i].isDefault <==> i == id))
    {
      if fate.Fails? {
        return Failed;
      }
      var begun := rows;
      rows := map i | i in rows :: if IsDefaultOf(rows, u, i) then Demoted(rows[i], now) else rows[i];
      if id !in rows || rows[id].user != u {
        rows := begun;
        return NotFound;
      }
      rows := rows[id := rows[id].(isDefault := true, updatedAt := now)];
      answer := Told(fate);
    }
  }
}
