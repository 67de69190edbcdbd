/** The permission service and its repository, with the grants as a field. */
module PermissionService {
  import opened Faults
  import opened Text
  import opened PermissionModel

  lemma MembersOneMore(codes: seq<Code>, code: Code)
    ensures Members(codes + [code]) == Members(codes) + {code}
  {}

  /** The catalogue as a set. */
  method KnownCodes(catalogue: seq<Code>) returns (known: set<Code>)
    ensures known == Members(catalogue)
  {
    known := {};
    for i := 0 to |catalogue|
      invariant known == Members(catalogue[..i])
    {
      assert catalogue[..i + 1] == catalogue[..i] + [catalogue[i]];
      MembersOneMore(catalogue[..i], catalogue[i]);
      known := known + {catalogue[i]};
    }
    assert catalogue[..|catalogue|] == catalogue;
  }

  /** What is known among the first submitted codes, and what is not. */
  lemma SortedOut(submitted: seq<Code>, code: Code, known: set<Code>)
    ensures Members(submitted + [code]) * known == Members(submitted) * known + (if code in known then {code} else {})
    ensures NotAmong(submitted + [code], known) == NotAmong(submitted, known) + if code in known then [] else [code]
  {}

  method NormaliseCodes(catalogue: seq<Code>, codes: seq<string>) returns (n: Normalised)
    ensures n == Normalise(catalogue, codes)
  {
    var known := KnownCodes(catalogue);
    var seen, unknown: seq<Code> := {}, [];
    for i := 0 to |codes|
      invariant seen == Members(Cleaned(codes[..i])) * known
      invariant unknown == NotAmong(Cleaned(codes[..i]), known)
    {
      assert codes[..i + 1][..i] == codes[..i];
      var code := TrimSpace(codes[i]);
      if code == "" {
        assert Cleaned(codes[..i + 1]) == Cleaned(codes[..i]);
        continue;
      }
      assert Cleaned(codes[..i + 1]) == Cleaned(codes[..i]) + [code];
      SortedOut(Cleaned(codes[..i]), code, known);
      if code !in known {
        unknown := unknown + [code];
        continue;
      }
      seen := seen + {code};
    }
    assert codes[..|codes|] == codes;
    if |unknown| > 0 {
      return Unknown(unknown);
    }
    var picked := InCatalogueOrder(catalogue, seen);
    AmongKnown(catalogue, Members(Cleaned(codes)), known);
    n := Codes(picked);
  }

  lemma {:induction false} AmongKnown(from: seq<Code>, keep: set<Code>, known: set<Code>)
    requires Members(from) <= known
    ensures Among(from, keep * known) == Among(from, keep)
  {
    if from != [] {
      assert from[|from| - 1] in Members(from);
      assert forall c :: c in from[..|from| - 1] ==> c in Members(from);
      AmongKnown(from[..|from| - 1], keep, known);
    }
  }

  method InCatalogueOrder(catalogue: seq<Code>, seen: set<Code>) returns (picked: seq<Code>)
    ensures picked == Among(catalogue, seen)
  {
    picked := [];
    for i := 0 to |catalogue|
      invariant picked == Among(catalogue[..i], seen)
    {
      assert catalogue[..i + 1][..i] == catalogue[..i];
      if catalogue[i] in seen {
        picked := picked + [catalogue[i]];
      }
    }
    assert catalogue[..|catalogue|] == catalogue;
  }

  class Permissions {
    const catalogue: seq<Code>
    var names: map<RoleId, string>
    var table: set<Code>
    var grants: map<RoleId, set<Code>>

    constructor (catalogue: seq<Code>, state: State)
      ensures this.catalogue == catalogue && Current() == state
    {
      this.catalogue := catalogue;
      names, table, grants := state.names, state.table, state.grants;
    }

    ghost function Current(): State
      reads this
    {
      State(names, table, grants)
    }

    /** Clear the role's rows, then insert one for each listed code the table knows. */
    method ReplaceForRole(role: RoleId, codes: seq<Code>)
      modifies `grants
      ensures Current() == PermissionModel.ReplaceForRole(old(Current()), role, codes)
    {
      grants := grants[role := {}];
      if |codes| == 0 {
        assert Members(codes) * table == {};
        return;
      }
      grants := grants[role := set c | c in table && c in codes];
      assert grants[role] == Members(codes) * table;
    }

    method Replace(role: RoleId, codes: seq<string>, fate: Fate) returns (answer: Answer)
      modifies this
      ensures (Current(), answer) == Step(catalogue, old(Current()), Op.Replace(role, codes, fate))
    {
      if role !in names {
        return NotFound;
      }
      var wanted := NormaliseCodes(catalogue, codes);
      if wanted.Unknown? {
        return Invalid(wanted.unknown);
      }
      if IsSuperAdmin(names[role]) && |wanted.codes| != |catalogue| {
        return Conflict;
      }
      if fate.Fails? {
        return Failed;
      }
      ReplaceForRole(role, wanted.codes);
      answer := if fate.Works? then Done(wanted.codes) else Failed;
    }
  }
}
