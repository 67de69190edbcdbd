/** The permission catalogue and the grants of each role. */
module PermissionModel {
  import opened Faults
  import opened Text

  type Code = string
  type RoleId = nat

  const CATALOGUE: seq<Code> := [
    "type_product.read", "type_product.write", "product.read", "product.write",
    "shop.read", "shop.write", "shop_product.read", "shop_product.write", "cashier.read", "cashier.write",
    "order.read", "order.write",
    "banner.read", "banner.write", "event.read", "event.write", "voucher.read", "voucher.write",
    "report_transaction.read", "report_financial.read",
    "user.read", "user.write",
    "role.read", "role.write", "notification.read", "notification.write"]

  // --- normalising a submitted list --------------------------------------------------------

  /** What was submitted, trimmed, without the empty entries. */
  function Cleaned(codes: seq<string>): seq<Code> {
    if codes == [] then []
    else
      var code := TrimSpace(codes[|codes| - 1]);
      Cleaned(codes[..|codes| - 1]) + if code == "" then [] else [code]
  }

  /** The codes of `from` that satisfy membership in `keep`, in the order of `from`. */
  function Among(from: seq<Code>, keep: set<Code>): seq<Code> {
    if from == [] then []
    else Among(from[..|from| - 1], keep) + if from[|from| - 1] in keep then [from[|from| - 1]] else []
  }

  function NotAmong(from: seq<Code>, known: set<Code>): seq<Code> {
    if from == [] then []
    else NotAmong(from[..|from| - 1], known) + if from[|from| - 1] in known then [] else [from[|from| - 1]]
  }

  function Members(codes: seq<Code>): set<Code> {
    set c | c in codes
  }

  datatype Normalised = Codes(codes: seq<Code>) | Unknown(unknown: seq<Code>)

  function Normalise(catalogue: seq<Code>, codes: seq<string>): Normalised {
    var submitted := Cleaned(codes);
    var unknown := NotAmong(submitted, Members(catalogue));
    if unknown != [] then Unknown(unknown) else Codes(Among(catalogue, Members(submitted)))
  }

  // --- replacing a role's grants -----------------------------------------------------------

  const SUPER_ADMIN := "superadmin"

  /** Simple case folding of one lower-case letter; the long s folds to s. */
  predicate Folds(c: char, letter: char)
    requires 'a' <= letter <= 'z'
  {
    c == letter || c as int == letter as int - 32 || (letter == 's' && c == '\U{17F}')
  }

  predicate IsLetters(s: string) {
    forall i :: 0 <= i < |s| ==> 'a' <= s[i] <= 'z'
  }

  predicate EqualFold(name: string, letters: string)
    requires IsLetters(letters)
  {
    |name| == |letters| && forall i :: 0 <= i < |letters| ==> Folds(name[i], letters[i])
  }

  predicate IsSuperAdmin(name: string) {
    assert IsLetters(SUPER_ADMIN);
    EqualFold(TrimSpace(name), SUPER_ADMIN)
  }

  /** The root role must keep everything; the code tests only the length. */
  predicate Refuses(catalogue: seq<Code>, name: string, wanted: seq<Code>) {
    IsSuperAdmin(name) && |wanted| != |catalogue|
  }

  /** `table` holds the permissions that exist in the database; only those can be granted. */
  datatype State = State(names: map<RoleId, string>, table: set<Code>, grants: map<RoleId, set<Code>>)

  datatype Answer = Done(codes: seq<Code>) | NotFound | Invalid(unknown: seq<Code>) | Conflict | Failed

  function Granted(s: State, role: RoleId): set<Code> {
    if role in s.grants then s.grants[role] else {}
  }

  /** Clear, then grant exactly the listed codes that exist. */
  function ReplaceForRole(s: State, role: RoleId, codes: seq<Code>): State {
    s.(grants := s.grants[role := Members(codes) * s.table])
  }

  datatype Op = Replace(role: RoleId, codes: seq<string>, fate: Fate)

  function Step(catalogue: seq<Code>, s: State, op: Op): (State, Answer) {
    if op.role !in s.names then (s, NotFound)
    else
      var n := Normalise(catalogue, op.codes);
      if n.Unknown? then (s, Invalid(n.unknown))
      else if Refuses(catalogue, s.names[op.role], n.codes) then (s, Conflict)
      else if op.fate.Fails? then (s, Failed)
      else (ReplaceForRole(s, op.role, n.codes), if op.fate.Works? then Done(n.codes) else Failed)
  }

  function Run(catalogue: seq<Code>, s: State, ops: seq<Op>): State
    decreases |ops|
  {
    if ops == [] then s else Run(catalogue, Step(catalogue, s, ops[0]).0, ops[1..])
  }
}
