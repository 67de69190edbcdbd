/** What normalising a list comes to, and what replacing grants keeps. */
module PermissionTheorems {
  import opened Text
  import opened PermissionModel

  predicate NoDuplicates(codes: seq<Code>) {
    forall i, j :: 0 <= i < j < |codes| ==> codes[i] != codes[j]
  }

  /** A code no trimming changes. */
  predicate Tidy(code: Code) {
    code != "" && !IsSpace(code[0]) && !IsSpace(code[|code| - 1])
  }

  predicate AllTidy(codes: seq<Code>) {
    forall i :: 0 <= i < |codes| ==> Tidy(codes[i])
  }

  // --- selections --------------------------------------------------------------------------

  lemma {:induction false} AmongHas(from: seq<Code>, keep: set<Code>, code: Code)
    ensures code in Among(from, keep) <==> code in from && code in keep
  {
    if from != [] {
      AmongHas(from[..|from| - 1], keep, code);
      assert from == from[..|from| - 1] + [from[|from| - 1]];
    }
  }

  lemma {:induction false} NotAmongHas(from: seq<Code>, known: set<Code>, code: Code)
    ensures code in NotAmong(from, known) <==> code in from && code !in known
  {
    if from != [] {
      NotAmongHas(from[..|from| - 1], known, code);
      assert from == from[..|from| - 1] + [from[|from| - 1]];
    }
  }

  ghost predicate Submits(codes: seq<string>, code: Code) {
    exists i :: 0 <= i < |codes| && TrimSpace(codes[i]) == code
  }

  lemma SubmitsSplit(codes: seq<string>, code: Code)
    requires codes != []
    ensures Submits(codes, code) <==> Submits(codes[..|codes| - 1], code) || TrimSpace(codes[|codes| - 1]) == code
  {
    var init := codes[..|codes| - 1];
    assert forall i :: 0 <= i < |init| ==> TrimSpace(init[i]) == TrimSpace(codes[i]);
  }

  lemma {:induction false} CleanedHas(codes: seq<string>, code: Code)
    ensures code in Cleaned(codes) <==> code != "" && Submits(codes, code)
  {
    if codes != [] {
      CleanedHas(codes[..|codes| - 1], code);
      SubmitsSplit(codes, code);
    }
  }

  /** `picked` lists positions of `from`, in order. */
  ghost predicate InOrder(from: seq<Code>, out: seq<Code>, picked: seq<int>) {
    && |picked| == |out|
    && (forall i :: 0 <= i < |picked| ==> 0 <= picked[i] < |from| && out[i] == from[picked[i]])
    && (forall i, j :: 0 <= i < j < |picked| ==> picked[i] < picked[j])
  }

  lemma InOrderSkips(from: seq<Code>, last: Code, out: seq<Code>, picked: seq<int>)
    requires InOrder(from, out, picked)
    ensures InOrder(from + [last], out, picked)
  {}

  lemma InOrderTakes(from: seq<Code>, last: Code, out: seq<Code>, picked: seq<int>)
    requires InOrder(from, out, picked)
    ensures InOrder(from + [last], out + [last], picked + [|from|])
  {}

  lemma {:induction false} AmongInOrder(from: seq<Code>, keep: set<Code>) returns (picked: seq<int>)
    ensures InOrder(from, Among(from, keep), picked)
  {
    if from == [] {
      picked := [];
    } else {
      var n := |from| - 1;
      var rest := AmongInOrder(from[..n], keep);
      assert from == from[..n] + [from[n]];
      if from[n] in keep {
        InOrderTakes(from[..n], from[n], Among(from[..n], keep), rest);
        picked := rest + [n];
      } else {
        InOrderSkips(from[..n], from[n], Among(from[..n], keep), rest);
        picked := rest;
      }
    }
  }

  lemma {:induction false} AmongFits(from: seq<Code>, keep: set<Code>)
    ensures |Among(from, keep)| <= |from|
    ensures |Among(from, keep)| == |from| <==> Among(from, keep) == from
    ensures |Among(from, keep)| == |from| <==> Members(from) <= keep
  {
    if from != [] {
      var n := |from| - 1;
      var init := from[..n];
      AmongFits(init, keep);
      assert from == init + [from[n]];
      assert Members(from) == Members(init) + {from[n]};
    }
  }

  // --- normalising -------------------------------------------------------------------------

  /**
   An accepted list comes back as exactly the submitted codes, trimmed and without blanks, each
   once, in catalogue order.
   */
  lemma NormalisedIsExact(catalogue: seq<Code>, codes: seq<string>, code: Code)
    requires NoDuplicates(catalogue) && Normalise(catalogue, codes).Codes?
    ensures var out := Normalise(catalogue, codes).codes;
      && (code in out <==> code != "" && Submits(codes, code))
      && NoDuplicates(out)
      && exists picked :: InOrder(catalogue, out, picked)
  {
    var submitted := Cleaned(codes);
    AmongHas(catalogue, Members(submitted), code);
    NotAmongHas(submitted, Members(catalogue), code);
    CleanedHas(codes, code);
    var picked := AmongInOrder(catalogue, Members(submitted));
  }

  /** A list is refused exactly when it holds a code outside the catalogue, and the refusal names those codes. */
  lemma RefusalNamesTheUnknown(catalogue: seq<Code>, codes: seq<string>, code: Code)
    ensures Normalise(catalogue, codes).Unknown? <==> exists c :: c in Cleaned(codes) && c !in catalogue
    ensures Normalise(catalogue, codes).Unknown? ==>
              (code in Normalise(catalogue, codes).unknown <==> code in Cleaned(codes) && code !in catalogue)
  {
    var submitted := Cleaned(codes);
    var unknown := NotAmong(submitted, Members(catalogue));
    NotAmongHas(submitted, Members(catalogue), code);
    if unknown != [] {
      NotAmongHas(submitted, Members(catalogue), unknown[0]);
      assert unknown[0] in submitted && unknown[0] !in catalogue;
    }
    if c :| c in submitted && c !in catalogue {
      NotAmongHas(submitted, Members(catalogue), c);
    }
  }

  lemma {:induction false} AllKnown(from: seq<Code>, known: set<Code>)
    requires Members(from) <= known
    ensures NotAmong(from, known) == []
  {
    if from != [] {
      assert from[|from| - 1] in Members(from);
      assert forall c :: c in from[..|from| - 1] ==> c in Members(from);
      AllKnown(from[..|from| - 1], known);
    }
  }

  lemma {:induction false} TidyIsClean(codes: seq<Code>)
    requires AllTidy(codes)
    ensures Cleaned(codes) == codes
  {
    if codes != [] {
      TidyIsClean(codes[..|codes| - 1]);
      TrimSpaceKeeps(codes[|codes| - 1]);
      assert codes == codes[..|codes| - 1] + [codes[|codes| - 1]];
    }
  }

  lemma {:induction false} AmongTidy(from: seq<Code>, keep: set<Code>)
    requires AllTidy(from)
    ensures AllTidy(Among(from, keep))
  {
    if from != [] { AmongTidy(from[..|from| - 1], keep); }
  }

  lemma {:induction false} AmongSame(from: seq<Code>, keep: set<Code>, keep': set<Code>)
    requires forall c :: c in from ==> (c in keep <==> c in keep')
    ensures Among(from, keep) == Among(from, keep')
  {
    if from != [] {
      assert from == from[..|from| - 1] + [from[|from| - 1]];
      AmongSame(from[..|from| - 1], keep, keep');
    }
  }

  /** Normalising what was normalised changes nothing. */
  lemma NormaliseIsIdempotent(catalogue: seq<Code>, codes: seq<string>)
    requires AllTidy(catalogue) && Normalise(catalogue, codes).Codes?
    ensures Normalise(catalogue, Normalise(catalogue, codes).codes) == Normalise(catalogue, codes)
  {
    var out := Normalise(catalogue, codes).codes;
    AmongTidy(catalogue, Members(Cleaned(codes)));
    TidyIsClean(out);
    forall c
      ensures c in out <==> c in catalogue && c in Cleaned(codes)
    {
      AmongHas(catalogue, Members(Cleaned(codes)), c);
    }
    AllKnown(out, Members(catalogue));
    AmongSame(catalogue, Members(out), Members(Cleaned(codes)));
  }

  /** The length test stands for equality: an accepted list as long as the catalogue is the catalogue. */
  lemma LengthTestIsEquality(catalogue: seq<Code>, codes: seq<string>)
    requires Normalise(catalogue, codes).Codes?
    ensures var out := Normalise(catalogue, codes).codes;
      && (|out| == |catalogue| <==> out == catalogue)
      && (|out| == |catalogue| <==> Members(catalogue) <= Members(Cleaned(codes)))
  {
    AmongFits(catalogue, Members(Cleaned(codes)));
  }

  // --- grants ------------------------------------------------------------------------------

  ghost predicate RootHoldsAll(catalogue: seq<Code>, s: State, role: RoleId) {
    role in s.names && IsSuperAdmin(s.names[role]) && Members(catalogue) <= Granted(s, role) <= s.table
  }

  lemma StepKeepsRoot(catalogue: seq<Code>, s: State, op: Op, role: RoleId)
    requires RootHoldsAll(catalogue, s, role)
    ensures RootHoldsAll(catalogue, Step(catalogue, s, op).0, role)
  {
    var n := Normalise(catalogue, op.codes);
    if op.role == role && n.Codes? { LengthTestIsEquality(catalogue, op.codes); }
  }

  /** However roles are edited, the superadmin role holds the whole catalogue for as long as it did at the start. */
  lemma {:induction false} SuperAdminKeepsAll(catalogue: seq<Code>, s: State, ops: seq<Op>, role: RoleId)
    requires RootHoldsAll(catalogue, s, role)
    ensures RootHoldsAll(catalogue, Run(catalogue, s, ops), role)
    decreases |ops|
  {
    if ops != [] {
      StepKeepsRoot(catalogue, s, ops[0], role);
      SuperAdminKeepsAll(catalogue, Step(catalogue, s, ops[0]).0, ops[1..], role);
    }
  }

  /** A change to the superadmin role is let through exactly when it submits every code and nothing unknown. */
  lemma SuperAdminAcceptsIff(catalogue: seq<Code>, s: State, op: Op)
    requires op.role in s.names && IsSuperAdmin(s.names[op.role]) && op.fate.Works?
    ensures Step(catalogue, s, op).1.Done? <==>
            Members(Cleaned(op.codes)) == Members(catalogue)
  {
    var n, submitted := Normalise(catalogue, op.codes), Cleaned(op.codes);
    RefusalNamesTheUnknown(catalogue, op.codes, "");
    if n.Codes? {
      LengthTestIsEquality(catalogue, op.codes);
      assert Members(submitted) <= Members(catalogue);
    } else {
      var c :| c in submitted && c !in catalogue;
      assert c in Members(submitted);
    }
  }

  /** A replacement that is answered grants exactly what it answers, among what exists, and touches no other role. */
  lemma ReplaceIsExact(catalogue: seq<Code>, s: State, op: Op, other: RoleId, code: Code)
    requires Step(catalogue, s, op).1.Done? && other != op.role
    ensures var (t, answer) := Step(catalogue, s, op);
      && (code in Granted(t, op.role) <==> code in answer.codes && code in s.table)
      && Granted(t, other) == Granted(s, other) && t.names == s.names && t.table == s.table
  {}

  /** One character without its case; the long s is an s. */
  function Folded(c: char): char {
    if 'A' <= c <= 'Z' then (c as int + 32) as char else if c == '\U{17F}' then 's' else c
  }

  /** The root role is the one called superadmin, in any case and with any spaces around. */
  lemma RootIsCalledSuperadmin(name: string)
    ensures var bare := TrimSpace(name);
      IsSuperAdmin(name) <==> |bare| == 10 && forall i :: 0 <= i < 10 ==> Folded(bare[i]) == "superadmin"[i]
  {}

  /** A code somebody submitted that the catalogue does not list. */
  ghost predicate SubmitsUnknown(catalogue: seq<Code>, codes: seq<string>) {
    exists code :: code in Cleaned(codes) && code !in catalogue
  }

  ghost predicate SubmitsAll(catalogue: seq<Code>, codes: seq<string>) {
    forall code :: code in catalogue ==> code in Cleaned(codes)
  }

  /** What a replacement answers, refusals in order; a refusal changes nothing. */
  lemma ReplaceAnswers(catalogue: seq<Code>, s: State, op: Op)
    ensures var (t, answer) := Step(catalogue, s, op);
      var unknown := SubmitsUnknown(catalogue, op.codes);
      var weakens := op.role in s.names && IsSuperAdmin(s.names[op.role]) && !SubmitsAll(catalogue, op.codes);
      && (answer == NotFound <==> op.role !in s.names)
      && (answer.Invalid? <==> op.role in s.names && unknown)
      && (answer == Conflict <==> op.role in s.names && !unknown && weakens)
      && (answer.Done? <==> op.role in s.names && !unknown && !weakens && op.fate.Works?)
      && (answer.NotFound? || answer.Invalid? || answer.Conflict? || op.fate.Fails? ==> t == s)
  {
    RefusalNamesTheUnknown(catalogue, op.codes, "");
    if op.role in s.names && Normalise(catalogue, op.codes).Codes? { RefusesIff(catalogue, s.names[op.role], op.codes); }
  }

  lemma RefusesIff(catalogue: seq<Code>, name: string, codes: seq<string>)
    requires Normalise(catalogue, codes).Codes?
    ensures Refuses(catalogue, name, Normalise(catalogue, codes).codes) <==>
            IsSuperAdmin(name) && !SubmitsAll(catalogue, codes)
  {
    LengthTestIsEquality(catalogue, codes);
    CoversIff(catalogue, Cleaned(codes));
  }

  lemma CoversIff(a: seq<Code>, b: seq<Code>)
    ensures Members(a) <= Members(b) <==> forall code :: code in a ==> code in b
  {
    if Members(a) <= Members(b) {
      forall code | code in a
        ensures code in b
      {
        assert code in Members(a);
      }
    }
  }

  /** Of two operators editing one role at once, the later replaces the earlier whole. */
  lemma LastWriterWins(catalogue: seq<Code>, s: State, first: Op, second: Op)
    requires first.role == second.role && Step(catalogue, s, second).1.Done?
    ensures Step(catalogue, Step(catalogue, s, first).0, second) == Step(catalogue, s, second)
  {
    var t := Step(catalogue, s, first).0;
    var kept := Members(Normalise(catalogue, second.codes).codes) * s.table;
    assert t.grants[first.role := kept] == s.grants[first.role := kept];
  }

  // --- this catalogue ----------------------------------------------------------------------

  /** The place of a code, told by its length and its first letter. */
  function Slot(code: Code): int {
    if code == "" then -1
    else
      match |code|
      case 9 => if code[0] == 's' then 4 else if code[0] == 'u' then 20 else 22
      case 10 =>
        if code[0] == 's' then 5 else if code[0] == 'o' then 10 else if code[0] == 'e' then 14
        else if code[0] == 'u' then 21 else 23
      case 11 => if code[0] == 'o' then 11 else if code[0] == 'b' then 12 else 15
      case 12 => if code[0] == 'p' then 2 else if code[0] == 'c' then 8 else if code[0] == 'b' then 13 else 16
      case 13 => if code[0] == 'p' then 3 else if code[0] == 'c' then 9 else 17
      case 17 => if code[0] == 't' then 0 else if code[0] == 's' then 6 else 24
      case 18 => if code[0] == 't' then 1 else if code[0] == 's' then 7 else 25
      case 23 => 18
      case 21 => 19
      case _ => -1
  }

  lemma EachInItsSlot()
    ensures |CATALOGUE| == 26
    ensures forall i :: 0 <= i < |CATALOGUE| ==> Slot(CATALOGUE[i]) == i
  {}

  lemma CatalogueHasNoDuplicates()
    ensures NoDuplicates(CATALOGUE)
  {
    EachInItsSlot();
  }

  predicate IsLetter(c: char) {
    'a' <= c <= 'z'
  }

  lemma LetterIsNoSpace(c: char)
    requires IsLetter(c)
    ensures !IsSpace(c)
  {}

  lemma EdgesAreLetters()
    ensures forall i :: 0 <= i < |CATALOGUE| ==>
              CATALOGUE[i] != "" && IsLetter(CATALOGUE[i][0]) && IsLetter(CATALOGUE[i][|CATALOGUE[i]| - 1])
  {}

  lemma CatalogueIsTidy()
    ensures AllTidy(CATALOGUE)
  {
    EdgesAreLetters();
    forall i | 0 <= i < |CATALOGUE|
      ensures Tidy(CATALOGUE[i])
    {
      LetterIsNoSpace(CATALOGUE[i][0]);
      LetterIsNoSpace(CATALOGUE[i][|CATALOGUE[i]| - 1]);
    }
  }
}
