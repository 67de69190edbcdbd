/** Which keys are one identity, who may share an account, and when an email counts as verified. */
module AccountVerification {
  import opened Faults
  import opened Options
  import opened AccountModel
  import opened AccountTheorems

  // --- identities --------------------------------------------------------------------------

  /** The same person to the same provider, the same number, or the same password address. */
  predicate SameIdentity(a: Request, b: Request) {
    match (a, b)
    case (Social(p, s, _, _), Social(q, r, _, _)) => p == q && s == r
    case (ByPhone(m), ByPhone(n)) => m == n
    case (Register(_, e), Register(_, f)) => e == f
    case _ => false
  }

  lemma KeysAreIdentities(a: Request, b: Request)
    ensures KeyOf(a) == KeyOf(b) <==> SameIdentity(a, b)
  {}

  ghost predicate AnsweredTo(s: State, c: CallId, r: Request, user: UserId) {
    c in s.calls && s.calls[c].request == r && s.calls[c].pc == Finished(Resolved(user))
  }

  /** Of two calls ever answered, those of one identity are answered with one account. */
  lemma SameIdentitySameAccount(
    ops: seq<Op>, later: seq<Op>, c: CallId, d: CallId, a: Request, b: Request, u: UserId, v: UserId)
    requires AnsweredTo(Run(Init(), ops), c, a, u) && AnsweredTo(Run(Init(), ops + later), d, b, v)
    requires SameIdentity(a, b)
    ensures u == v
  {
    KeysAreIdentities(a, b);
    SameKeySameAccount(ops, later, c, d, KeyOf(a), u, v);
  }

  /**
   Two identities share an account only if one of their sign-ins proved the account's address: a
   second provider, or a second person at one provider, never gets in by any other way.
   */
  lemma SharedAccountWasProven(ops: seq<Op>, a: Request, b: Request)
    requires var t := Run(Init(), ops).tables;
      && KeyOf(a) in t.identities && KeyOf(b) in t.identities && !SameIdentity(a, b)
      && t.identities[KeyOf(a)].user == t.identities[KeyOf(b)].user
    ensures var s := Run(Init(), ops);
      var x, y := s.tables.identities[KeyOf(a)], s.tables.identities[KeyOf(b)];
      && x.user in s.tables.users && x.linker in s.calls && y.linker in s.calls
      && (Proves(s.calls[x.linker].request, s.tables.users[x.user]) ||
          Proves(s.calls[y.linker].request, s.tables.users[x.user]))
  {
    KeysAreIdentities(a, b);
    NobodyJoinsUnvouched(ops, KeyOf(a));
    NobodyJoinsUnvouched(ops, KeyOf(b));
  }

  /** A provider vouches for the account's email, or the code matched on the account's phone. */
  predicate Proves(r: Request, user: User) {
    || (r.Social? && r.emailVerified && user.email == Some(r.email))
    || (r.ByPhone? && user.phone == Some(r.number))
  }

  // --- which steps verify an email ---------------------------------------------------------

  ghost predicate IsVerified(s: State, u: UserId) {
    u in s.tables.users && s.tables.users[u].emailVerified
  }

  predicate IsProven(r: Request) {
    r.Social? && r.emailVerified
  }

  /** The mark of this account takes effect, or it is inserted by a sign-in whose provider vouches. */
  ghost predicate Verifies(s: State, op: Op, u: UserId) {
    && op.Move? && op.call in s.calls
    && var call := s.calls[op.call];
      || (call.pc == Mark(u) && u in s.tables.users && !op.fate.Fails?)
      || (u !in s.tables.users && u in Step(s, op).tables.users && call.request.Social? && call.request.emailVerified)
  }

  lemma StepVerifiesIff(s: State, op: Op, u: UserId)
    requires Indexed(s.tables)
    ensures IsVerified(Step(s, op), u) <==> IsVerified(s, u) || Verifies(s, op, u)
  {
    if op.Move? && op.call in s.calls {
      var call := s.calls[op.call];
      if call.pc.CreateUser? {
        InsertVerifiesIff(s, op, u);
      } else if call.pc.Mark? {
        assert Step(s, op).tables.users.Keys == s.tables.users.Keys;
      } else {
        EffectIsALink(s.tables, op.call, call, op.fate);
      }
    }
  }

  lemma InsertVerifiesIff(s: State, op: Op, u: UserId)
    requires Indexed(s.tables) && op.Move? && op.call in s.calls && s.calls[op.call].pc.CreateUser?
    ensures IsVerified(Step(s, op), u) <==> IsVerified(s, u) || Verifies(s, op, u)
  {
    assert s.tables.born !in s.tables.users;
    var user := NewUser(s.calls[op.call].request, op.call);
    assert user.emailVerified <==> IsProven(s.calls[op.call].request);
    assert Step(s, op).tables == s.tables || Step(s, op).tables == Insert(s.tables, user);
  }

  ghost predicate VerifiedIn(s: State, ops: seq<Op>, u: UserId)
    decreases |ops|
  {
    ops != [] && (Verifies(s, ops[0], u) || VerifiedIn(Step(s, ops[0]), ops[1..], u))
  }

  lemma StepInv(s: State, op: Op)
    requires Inv(s)
    ensures Inv(Step(s, op))
  {
    match op
    case Start(r) => StartKeeps(s, r);
    case Move(c, fate) => if c in s.calls { MoveKeeps(s, c, fate); }
  }

  /** In every run an account's email is verified exactly if it was before or some step of the run verified it. */
  lemma {:induction false} VerifiedIff(s: State, ops: seq<Op>, u: UserId)
    requires Inv(s)
    ensures IsVerified(Run(s, ops), u) <==> IsVerified(s, u) || VerifiedIn(s, ops, u)
    decreases |ops|
  {
    if ops != [] {
      StepInv(s, ops[0]);
      StepVerifiesIff(s, ops[0], u);
      VerifiedIff(Step(s, ops[0]), ops[1..], u);
    }
  }

  // --- a proven sign-in that links verifies its account ------------------------------------

  ghost predicate MarkFails(s: State, op: Op) {
    op.Move? && op.call in s.calls && s.calls[op.call].pc.Mark? && op.fate.Fails?
  }

  /** The calls whose mark failed, which is only logged. */
  ghost function FailedMarks(s: State, ops: seq<Op>): set<CallId>
    decreases |ops|
  {
    if ops == [] then {}
    else (if MarkFails(s, ops[0]) then {ops[0].call} else {}) + FailedMarks(Step(s, ops[0]), ops[1..])
  }

  ghost predicate Linked(s: State, c: CallId)
    requires c in s.calls
  {
    var key := KeyOf(s.calls[c].request);
    key in s.tables.identities && s.tables.identities[key].linker == c
  }

  /** Where a proven call stands with its account's mark. */
  ghost predicate OnItsWay(s: State, failed: set<CallId>, c: CallId)
    requires c in s.calls
  {
    match s.calls[c].pc
    case LinkTo(user, verified) => verified ==> IsVerified(s, user)
    case LinkNew(user) => IsVerified(s, user)
    case Finished(result) => result.Resolved? && Linked(s, c) ==> IsVerified(s, result.user) || c in failed
    case _ => true
  }

  ghost predicate LinkersAreDone(s: State) {
    forall c :: c in s.calls && Linked(s, c) ==> s.calls[c].pc.Mark? || s.calls[c].pc.Finished?
  }

  ghost predicate ProvenSound(s: State, failed: set<CallId>) {
    LinkersAreDone(s) && forall c :: c in s.calls && IsProven(s.calls[c].request) ==> OnItsWay(s, failed, c)
  }

  /** What another call's step does to this one: its links stay, no link of its own appears, the verified stay verified. */
  ghost predicate Undisturbed(s: State, t: State, c: CallId)
    requires c in s.calls
  {
    && c in t.calls && t.calls[c] == s.calls[c]
    && (Linked(t, c) ==> Linked(s, c))
    && (forall u :: IsVerified(s, u) ==> IsVerified(t, u))
  }

  lemma OthersAreUndisturbed(s: State, op: Op, c: CallId)
    requires Inv(s) && c in s.calls && (op.Move? ==> op.call != c)
    ensures Undisturbed(s, Step(s, op), c)
  {
    InvGrounds(s);
    forall u | IsVerified(s, u)
      ensures IsVerified(Step(s, op), u)
    {
      StepVerifiesIff(s, op, u);
    }
    if op.Move? && op.call in s.calls && !s.calls[op.call].pc.CreateUser? && !s.calls[op.call].pc.Mark? {
      EffectIsALink(s.tables, op.call, s.calls[op.call], op.fate);
    }
  }

  lemma UndisturbedStays(s: State, t: State, failed: set<CallId>, failed': set<CallId>, c: CallId)
    requires c in s.calls && Undisturbed(s, t, c) && failed <= failed'
    ensures (Linked(s, c) ==> s.calls[c].pc.Mark? || s.calls[c].pc.Finished?) ==>
            (Linked(t, c) ==> t.calls[c].pc.Mark? || t.calls[c].pc.Finished?)
    ensures OnItsWay(s, failed, c) ==> OnItsWay(t, failed', c)
  {}

  lemma HolderIsThere(s: State, r: Request)
    requires Indexed(s.tables) && Holder(s.tables, r).Some?
    ensures Holder(s.tables, r).value in s.tables.users
  {}

  lemma LinkerMoves(s: State, c: CallId, fate: Fate)
    requires Inv(s) && LinkersAreDone(s) && c in s.calls
    ensures var t := MoveCall(s, c, fate);
      Linked(t, c) ==> t.calls[c].pc.Mark? || t.calls[c].pc.Finished?
  {
    if !s.calls[c].pc.CreateUser? && !s.calls[c].pc.Mark? {
      EffectIsALink(s.tables, c, s.calls[c], fate);
    }
  }

  lemma MoverOnItsWay(s: State, failed: set<CallId>, c: CallId, fate: Fate)
    requires Inv(s) && LinkersAreDone(s) && c in s.calls && IsProven(s.calls[c].request) && OnItsWay(s, failed, c)
    ensures OnItsWay(MoveCall(s, c, fate), failed + if MarkFails(s, Move(c, fate)) then {c} else {}, c)
  {
    var call, t := s.calls[c], MoveCall(s, c, fate);
    assert CallSound(s.tables, c, call);
    match call.pc
    case FindHolder =>
      if Holder(s.tables, call.request).Some? { HolderIsThere(s, call.request); }
    case CreateUser =>
      InvGrounds(s);
    case Mark(user) =>
    case Finished(result) =>
      assert t.tables == s.tables && t.calls == s.calls;
    case LinkTo(user, verified) => LinkedOnItsWay(s, failed, c, fate);
    case LinkNew(user) => LinkedOnItsWay(s, failed, c, fate);
    case LoadAccount(user) => LoadedIsNotLinked(s, c, fate);
    case _ =>
  }

  lemma LinkedOnItsWay(s: State, failed: set<CallId>, c: CallId, fate: Fate)
    requires c in s.calls && IsProven(s.calls[c].request) && OnItsWay(s, failed, c)
    requires s.calls[c].pc.LinkTo? || s.calls[c].pc.LinkNew?
    ensures OnItsWay(MoveCall(s, c, fate), failed, c)
  {
    EffectIsALink(s.tables, c, s.calls[c], fate);
  }

  lemma LoadedIsNotLinked(s: State, c: CallId, fate: Fate)
    requires LinkersAreDone(s) && c in s.calls && s.calls[c].pc.LoadAccount?
    ensures !Linked(MoveCall(s, c, fate), c)
  {}

  lemma StepKeepsProven(s: State, failed: set<CallId>, op: Op)
    requires Inv(s) && ProvenSound(s, failed)
    ensures ProvenSound(Step(s, op), failed + if MarkFails(s, op) then {op.call} else {})
  {
    var t := Step(s, op);
    var failed' := failed + if MarkFails(s, op) then {op.call} else {};
    forall c | c in t.calls
      ensures Linked(t, c) ==> t.calls[c].pc.Mark? || t.calls[c].pc.Finished?
      ensures IsProven(t.calls[c].request) ==> OnItsWay(t, failed', c)
    {
      if op.Move? && op.call == c {
        LinkerMoves(s, c, op.fate);
        if IsProven(s.calls[c].request) { MoverOnItsWay(s, failed, c, op.fate); }
      } else if c in s.calls {
        StartedIsNew(s, op, c);
        OthersAreUndisturbed(s, op, c);
        UndisturbedStays(s, t, failed, failed', c);
      } else {
        NewcomersLinkNothing(s, op, c);
      }
    }
  }

  lemma StartedIsNew(s: State, op: Op, c: CallId)
    requires Inv(s) && c in s.calls
    ensures c != s.started
  {
    InvGrounds(s);
  }

  lemma NewcomersLinkNothing(s: State, op: Op, c: CallId)
    requires Inv(s) && c !in s.calls && c in Step(s, op).calls
    ensures !Linked(Step(s, op), c) && !Step(s, op).calls[c].pc.Finished?
    ensures forall failed :: OnItsWay(Step(s, op), failed, c)
  {
    var key := KeyOf(Step(s, op).calls[c].request);
    if key in s.tables.identities { assert LinkSound(s.tables, s.calls, key); }
  }

  lemma {:induction false} RunKeepsProven(s: State, failed: set<CallId>, ops: seq<Op>)
    requires Inv(s) && ProvenSound(s, failed)
    ensures ProvenSound(Run(s, ops), failed + FailedMarks(s, ops))
    decreases |ops|
  {
    if ops == [] {
      assert failed + {} == failed;
    } else {
      var first := if MarkFails(s, ops[0]) then {ops[0].call} else {};
      StepInv(s, ops[0]);
      StepKeepsProven(s, failed, ops[0]);
      RunKeepsProven(Step(s, ops[0]), failed + first, ops[1..]);
      assert failed + first + FailedMarks(Step(s, ops[0]), ops[1..]) == failed + FailedMarks(s, ops);
    }
  }

  /**
   Once a sign-in whose provider vouches for its email has linked its identity and been answered,
   its account's email is verified, then and after any later run, unless its own mark failed.
   */
  lemma ProvenLinkVerifies(ops: seq<Op>, later: seq<Op>, c: CallId, r: Request, u: UserId)
    requires AnsweredTo(Run(Init(), ops), c, r, u) && r.Social? && r.emailVerified
    requires var t := Run(Init(), ops).tables;
      SocialKey(r.provider, r.subject) in t.identities && t.identities[SocialKey(r.provider, r.subject)].linker == c
    requires c !in FailedMarks(Init(), ops)
    ensures IsVerified(Run(Init(), ops + later), u)
  {
    var s := Run(Init(), ops);
    Reachable(ops);
    RunKeepsProven(Init(), {}, ops);
    assert OnItsWay(s, {} + FailedMarks(Init(), ops), c);
    RunConcat(Init(), ops, later);
    VerifiedIff(s, later, u);
  }

  // --- one sign-in with everything working -------------------------------------------------

  lemma LinkToVerifies(t: Tables, c: CallId, r: Request, user: UserId, verified: bool)
    requires IsProven(r) && KeyOf(r) !in t.identities && user in t.users
    requires verified ==> t.users[user].emailVerified
    ensures var (after, result) := Drive(t, c, Call(r, LinkTo(user, verified)), []);
      result == Resolved(user) && user in after.users && after.users[user].emailVerified
  {
    var call := Call(r, LinkTo(user, verified));
    var linked := Link(t, KeyOf(r), user, c);
    if !verified {
      var marked := MarkVerified(linked, user);
      assert Drive(marked, c, Call(r, Finished(Resolved(user))), []) == (marked, Resolved(user));
      assert Drive(linked, c, Call(r, Mark(user)), []) == (marked, Resolved(user));
      assert Drive(t, c, call, []) == Drive(linked, c, Call(r, Mark(user)), []);
    } else {
      assert Drive(t, c, call, []) == Drive(linked, c, Call(r, Finished(Resolved(user))), []);
    }
  }

  /** When nothing fails, a newly linked, proven sign-in leaves its account verified; a known one changes no row. */
  lemma SoloSignInVerifies(t: Tables, c: CallId, r: Request)
    requires Grounded(t) && r.Social? && r.emailVerified && SocialKey(r.provider, r.subject) !in t.identities
    ensures var (after, result) := SignIn(t, c, r, []);
      result.Resolved? && result.user in after.users && after.users[result.user].emailVerified
  {
    if NewComer(t, r) {
      FreeAddressInserts(t, r, c);
      NewComerRuns(t, c, r, []);
    } else {
      assert "" !in t.byEmail;
      var holder := Holder(t, r).value;
      ReadWorks(t, c, Call(r, FindIdentity), []);
      ReadWorks(t, c, Call(r, FindHolder), []);
      LinkToVerifies(t, c, r, holder, t.users[holder].emailVerified);
    }
  }
}
