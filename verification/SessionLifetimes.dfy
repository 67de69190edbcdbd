/** Who a token speaks for, how long it lasts, and what alone can end it sooner. */
module SessionLifetimes {
  import opened Options
  import opened SessionModel
  import opened SessionTheorems
  import opened Text

  // --- roles -------------------------------------------------------------------------------

  /** Every pair carries the role of its account, and so does its record. */
  ghost predicate RolesSound(s: State) {
    && (forall n :: 0 <= n < |s.issued| ==>
          s.issued[n].user in s.accounts && s.issued[n].role == s.accounts[s.issued[n].user].role)
    && (forall r :: r in s.store.records ==> r.n < |s.issued| && s.store.records[r].role == s.issued[r.n].role)
  }

  lemma IssueKeepsRoles(cfg: Config, s: State, u: UserId, role: string, chain: nat)
    requires RolesSound(s) && u in s.accounts && role == s.accounts[u].role
    ensures RolesSound(IssueSession(cfg, s, u, role, chain).state)
  {}

  /** Fewer records and the same pairs keep the roles, whatever happens to the accounts' status. */
  lemma FewerRecordsKeepRoles(s: State, t: State)
    requires RolesSound(s) && t.issued == s.issued
    requires forall u :: u in s.accounts ==> u in t.accounts && t.accounts[u].role == s.accounts[u].role
    requires forall r :: r in t.store.records ==> r in s.store.records && t.store.records[r] == s.store.records[r]
    ensures RolesSound(t)
  {}

  lemma RefreshKeepsRoles(cfg: Config, s: State, r: RefreshToken)
    requires RecordsSound(cfg, s) && RolesSound(s)
    ensures RolesSound(StepRefresh(cfg, s, r).state)
  {
    if LiveRecord(s.store, s.now, r) {
      var sess := s.store.records[r];
      var rotated := s.(store := Revoke(Delete(s.store, s.now, r, sess.user), s.now, sess.jti, cfg.accessTTL));
      FewerRecordsKeepRoles(s, rotated);
      IssueKeepsRoles(cfg, rotated, sess.user, sess.role, ChainOf(s, r));
    }
  }

  lemma OthersKeepRoles(cfg: Config, s: State, op: Op)
    requires RolesSound(s) && !op.SignIn? && !op.Refresh?
    ensures RolesSound(Step(cfg, s, op).state)
  {
    RecordsOnlyGo(cfg, s, op);
    FewerRecordsKeepRoles(s, Step(cfg, s, op).state);
  }

  lemma RecordsOnlyGo(cfg: Config, s: State, op: Op)
    requires !op.SignIn? && !op.Refresh?
    ensures var t := Step(cfg, s, op).state;
      && t.issued == s.issued
      && (forall u :: u in s.accounts ==> u in t.accounts && t.accounts[u].role == s.accounts[u].role)
      && (forall r :: r in t.store.records ==> r in s.store.records && t.store.records[r] == s.store.records[r])
  {}

  lemma StepKeepsRoles(cfg: Config, s: State, op: Op)
    requires RecordsSound(cfg, s) && RolesSound(s)
    ensures RolesSound(Step(cfg, s, op).state)
  {
    match op
    case SignIn(u, verified) =>
      if verified && u in s.accounts && s.accounts[u].active {
        IssueKeepsRoles(cfg, s, u, s.accounts[u].role, |s.issued|);
      }
    case Refresh(r) => RefreshKeepsRoles(cfg, s, r);
    case _ => OthersKeepRoles(cfg, s, op);
  }

  lemma {:induction false} RunKeepsRoles(cfg: Config, s: State, ops: seq<Op>)
    requires Valid(cfg) && Inv(cfg, s) && RolesSound(s)
    ensures RolesSound(Run(cfg, s, ops))
    decreases |ops|
  {
    if ops != [] {
      StepKeeps(cfg, s, ops[0]);
      StepKeepsRoles(cfg, s, ops[0]);
      RunKeepsRoles(cfg, Step(cfg, s, ops[0]).state, ops[1..]);
    }
  }

  lemma StepKeepsAccounts(cfg: Config, s: State, op: Op, u: UserId)
    ensures var t := Step(cfg, s, op).state;
      u in s.accounts ==> u in t.accounts && t.accounts[u].role == s.accounts[u].role
  {}

  lemma {:induction false} RunKeepsAccounts(cfg: Config, s: State, ops: seq<Op>, u: UserId)
    requires u in s.accounts
    ensures var t := Run(cfg, s, ops); u in t.accounts && t.accounts[u].role == s.accounts[u].role
    decreases |ops|
  {
    if ops != [] {
      StepKeepsAccounts(cfg, s, ops[0], u);
      RunKeepsAccounts(cfg, Step(cfg, s, ops[0]).state, ops[1..], u);
    }
  }

  /**
   In every run each access token, through any number of refreshes, says the role its account was
   registered with; so the caller a token identifies never has another.
   */
  lemma TokensSayTheAccountsRole(cfg: Config, start: int, ops: seq<Op>, u: UserId, role: string, later: seq<Op>, n: nat)
    requires Valid(cfg)
    requires u !in Run(cfg, Init(start), ops).accounts
    requires var t := Run(cfg, Step(cfg, Run(cfg, Init(start), ops), Register(u, role)).state, later);
      n < |t.issued| && t.issued[n].user == u
    ensures var t := Run(cfg, Step(cfg, Run(cfg, Init(start), ops), Register(u, role)).state, later);
      u in t.accounts && t.issued[n].role == t.accounts[u].role == role
  {
    var s := Run(cfg, Init(start), ops);
    var registered := Step(cfg, s, Register(u, role)).state;
    Reachable(cfg, start, ops);
    RunKeepsRoles(cfg, Init(start), ops);
    StepKeeps(cfg, s, Register(u, role));
    StepKeepsRoles(cfg, s, Register(u, role));
    RunKeepsRoles(cfg, registered, later);
    RunKeepsAccounts(cfg, registered, later, u);
  }

  // --- minting -----------------------------------------------------------------------------

  /** Whose pair a step mints. */
  function MintedFor(s: State, op: Op): UserId
    requires op.SignIn? || (op.Refresh? && op.token.n < |s.issued|)
  {
    if op.SignIn? then op.user else s.issued[op.token.n].user
  }

  /** A pair as it leaves the service: fresh, and with both lifetimes beginning now. */
  ghost predicate IsFreshPair(cfg: Config, s: State, t: State, n: nat, u: UserId, role: string) {
    && n == |s.issued| && |t.issued| == n + 1
    && t.issued[n].user == u && t.issued[n].role == role && t.issued[n].exp == s.now + cfg.accessTTL
    && RefreshToken(n) in t.store.records
    && t.store.records[RefreshToken(n)] == Session(u, role, Jti(n), s.now + cfg.refreshTTL)
  }

  lemma IssueIsFresh(cfg: Config, s: State, u: UserId, role: string, chain: nat)
    ensures IsFreshPair(cfg, s, IssueSession(cfg, s, u, role, chain).state, |s.issued|, u, role)
  {}

  lemma RefreshMints(cfg: Config, s: State, r: RefreshToken)
    requires RecordsSound(cfg, s) && RolesSound(s) && LiveRecord(s.store, s.now, r)
    ensures r.n < |s.issued| && s.issued[r.n].user in s.accounts
    ensures var u := s.issued[r.n].user;
      IsFreshPair(cfg, s, StepRefresh(cfg, s, r).state, |s.issued|, u, s.accounts[u].role)
  {
    var sess := s.store.records[r];
    var rotated := s.(store := Revoke(Delete(s.store, s.now, r, sess.user), s.now, sess.jti, cfg.accessTTL));
    IssueIsFresh(cfg, rotated, sess.user, sess.role, ChainOf(s, r));
  }

  /**
   A pair comes only of a sign-in, for the account that signed in, or of a refresh, for the account
   the token was minted for; it is fresh, carries that account's role, and its two lifetimes begin now.
   */
  lemma MintedPair(cfg: Config, start: int, ops: seq<Op>, op: Op, n: nat)
    requires Valid(cfg) && Step(cfg, Run(cfg, Init(start), ops), op).out == Pair(n)
    ensures var s := Run(cfg, Init(start), ops);
      && (op.SignIn? || (op.Refresh? && op.token.n < |s.issued|))
      && MintedFor(s, op) in s.accounts
      && IsFreshPair(cfg, s, Step(cfg, s, op).state, n, MintedFor(s, op), s.accounts[MintedFor(s, op)].role)
  {
    Reachable(cfg, start, ops);
    RunKeepsRoles(cfg, Init(start), ops);
    var s := Run(cfg, Init(start), ops);
    OnlyTheseMint(cfg, s, op);
    if op.Refresh? {
      RefreshMints(cfg, s, op.token);
    } else {
      IssueIsFresh(cfg, s, op.user, s.accounts[op.user].role, |s.issued|);
    }
  }

  lemma OnlyTheseMint(cfg: Config, s: State, op: Op)
    requires Step(cfg, s, op).out.Pair?
    ensures Step(cfg, s, op).out == Pair(|s.issued|)
    ensures (op.SignIn? && op.verified && op.user in s.accounts && s.accounts[op.user].active) ||
            (op.Refresh? && LiveRecord(s.store, s.now, op.token))
  {}

  /** What a sign-in answers: a pair exactly when the account is there, active, and its credentials are verified. */
  lemma SignInAnswers(cfg: Config, s: State, u: UserId, verified: bool)
    ensures var o := Step(cfg, s, SignIn(u, verified));
      && (o.out.Pair? <==> verified && u in s.accounts && s.accounts[u].active)
      && (o.out == Refused(Forbidden) <==> verified && u in s.accounts && !s.accounts[u].active)
      && (o.out == Refused(Unauthorized) <==> !verified || u !in s.accounts)
      && (!o.out.Pair? ==> o.state == s)
  {}

  /** In every run, what a sign-out and a password change answer. */
  lemma RevocationsAnswer(
    cfg: Config, start: int, ops: seq<Op>, j: Jti, refresh: Option<RefreshToken>, matches: bool)
    requires Valid(cfg)
    ensures var s := Run(cfg, Init(start), ops);
      var left, changed := Step(cfg, s, Logout(j, refresh)).out, Step(cfg, s, ChangePassword(j, matches)).out;
      && (left == Refused(Unauthorized) <==> !Accepts(s, j)) && (changed == Refused(Unauthorized) <==> !Accepts(s, j))
      && (changed == Done <==> Accepts(s, j) && matches) && (changed == Refused(Invalid) <==> Accepts(s, j) && !matches)
      && (left == Refused(Forbidden) <==>
          && Accepts(s, j) && refresh.Some? && LiveRecord(s.store, s.now, refresh.value)
          && refresh.value.n < |s.issued| && s.issued[refresh.value.n].user != s.issued[j.n].user)
      && (left == Done || left == Refused(Unauthorized) || left == Refused(Forbidden))
  {
    Reachable(cfg, start, ops);
    var s := Run(cfg, Init(start), ops);
    assert refresh.Some? && LiveRecord(s.store, s.now, refresh.value) ==>
      s.store.records[refresh.value].user == s.issued[refresh.value.n].user;
  }

  // --- what ends an access token -----------------------------------------------------------

  /** The step is answered, and ends the sessions of this account. */
  predicate EndsSessionsOf(cfg: Config, s: State, op: Op, u: UserId) {
    && Step(cfg, s, op).out == Done
    && match op
       case ChangePassword(caller, _) => caller.n < |s.issued| && s.issued[caller.n].user == u
       case SetStatus(_, target, status, _, _) => target == u && status == STATUS_BLOCKED
       case _ => false
  }

  /** Exchanging its refresh token, signing out with it, a password change made with it, or an end to its session. */
  predicate EndsAccess(cfg: Config, s: State, op: Op, n: nat)
    requires n < |s.issued|
  {
    var live := LiveRecord(s.store, s.now, RefreshToken(n));
    || (op == Refresh(RefreshToken(n)) && live)
    || (op.Logout? && op.access == Jti(n))
    || (EndsSessionsOf(cfg, s, op, s.issued[n].user) && (live || (op.ChangePassword? && op.caller == Jti(n))))
  }

  predicate AccessEnded(cfg: Config, s: State, ops: seq<Op>, n: nat)
    requires n < |s.issued|
    decreases |ops|
  {
    ops != [] &&
    (EndsAccess(cfg, s, ops[0], n) ||
     (n < |Step(cfg, s, ops[0]).state.issued| && AccessEnded(cfg, Step(cfg, s, ops[0]).state, ops[1..], n)))
  }

  lemma RefusedStays(cfg: Config, s: State, op: Op, n: nat)
    requires Valid(cfg) && Core(cfg, s) && n < |s.issued| && !Accepts(s, Jti(n))
    ensures n < |Step(cfg, s, op).state.issued| && !Accepts(Step(cfg, s, op).state, Jti(n))
  {
    var t := Step(cfg, s, op).state;
    StepKeepsCore(cfg, s, op);
    StepExtends(cfg, s, op);
    assert Dead(s, n) && Dead(t, n);
  }

  lemma RevokedIff(cfg: Config, s: State, j: Jti, n: nat)
    requires TokensSound(cfg, s) && n < |s.issued| && Accepts(s, Jti(n))
    ensures Accepts(s.(store := Revoke(s.store, s.now, j, cfg.accessTTL)), Jti(n)) <==> j != Jti(n)
  {}

  lemma RefreshEndsAccess(cfg: Config, s: State, r: RefreshToken, n: nat)
    requires Core(cfg, s) && n < |s.issued| && Accepts(s, Jti(n))
    ensures var t := StepRefresh(cfg, s, r).state;
      n < |t.issued| && (Accepts(t, Jti(n)) <==> !(r == RefreshToken(n) && LiveRecord(s.store, s.now, r)))
  {
    if LiveRecord(s.store, s.now, r) {
      assert s.store.records[r].jti == Jti(r.n);
      RevokedIff(cfg, s, Jti(r.n), n);
    }
  }

  lemma MassRevocationEnds(cfg: Config, s: State, u: UserId, n: nat)
    requires Core(cfg, s) && n < |s.issued| && Accepts(s, Jti(n))
    ensures var t := s.(store := RevokeAll(s.store, s.now, u, cfg.accessTTL));
      Accepts(t, Jti(n)) <==> !(s.issued[n].user == u && LiveRecord(s.store, s.now, RefreshToken(n)))
  {
    if s.issued[n].user == u {
      MassRevocationEndsExactlyTheCovered(cfg, s, u, n);
    } else {
      RevokeAllSparesOthers(cfg, s, u);
      RevokeAllBlacklistsOwn(cfg, s, u);
    }
  }

  lemma ChangePasswordEnds(cfg: Config, s: State, caller: Jti, ok: bool, n: nat)
    requires Core(cfg, s) && n < |s.issued| && Accepts(s, Jti(n))
    ensures var o := StepChangePassword(cfg, s, caller, ok);
      n < |o.state.issued| &&
      (Accepts(o.state, Jti(n)) <==>
       !(o.out == Done && s.issued[caller.n].user == s.issued[n].user &&
         (caller == Jti(n) || LiveRecord(s.store, s.now, RefreshToken(n)))))
  {
    if StepChangePassword(cfg, s, caller, ok).out == Done {
      var u := s.issued[caller.n].user;
      var ended := s.(store := RevokeAll(s.store, s.now, u, cfg.accessTTL));
      MassRevocationEnds(cfg, s, u, n);
      RevokeAllKeepsCore(cfg, s, u);
      if Accepts(ended, Jti(n)) { RevokedIff(cfg, ended, caller, n); }
      if !Accepts(ended, Jti(n)) { RevokeRefuses(cfg, ended, caller, n); }
    }
  }

  lemma SetStatusEnds(
      cfg: Config, s: State, actor: UserId, target: UserId, status: int, reason: string, works: bool, n: nat)
    requires Core(cfg, s) && n < |s.issued| && Accepts(s, Jti(n))
    ensures var o := StepSetStatus(cfg, s, actor, target, status, reason, works);
      n < |o.state.issued| &&
      (Accepts(o.state, Jti(n)) <==>
       !(o.out == Done && status == STATUS_BLOCKED && target == s.issued[n].user &&
         LiveRecord(s.store, s.now, RefreshToken(n))))
  {
    if StatusRefusal(s, actor, target, status, reason).None? {
      var applied := ApplyStatus(s, actor, target, status, reason);
      CoreIgnoresAccounts(cfg, s, applied);
      MassRevocationEnds(cfg, applied, target, n);
    }
  }

  /** One step: an accepted token stays accepted exactly until its time is up or the step ends it. */
  lemma AccessAfterStep(cfg: Config, s: State, op: Op, n: nat)
    requires Valid(cfg) && Core(cfg, s) && n < |s.issued| && Accepts(s, Jti(n))
    ensures var t := Step(cfg, s, op).state;
      && n < |t.issued| && t.issued[n] == s.issued[n]
      && (Accepts(t, Jti(n)) <==> t.now < s.issued[n].exp && !EndsAccess(cfg, s, op, n))
  {
    StepExtends(cfg, s, op);
    match op
    case Tick(ticks) =>
      assert BlacklistSound(s);
    case Register(u, role) =>
    case SignIn(u, verified) =>
    case Refresh(r) => RefreshEndsAccess(cfg, s, r, n);
    case Logout(access, refresh) =>
      if Accepts(s, access) { RevokedIff(cfg, s, access, n); }
    case ChangePassword(caller, ok) => ChangePasswordEnds(cfg, s, caller, ok, n);
    case SetStatus(actor, target, status, reason, works) =>
      SetStatusEnds(cfg, s, actor, target, status, TrimSpace(reason), works, n);
  }

  lemma {:induction false} NeverAgain(cfg: Config, s: State, ops: seq<Op>, n: nat)
    requires Valid(cfg) && Inv(cfg, s) && n < |s.issued| && !Accepts(s, Jti(n))
    ensures n < |Run(cfg, s, ops).issued| && !Accepts(Run(cfg, s, ops), Jti(n))
    decreases |ops|
  {
    if ops != [] {
      StepKeeps(cfg, s, ops[0]);
      RefusedStays(cfg, s, ops[0], n);
      NeverAgain(cfg, Step(cfg, s, ops[0]).state, ops[1..], n);
    }
  }

  lemma {:induction false} AcceptedUntilEnded(cfg: Config, s: State, ops: seq<Op>, n: nat)
    requires Valid(cfg) && Inv(cfg, s) && n < |s.issued| && Accepts(s, Jti(n))
    ensures var t := Run(cfg, s, ops);
      Accepts(t, Jti(n)) <==> t.now < s.issued[n].exp && !AccessEnded(cfg, s, ops, n)
    decreases |ops|
  {
    if ops != [] {
      var t := Step(cfg, s, ops[0]).state;
      StepKeeps(cfg, s, ops[0]);
      AccessAfterStep(cfg, s, ops[0], n);
      if Accepts(t, Jti(n)) {
        AcceptedUntilEnded(cfg, t, ops[1..], n);
      } else {
        NeverAgain(cfg, t, ops[1..], n);
        RunExtends(cfg, t, ops[1..]);
      }
    }
  }

  /**
   The whole life of an access token: after any run it is accepted exactly when less than the
   access lifetime has passed since it was minted and nothing has ended it.
   */
  lemma AccessLifetime(cfg: Config, start: int, before: seq<Op>, op: Op, n: nat, after: seq<Op>)
    requires Valid(cfg) && Step(cfg, Run(cfg, Init(start), before), op).out == Pair(n)
    ensures var s := Run(cfg, Init(start), before);
      var minted := Step(cfg, s, op).state;
      var t := Run(cfg, minted, after);
      n < |minted.issued| &&
      (Accepts(t, Jti(n)) <==> t.now < s.now + cfg.accessTTL && !AccessEnded(cfg, minted, after, n))
  {
    var s := Run(cfg, Init(start), before);
    var minted := Step(cfg, s, op).state;
    Reachable(cfg, start, before);
    MintedPair(cfg, start, before, op, n);
    StepKeeps(cfg, s, op);
    FreshIsAccepted(cfg, s, op, n);
    if Accepts(minted, Jti(n)) {
      AcceptedUntilEnded(cfg, minted, after, n);
    } else {
      NeverAgain(cfg, minted, after, n);
      RunExtends(cfg, minted, after);
    }
  }

  lemma FreshIsAccepted(cfg: Config, s: State, op: Op, n: nat)
    requires Core(cfg, s) && Step(cfg, s, op).out == Pair(n)
    ensures var t := Step(cfg, s, op).state;
      n == |s.issued| && t.now == s.now && (Accepts(t, Jti(n)) <==> 0 < cfg.accessTTL)
  {
    assert op.SignIn? || op.Refresh?;
    if op.Refresh? { assert s.store.records[op.token].jti == Jti(op.token.n); }
  }

  // --- what ends a refresh token -----------------------------------------------------------

  /** Exchanging it, a sign-out of its account that names it, or an end to the account's sessions. */
  predicate EndsRefresh(cfg: Config, s: State, op: Op, n: nat)
    requires n < |s.issued|
  {
    || op == Refresh(RefreshToken(n))
    || (op.Logout? && op.refresh == Some(RefreshToken(n)) && Accepts(s, op.access) &&
        s.issued[op.access.n].user == s.issued[n].user)
    || EndsSessionsOf(cfg, s, op, s.issued[n].user)
  }

  predicate RefreshEnded(cfg: Config, s: State, ops: seq<Op>, n: nat)
    requires n < |s.issued|
    decreases |ops|
  {
    ops != [] &&
    (EndsRefresh(cfg, s, ops[0], n) ||
     (n < |Step(cfg, s, ops[0]).state.issued| && RefreshEnded(cfg, Step(cfg, s, ops[0]).state, ops[1..], n)))
  }

  /** The record's deadline, from what the access token says. */
  function RefreshDeadline(cfg: Config, s: State, n: nat): int
    requires n < |s.issued|
  {
    s.issued[n].exp - cfg.accessTTL + cfg.refreshTTL
  }

  lemma MassRevocationDrops(cfg: Config, s: State, u: UserId, n: nat)
    requires Core(cfg, s) && n < |s.issued| && LiveRecord(s.store, s.now, RefreshToken(n))
    ensures var t := s.(store := RevokeAll(s.store, s.now, u, cfg.accessTTL));
      LiveRecord(t.store, t.now, RefreshToken(n)) <==> s.issued[n].user != u
  {
    assert s.store.records[RefreshToken(n)].user == s.issued[n].user;
    RevokeAllEndsEverySession(cfg, s, u);
    RevokeAllSparesOthers(cfg, s, u);
  }

  lemma SetStatusDrops(
      cfg: Config, s: State, actor: UserId, target: UserId, status: int, reason: string, works: bool, n: nat)
    requires Core(cfg, s) && n < |s.issued| && LiveRecord(s.store, s.now, RefreshToken(n))
    ensures var o := StepSetStatus(cfg, s, actor, target, status, reason, works);
      LiveRecord(o.state.store, o.state.now, RefreshToken(n)) <==>
      !(o.out == Done && status == STATUS_BLOCKED && target == s.issued[n].user)
  {
    if StatusRefusal(s, actor, target, status, reason).None? {
      var applied := ApplyStatus(s, actor, target, status, reason);
      CoreIgnoresAccounts(cfg, s, applied);
      MassRevocationDrops(cfg, applied, target, n);
    }
  }

  lemma RefreshDrops(cfg: Config, s: State, r: RefreshToken, n: nat)
    requires n < |s.issued| && LiveRecord(s.store, s.now, RefreshToken(n))
    ensures var t := StepRefresh(cfg, s, r).state; LiveRecord(t.store, t.now, RefreshToken(n)) <==> r != RefreshToken(n)
  {}

  lemma LogoutDrops(cfg: Config, s: State, access: Jti, refresh: Option<RefreshToken>, n: nat)
    requires Core(cfg, s) && n < |s.issued| && LiveRecord(s.store, s.now, RefreshToken(n))
    ensures var t := StepLogout(cfg, s, access, refresh).state;
      LiveRecord(t.store, t.now, RefreshToken(n)) <==>
      !(refresh == Some(RefreshToken(n)) && Accepts(s, access) && s.issued[access.n].user == s.issued[n].user)
  {
    assert s.store.records[RefreshToken(n)].user == s.issued[n].user;
  }

  lemma ChangePasswordDrops(cfg: Config, s: State, caller: Jti, ok: bool, n: nat)
    requires Core(cfg, s) && n < |s.issued| && LiveRecord(s.store, s.now, RefreshToken(n))
    ensures var o := StepChangePassword(cfg, s, caller, ok);
      LiveRecord(o.state.store, o.state.now, RefreshToken(n)) <==>
      !(o.out == Done && s.issued[caller.n].user == s.issued[n].user)
  {
    if StepChangePassword(cfg, s, caller, ok).out == Done { MassRevocationDrops(cfg, s, s.issued[caller.n].user, n); }
  }

  lemma SignInDropsNothing(cfg: Config, s: State, u: UserId, verified: bool, n: nat)
    requires n < |s.issued| && LiveRecord(s.store, s.now, RefreshToken(n))
    ensures var t := StepSignIn(cfg, s, u, verified).state; t.now == s.now && LiveRecord(t.store, t.now, RefreshToken(n))
  {}

  lemma DeadlineOf(cfg: Config, s: State, n: nat)
    requires RecordsSound(cfg, s) && n < |s.issued| && LiveRecord(s.store, s.now, RefreshToken(n))
    ensures s.store.records[RefreshToken(n)].expires == RefreshDeadline(cfg, s, n) > s.now
  {}

  /** One step: a live refresh token stays so exactly until its time is up or the step ends it. */
  lemma RefreshAfterStep(cfg: Config, s: State, op: Op, n: nat)
    requires Valid(cfg) && Core(cfg, s) && n < |s.issued| && LiveRecord(s.store, s.now, RefreshToken(n))
    ensures var t := Step(cfg, s, op).state;
      && n < |t.issued| && t.issued[n] == s.issued[n]
      && (LiveRecord(t.store, t.now, RefreshToken(n)) <==>
          t.now < RefreshDeadline(cfg, s, n) && !EndsRefresh(cfg, s, op, n))
  {
    StepExtends(cfg, s, op);
    DeadlineOf(cfg, s, n);
    match op
    case Tick(ticks) =>
    case Register(u, role) =>
    case SignIn(u, verified) => SignInDropsNothing(cfg, s, u, verified, n);
    case Refresh(r) => RefreshDrops(cfg, s, r, n);
    case Logout(access, refresh) => LogoutDrops(cfg, s, access, refresh, n);
    case ChangePassword(caller, ok) => ChangePasswordDrops(cfg, s, caller, ok, n);
    case SetStatus(actor, target, status, reason, works) =>
      SetStatusDrops(cfg, s, actor, target, status, TrimSpace(reason), works, n);
  }

  lemma {:induction false} LiveUntilEnded(cfg: Config, s: State, ops: seq<Op>, n: nat)
    requires Valid(cfg) && Inv(cfg, s) && n < |s.issued| && LiveRecord(s.store, s.now, RefreshToken(n))
    ensures var t := Run(cfg, s, ops);
      LiveRecord(t.store, t.now, RefreshToken(n)) <==>
      t.now < RefreshDeadline(cfg, s, n) && !RefreshEnded(cfg, s, ops, n)
    decreases |ops|
  {
    if ops == [] {
      DeadlineOf(cfg, s, n);
    } else {
      var t := Step(cfg, s, ops[0]).state;
      StepKeeps(cfg, s, ops[0]);
      RefreshAfterStep(cfg, s, ops[0], n);
      if LiveRecord(t.store, t.now, RefreshToken(n)) {
        LiveUntilEnded(cfg, t, ops[1..], n);
      } else {
        RunKeepsSpent(cfg, t, ops[1..], n);
        RunExtends(cfg, t, ops[1..]);
      }
    }
  }

  /**
   The whole life of a refresh token: after any run it can be exchanged exactly when less than the
   refresh lifetime has passed since it was minted and nothing has ended it.
   */
  lemma RefreshLifetime(cfg: Config, start: int, before: seq<Op>, op: Op, n: nat, after: seq<Op>)
    requires Valid(cfg) && Step(cfg, Run(cfg, Init(start), before), op).out == Pair(n)
    ensures var s := Run(cfg, Init(start), before);
      var minted := Step(cfg, s, op).state;
      var t := Run(cfg, minted, after);
      n < |minted.issued| &&
      (Step(cfg, t, Refresh(RefreshToken(n))).out.Pair? <==>
       t.now < s.now + cfg.refreshTTL && !RefreshEnded(cfg, minted, after, n))
  {
    var s := Run(cfg, Init(start), before);
    var minted := Step(cfg, s, op).state;
    Reachable(cfg, start, before);
    MintedPair(cfg, start, before, op, n);
    StepKeeps(cfg, s, op);
    if LiveRecord(minted.store, minted.now, RefreshToken(n)) {
      LiveUntilEnded(cfg, minted, after, n);
    } else {
      RunKeepsSpent(cfg, minted, after, n);
      RunExtends(cfg, minted, after);
    }
  }

  // --- status changes ----------------------------------------------------------------------

  /** What an administrator must have asked for a status to change: another's account, with a reason when blocking. */
  predicate MayChange(s: State, op: Op) {
    && op.SetStatus? && op.actor != op.target && op.target in s.accounts
    && ((op.status == 0 && s.accounts[op.target].active && TrimSpace(op.rawReason) != "") ||
        (op.status == 1 && !s.accounts[op.target].active))
    && |TrimSpace(op.rawReason)| <= 500
  }

  ghost predicate StatusFlips(s: State, t: State, u: UserId) {
    u in s.accounts && u in t.accounts && s.accounts[u].active != t.accounts[u].active
  }

  /** An account's status changes at a step exactly when an administrator may change it and asks for it. */
  lemma StatusFlipsIff(cfg: Config, s: State, op: Op, u: UserId)
    requires u in s.accounts
    ensures StatusFlips(s, Step(cfg, s, op).state, u) <==> MayChange(s, op) && op.target == u
    ensures op.SetStatus? && !MayChange(s, op) ==> Step(cfg, s, op).state == s && Step(cfg, s, op).out.Refused?
    ensures MayChange(s, op) ==>
              Step(cfg, s, op).out == if op.status == 0 && !op.revocationWorks then Refused(Internal) else Done
  {}

  /** The request an audit row records. */
  predicate Records(row: AuditRow, op: Op) {
    && op.SetStatus? && row.actor == op.actor && row.target == op.target && row.actor != row.target
    && row.reason == TrimSpace(op.rawReason) && |row.reason| <= 500
    && op.status == (if row.blocked then 0 else 1) && (row.blocked ==> row.reason != "")
  }

  ghost predicate Requested(row: AuditRow, ops: seq<Op>) {
    exists i :: 0 <= i < |ops| && Records(row, ops[i])
  }

  lemma StepAudits(cfg: Config, s: State, op: Op)
    ensures var t := Step(cfg, s, op).state;
      t.audit == s.audit || (|t.audit| == |s.audit| + 1 && t.audit[..|s.audit|] == s.audit && Records(t.audit[|s.audit|], op))
  {
    if op.SetStatus? {
      SetStatusAudits(cfg, s, op);
    } else if !op.Register? {
      OthersLeaveAudit(cfg, s, op);
    }
  }

  /** Every audit row records a request of the run: by the actor it names, about another account, with a reason when blocking. */
  lemma {:induction false} AuditRowsWereRequested(cfg: Config, s: State, ops: seq<Op>, i: nat)
    requires |s.audit| <= i < |Run(cfg, s, ops).audit|
    ensures Requested(Run(cfg, s, ops).audit[i], ops)
    decreases |ops|
  {
    var t := Step(cfg, s, ops[0]).state;
    StepAudits(cfg, s, ops[0]);
    if i < |t.audit| {
      AuditGrows(cfg, t, ops[1..]);
      assert Run(cfg, s, ops).audit[i] == t.audit[i];
      assert Records(t.audit[i], ops[0]);
    } else {
      AuditRowsWereRequested(cfg, t, ops[1..], i);
      var k :| 0 <= k < |ops[1..]| && Records(Run(cfg, s, ops).audit[i], ops[1..][k]);
      assert ops[k + 1] == ops[1..][k];
    }
  }

  lemma {:induction false} AuditGrows(cfg: Config, s: State, ops: seq<Op>)
    ensures s.audit <= Run(cfg, s, ops).audit
    decreases |ops|
  {
    if ops != [] {
      StepAudits(cfg, s, ops[0]);
      AuditGrows(cfg, Step(cfg, s, ops[0]).state, ops[1..]);
    }
  }
}
