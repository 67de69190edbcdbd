/** What every run of the session protocol keeps. */
module SessionTheorems {
  import opened Options
  import opened SessionModel
  import opened Text

  // --- invariants --------------------------------------------------------------------------

  ghost predicate TokensSound(cfg: Config, s: State) {
    forall n :: 0 <= n < |s.issued| ==>
      && s.issued[n].exp <= s.now + cfg.accessTTL
      && s.issued[n].user in s.accounts
  }

  /** Each record belongs to the pair it was minted with and outlives that pair's access token. */
  ghost predicate RecordsSound(cfg: Config, s: State) {
    forall r :: r in s.store.records ==>
      && r.n < |s.issued|
      && s.store.records[r].jti == Jti(r.n)
      && s.store.records[r].user == s.issued[r.n].user
      && s.store.records[r].expires - cfg.refreshTTL == s.issued[r.n].exp - cfg.accessTTL
  }

  /** A live record is a member of its user's index, which expires no earlier than the record. */
  ghost predicate Indexed(s: State) {
    forall r :: LiveRecord(s.store, s.now, r) ==>
      var x := s.store.records[r];
      && x.user in s.store.index
      && r in s.store.index[x.user].keys
      && x.expires <= s.store.index[x.user].expires
  }

  ghost predicate IndexSound(s: State) {
    forall u, r :: u in s.store.index && r in s.store.index[u].keys ==>
      r.n < |s.issued| && s.issued[r.n].user == u
  }

  /** A blacklist entry lasts at least until its token's `exp`. */
  ghost predicate BlacklistSound(s: State) {
    forall j :: j in s.store.revoked ==> j.n < |s.issued| && s.issued[j.n].exp <= s.store.revoked[j]
  }

  /** Neither now nor later: the token has expired, or is blacklisted until it does. */
  ghost predicate Dead(s: State, n: nat)
    requires n < |s.issued|
  {
    s.issued[n].exp <= s.now || Jti(n) in s.store.revoked
  }

  ghost predicate Superseded(s: State, n: nat)
    requires n < |s.issued|
  {
    RefreshToken(n) !in s.store.records && Dead(s, n)
  }

  /** Within one refresh chain only the newest pair can still be used. */
  ghost predicate ChainsLinear(s: State) {
    && (forall n :: 0 <= n < |s.issued| ==> s.issued[n].chain <= n)
    && (forall m, n :: 0 <= m < n < |s.issued| && s.issued[m].chain == s.issued[n].chain ==> Superseded(s, m))
  }

  /** The status an audit log leaves an account in; accounts start out active. */
  ghost function AuditedActive(audit: seq<AuditRow>, u: UserId): bool {
    if audit == [] then true
    else if audit[|audit| - 1].target == u then !audit[|audit| - 1].blocked
    else AuditedActive(audit[..|audit| - 1], u)
  }

  ghost predicate AuditExplains(s: State) {
    && (forall u :: u in s.accounts ==> s.accounts[u].active == AuditedActive(s.audit, u))
    && (forall i :: 0 <= i < |s.audit| ==> s.audit[i].target in s.accounts)
  }

  /** Everything the tokens need. */
  ghost predicate Core(cfg: Config, s: State) {
    && TokensSound(cfg, s)
    && RecordsSound(cfg, s)
    && Indexed(s)
    && IndexSound(s)
    && BlacklistSound(s)
    && ChainsLinear(s)
  }

  ghost predicate Inv(cfg: Config, s: State) {
    Core(cfg, s) && AuditExplains(s)
  }

  /** If the access token is accepted, it still has the session record that can revoke it. */
  ghost predicate Covered(s: State, n: nat)
    requires n < |s.issued|
  {
    Accepts(s, Jti(n)) ==> LiveRecord(s.store, s.now, RefreshToken(n))
  }

  lemma DeadIsNotAccepted(s: State, n: nat)
    requires n < |s.issued| && BlacklistSound(s)
    ensures Dead(s, n) <==> !Accepts(s, Jti(n))
  {}

  // --- one step ----------------------------------------------------------------------------

  ghost predicate Valid(cfg: Config) {
    cfg.accessTTL < cfg.refreshTTL
  }

  lemma IssueKeepsRecords(cfg: Config, s: State, u: UserId, role: string, chain: nat)
    requires RecordsSound(cfg, s) && IndexSound(s)
    ensures var t := IssueSession(cfg, s, u, role, chain).state;
      RecordsSound(cfg, t) && IndexSound(t)
  {}

  lemma IssueKeepsIndexed(cfg: Config, s: State, u: UserId, role: string, chain: nat)
    requires Valid(cfg) && TokensSound(cfg, s) && RecordsSound(cfg, s) && Indexed(s)
    ensures Indexed(IssueSession(cfg, s, u, role, chain).state)
  {}

  lemma IssueKeepsChains(cfg: Config, s: State, u: UserId, role: string, chain: nat)
    requires RecordsSound(cfg, s) && ChainsLinear(s) && chain <= |s.issued|
    requires forall m :: 0 <= m < |s.issued| && s.issued[m].chain == chain ==> Superseded(s, m)
    ensures ChainsLinear(IssueSession(cfg, s, u, role, chain).state)
  {}

  lemma IssueKeepsCore(cfg: Config, s: State, u: UserId, role: string, chain: nat)
    requires Valid(cfg) && Core(cfg, s) && u in s.accounts && chain <= |s.issued|
    requires forall m :: 0 <= m < |s.issued| && s.issued[m].chain == chain ==> Superseded(s, m)
    ensures Core(cfg, IssueSession(cfg, s, u, role, chain).state)
  {
    IssueKeepsRecords(cfg, s, u, role, chain);
    IssueKeepsIndexed(cfg, s, u, role, chain);
    IssueKeepsChains(cfg, s, u, role, chain);
  }

  lemma RevokeKeepsChains(cfg: Config, s: State, j: Jti)
    requires ChainsLinear(s)
    ensures ChainsLinear(s.(store := Revoke(s.store, s.now, j, cfg.accessTTL)))
  {}

  lemma RevokeKeepsIndexed(cfg: Config, s: State, j: Jti)
    requires Indexed(s)
    ensures Indexed(s.(store := Revoke(s.store, s.now, j, cfg.accessTTL)))
  {}

  lemma RevokeKeepsCore(cfg: Config, s: State, j: Jti)
    requires Core(cfg, s) && j.n < |s.issued|
    ensures var t := s.(store := Revoke(s.store, s.now, j, cfg.accessTTL)); Core(cfg, t) && Dead(t, j.n)
  {
    RevokeKeepsChains(cfg, s, j);
    RevokeKeepsIndexed(cfg, s, j);
    var t := s.(store := Revoke(s.store, s.now, j, cfg.accessTTL));
    assert s.issued[j.n].exp <= s.now + cfg.accessTTL;
    assert BlacklistSound(t);
  }

  lemma DeleteKeepsChains(s: State, r: RefreshToken, u: UserId)
    requires ChainsLinear(s)
    ensures ChainsLinear(s.(store := Delete(s.store, s.now, r, u)))
  {}

  lemma DeleteKeepsIndexed(s: State, r: RefreshToken, u: UserId)
    requires Indexed(s)
    ensures Indexed(s.(store := Delete(s.store, s.now, r, u)))
  {}

  lemma DeleteKeepsCore(cfg: Config, s: State, r: RefreshToken, u: UserId)
    requires Core(cfg, s)
    ensures Core(cfg, s.(store := Delete(s.store, s.now, r, u)))
  {
    DeleteKeepsChains(s, r, u);
    DeleteKeepsIndexed(s, r, u);
  }

  lemma RevokeAllEndsEverySession(cfg: Config, s: State, u: UserId)
    requires RecordsSound(cfg, s) && Indexed(s)
    ensures var t := s.(store := RevokeAll(s.store, s.now, u, cfg.accessTTL));
      forall r :: LiveRecord(t.store, t.now, r) ==>
        LiveRecord(s.store, s.now, r) && t.store.records[r] == s.store.records[r] && s.store.records[r].user != u
  {}

  lemma RevokeAllKeepsRecords(cfg: Config, s: State, u: UserId)
    requires RecordsSound(cfg, s) && Indexed(s) && IndexSound(s)
    ensures var t := s.(store := RevokeAll(s.store, s.now, u, cfg.accessTTL));
      RecordsSound(cfg, t) && Indexed(t) && IndexSound(t)
  {}

  /** The jtis a mass revocation blacklists are those of the account's own live records. */
  lemma RevokeAllBlacklists(cfg: Config, s: State, u: UserId)
    requires TokensSound(cfg, s) && RecordsSound(cfg, s) && Indexed(s) && IndexSound(s) && BlacklistSound(s)
    ensures var t := s.(store := RevokeAll(s.store, s.now, u, cfg.accessTTL));
      && BlacklistSound(t)
      && (forall j :: j in s.store.revoked ==> j in t.store.revoked)
      && (forall r :: LiveRecord(s.store, s.now, r) && s.store.records[r].user == u ==> Dead(t, r.n))
  {}

  lemma RevokeAllKeepsCore(cfg: Config, s: State, u: UserId)
    requires Core(cfg, s)
    ensures Core(cfg, s.(store := RevokeAll(s.store, s.now, u, cfg.accessTTL)))
  {
    RevokeAllKeepsRecords(cfg, s, u);
    RevokeAllBlacklists(cfg, s, u);
  }

  lemma TickKeeps(cfg: Config, s: State, ticks: nat)
    requires Core(cfg, s)
    ensures Core(cfg, s.(now := s.now + ticks))
  {
    var t := s.(now := s.now + ticks);
    assert forall r :: LiveRecord(t.store, t.now, r) ==> LiveRecord(s.store, s.now, r);
    forall m | 0 <= m < |s.issued| && Superseded(s, m)
      ensures Superseded(t, m)
    {}
  }

  lemma RefreshKeeps(cfg: Config, s: State, r: RefreshToken)
    requires Valid(cfg) && Core(cfg, s)
    ensures Core(cfg, StepRefresh(cfg, s, r).state)
  {
    if LiveRecord(s.store, s.now, r) {
      var sess := s.store.records[r];
      var revoked := s.(store := Revoke(s.store, s.now, sess.jti, cfg.accessTTL));
      var rotated := revoked.(store := Delete(revoked.store, s.now, r, sess.user));
      assert rotated.store == Revoke(Delete(s.store, s.now, r, sess.user), s.now, sess.jti, cfg.accessTTL);
      RevokeKeepsCore(cfg, s, sess.jti);
      DeleteKeepsCore(cfg, revoked, r, sess.user);
      RotationSupersedesTheChain(cfg, s, r, rotated);
      IssueKeepsCore(cfg, rotated, sess.user, sess.role, ChainOf(s, r));
    }
  }

  lemma RotationSupersedesTheChain(cfg: Config, s: State, r: RefreshToken, t: State)
    requires Core(cfg, s) && LiveRecord(s.store, s.now, r)
    requires t.issued == s.issued && t.now == s.now
    requires t.store.records == s.store.records - {r}
    requires forall j :: j in s.store.revoked ==> j in t.store.revoked
    requires Dead(t, r.n)
    ensures forall m :: 0 <= m < |t.issued| && t.issued[m].chain == s.issued[r.n].chain ==> Superseded(t, m)
  {}

  lemma LogoutKeeps(cfg: Config, s: State, access: Jti, refresh: Option<RefreshToken>)
    requires Core(cfg, s)
    ensures Core(cfg, StepLogout(cfg, s, access, refresh).state)
  {
    if Accepts(s, access) {
      var revoked := s.(store := Revoke(s.store, s.now, access, cfg.accessTTL));
      RevokeKeepsCore(cfg, s, access);
      if refresh.Some? {
        DeleteKeepsCore(cfg, revoked, refresh.value, s.issued[access.n].user);
      }
    }
  }

  lemma ChangePasswordKeeps(cfg: Config, s: State, caller: Jti, ok: bool)
    requires Core(cfg, s)
    ensures Core(cfg, StepChangePassword(cfg, s, caller, ok).state)
  {
    if Accepts(s, caller) {
      var u := s.issued[caller.n].user;
      var ended := s.(store := RevokeAll(s.store, s.now, u, cfg.accessTTL));
      RevokeAllKeepsCore(cfg, s, u);
      RevokeKeepsCore(cfg, ended, caller);
    }
  }

  /** Neither the audit log nor an account's own row matters to the tokens. */
  lemma CoreIgnoresAccounts(cfg: Config, s: State, t: State)
    requires t.now == s.now && t.store == s.store && t.issued == s.issued && s.accounts.Keys <= t.accounts.Keys
    ensures Core(cfg, s) ==> Core(cfg, t)
  {
    if Core(cfg, s) {
      forall m | 0 <= m < |s.issued| && Superseded(s, m)
        ensures Superseded(t, m)
      {}
      assert forall r :: LiveRecord(t.store, t.now, r) == LiveRecord(s.store, s.now, r);
    }
  }

  lemma SetStatusKeeps(
      cfg: Config, s: State, actor: UserId, target: UserId, status: int, reason: string, works: bool)
    requires Core(cfg, s)
    ensures Core(cfg, StepSetStatus(cfg, s, actor, target, status, reason, works).state)
  {
    if StatusRefusal(s, actor, target, status, reason).None? {
      var applied := ApplyStatus(s, actor, target, status, reason);
      CoreIgnoresAccounts(cfg, s, applied);
      RevokeAllKeepsCore(cfg, applied, target);
    }
  }

  lemma {:induction false} NeverAudited(audit: seq<AuditRow>, u: UserId)
    ensures (forall i :: 0 <= i < |audit| ==> audit[i].target != u) ==> AuditedActive(audit, u)
  {
    if audit != [] { NeverAudited(audit[..|audit| - 1], u); }
  }

  lemma ApplyKeepsAudit(s: State, actor: UserId, target: UserId, status: int, reason: string)
    requires AuditExplains(s) && target in s.accounts && (status == STATUS_ACTIVE || status == STATUS_BLOCKED)
    ensures AuditExplains(ApplyStatus(s, actor, target, status, reason))
  {}

  /** Only a status change and a registration touch what the audit explains. */
  lemma OthersLeaveAudit(cfg: Config, s: State, op: Op)
    requires !op.SetStatus? && !op.Register?
    ensures var t := Step(cfg, s, op).state; t.audit == s.audit && t.accounts == s.accounts
  {}

  lemma SetStatusAudits(cfg: Config, s: State, op: Op)
    requires op.SetStatus?
    ensures var t := Step(cfg, s, op).state;
      var reason := TrimSpace(op.rawReason);
      if StatusRefusal(s, op.actor, op.target, op.status, reason).Some? then t == s
      else
        var applied := ApplyStatus(s, op.actor, op.target, op.status, reason);
        t.audit == applied.audit && t.accounts == applied.accounts
  {}

  lemma StepKeepsAudit(cfg: Config, s: State, op: Op)
    requires AuditExplains(s)
    ensures AuditExplains(Step(cfg, s, op).state)
  {
    if op.SetStatus? {
      var reason := TrimSpace(op.rawReason);
      SetStatusAudits(cfg, s, op);
      if StatusRefusal(s, op.actor, op.target, op.status, reason).None? {
        ApplyKeepsAudit(s, op.actor, op.target, op.status, reason);
      }
    } else if op.Register? {
      NeverAudited(s.audit, op.user);
    } else {
      OthersLeaveAudit(cfg, s, op);
    }
  }

  lemma SignInKeeps(cfg: Config, s: State, u: UserId, verified: bool)
    requires Valid(cfg) && Core(cfg, s)
    ensures Core(cfg, StepSignIn(cfg, s, u, verified).state)
  {
    if verified && u in s.accounts && s.accounts[u].active {
      IssueKeepsCore(cfg, s, u, s.accounts[u].role, |s.issued|);
    }
  }

  lemma TokenStepKeepsCore(cfg: Config, s: State, op: Op)
    requires Valid(cfg) && Core(cfg, s) && (op.Tick? || op.Register? || op.SignIn? || op.Refresh?)
    ensures Core(cfg, Step(cfg, s, op).state)
  {
    match op
    case Tick(ticks) => TickKeeps(cfg, s, ticks);
    case Register(u, role) => CoreIgnoresAccounts(cfg, s, Step(cfg, s, op).state);
    case SignIn(u, verified) => SignInKeeps(cfg, s, u, verified);
    case Refresh(r) => RefreshKeeps(cfg, s, r);
  }

  lemma RevokingStepKeepsCore(cfg: Config, s: State, op: Op)
    requires Valid(cfg) && Core(cfg, s) && (op.Logout? || op.ChangePassword? || op.SetStatus?)
    ensures Core(cfg, Step(cfg, s, op).state)
  {
    match op
    case Logout(access, refresh) => LogoutKeeps(cfg, s, access, refresh);
    case ChangePassword(caller, ok) => ChangePasswordKeeps(cfg, s, caller, ok);
    case SetStatus(actor, target, status, reason, works) =>
      SetStatusKeeps(cfg, s, actor, target, status, TrimSpace(reason), works);
  }

  lemma StepKeepsCore(cfg: Config, s: State, op: Op)
    requires Valid(cfg) && Core(cfg, s)
    ensures Core(cfg, Step(cfg, s, op).state)
  {
    if op.Logout? || op.ChangePassword? || op.SetStatus? {
      RevokingStepKeepsCore(cfg, s, op);
    } else {
      TokenStepKeepsCore(cfg, s, op);
    }
  }

  // --- how an accepted token loses its session ---------------------------------------------

  /** The refresh token a logout carries resolves to a live session of the caller's own account. */
  predicate NamesOwnSession(s: State, access: Jti, refresh: Option<RefreshToken>) {
    && Accepts(s, access)
    && refresh.Some?
    && LiveRecord(s.store, s.now, refresh.value)
    && s.store.records[refresh.value].user == s.issued[access.n].user
  }

  /** A logout with another token of the account drops the session of token n, which stays accepted. */
  predicate Crosses(s: State, op: Op, n: nat) {
    && op.Logout? && op.refresh == Some(RefreshToken(n)) && op.access != Jti(n)
    && NamesOwnSession(s, op.access, op.refresh) && Accepts(s, Jti(n))
  }

  predicate CrossedIn(cfg: Config, s: State, ops: seq<Op>, n: nat)
    decreases |ops|
  {
    ops != [] && (Crosses(s, ops[0], n) || CrossedIn(cfg, Step(cfg, s, ops[0]).state, ops[1..], n))
  }

  lemma TickCovers(cfg: Config, s: State, ticks: nat, n: nat)
    requires Valid(cfg) && RecordsSound(cfg, s) && BlacklistSound(s) && n < |s.issued| && Covered(s, n)
    ensures Covered(s.(now := s.now + ticks), n)
  {}

  lemma IssueCovers(cfg: Config, s: State, u: UserId, role: string, chain: nat, n: nat)
    requires Valid(cfg) && n <= |s.issued| && (n < |s.issued| ==> Covered(s, n))
    ensures Covered(IssueSession(cfg, s, u, role, chain).state, n)
  {}

  lemma RevokeCovers(cfg: Config, s: State, j: Jti, n: nat)
    requires TokensSound(cfg, s) && n < |s.issued| && Covered(s, n)
    ensures var t := s.(store := Revoke(s.store, s.now, j, cfg.accessTTL));
      Covered(t, n) && (j == Jti(n) ==> !Accepts(t, Jti(n))) && (j != Jti(n) ==> Accepts(t, Jti(n)) == Accepts(s, Jti(n)))
  {}

  lemma DeleteCovers(s: State, r: RefreshToken, u: UserId, n: nat)
    requires n < |s.issued| && Covered(s, n)
    ensures Covered(s.(store := Delete(s.store, s.now, r, u)), n) <==> r != RefreshToken(n) || !Accepts(s, Jti(n))
  {}

  lemma RevokeAllCovers(cfg: Config, s: State, u: UserId, n: nat)
    requires Core(cfg, s) && n < |s.issued| && Covered(s, n)
    ensures Covered(s.(store := RevokeAll(s.store, s.now, u, cfg.accessTTL)), n)
  {
    RevokeAllBlacklists(cfg, s, u);
    var t := s.(store := RevokeAll(s.store, s.now, u, cfg.accessTTL));
    DeadIsNotAccepted(s, n);
    DeadIsNotAccepted(t, n);
  }

  lemma RefreshCovers(cfg: Config, s: State, r: RefreshToken, n: nat)
    requires Valid(cfg) && Core(cfg, s) && n < |s.issued| && Covered(s, n)
    ensures Covered(StepRefresh(cfg, s, r).state, n)
  {
    if LiveRecord(s.store, s.now, r) {
      var sess := s.store.records[r];
      var revoked := s.(store := Revoke(s.store, s.now, sess.jti, cfg.accessTTL));
      var rotated := revoked.(store := Delete(revoked.store, s.now, r, sess.user));
      assert rotated.store == Revoke(Delete(s.store, s.now, r, sess.user), s.now, sess.jti, cfg.accessTTL);
      RevokeCovers(cfg, s, sess.jti, n);
      DeleteCovers(revoked, r, sess.user, n);
      IssueCovers(cfg, rotated, sess.user, sess.role, ChainOf(s, r), n);
    }
  }

  /** A logout costs an accepted token its session exactly when it crosses it. */
  lemma LogoutCoverage(cfg: Config, s: State, access: Jti, refresh: Option<RefreshToken>, n: nat)
    requires Core(cfg, s) && n < |s.issued| && Covered(s, n)
    ensures Covered(StepLogout(cfg, s, access, refresh).state, n) <==> !Crosses(s, Logout(access, refresh), n)
  {
    if Accepts(s, access) {
      var revoked := s.(store := Revoke(s.store, s.now, access, cfg.accessTTL));
      RevokeCovers(cfg, s, access, n);
      if refresh.Some? { DeleteCovers(revoked, refresh.value, s.issued[access.n].user, n); }
    }
  }

  lemma ChangePasswordCovers(cfg: Config, s: State, caller: Jti, ok: bool, n: nat)
    requires Core(cfg, s) && n < |s.issued| && Covered(s, n)
    ensures Covered(StepChangePassword(cfg, s, caller, ok).state, n)
  {
    if Accepts(s, caller) {
      var u := s.issued[caller.n].user;
      var ended := s.(store := RevokeAll(s.store, s.now, u, cfg.accessTTL));
      RevokeAllCovers(cfg, s, u, n);
      RevokeAllKeepsCore(cfg, s, u);
      RevokeCovers(cfg, ended, caller, n);
    }
  }

  lemma SetStatusCovers(
      cfg: Config, s: State, actor: UserId, target: UserId, status: int, reason: string, works: bool, n: nat)
    requires Core(cfg, s) && n < |s.issued| && Covered(s, n)
    ensures Covered(StepSetStatus(cfg, s, actor, target, status, reason, works).state, n)
  {
    if StatusRefusal(s, actor, target, status, reason).None? {
      var applied := ApplyStatus(s, actor, target, status, reason);
      CoreIgnoresAccounts(cfg, s, applied);
      RevokeAllCovers(cfg, applied, target, n);
    }
  }

  /** Any step costs an accepted token its session exactly when it is a logout that crosses it. */
  lemma StepCovers(cfg: Config, s: State, op: Op, n: nat)
    requires Valid(cfg) && Core(cfg, s) && n < |s.issued| && Covered(s, n)
    ensures n < |Step(cfg, s, op).state.issued|
    ensures Covered(Step(cfg, s, op).state, n) <==> !Crosses(s, op, n)
  {
    match op
    case Tick(ticks) => TickCovers(cfg, s, ticks, n);
    case Register(u, role) =>
    case SignIn(u, verified) =>
      if verified && u in s.accounts && s.accounts[u].active { IssueCovers(cfg, s, u, s.accounts[u].role, |s.issued|, n); }
    case Refresh(r) => RefreshCovers(cfg, s, r, n);
    case Logout(access, refresh) => LogoutCoverage(cfg, s, access, refresh, n);
    case ChangePassword(caller, ok) => ChangePasswordCovers(cfg, s, caller, ok, n);
    case SetStatus(actor, target, status, reason, works) =>
      SetStatusCovers(cfg, s, actor, target, status, TrimSpace(reason), works, n);
  }

  lemma StepKeeps(cfg: Config, s: State, op: Op)
    requires Valid(cfg) && Inv(cfg, s)
    ensures Inv(cfg, Step(cfg, s, op).state)
  {
    StepKeepsCore(cfg, s, op);
    StepKeepsAudit(cfg, s, op);
  }

  lemma {:induction false} RunKeeps(cfg: Config, s: State, ops: seq<Op>)
    requires Valid(cfg) && Inv(cfg, s)
    ensures Inv(cfg, Run(cfg, s, ops))
    decreases |ops|
  {
    if ops != [] {
      StepKeeps(cfg, s, ops[0]);
      RunKeeps(cfg, Step(cfg, s, ops[0]).state, ops[1..]);
    }
  }

  // --- what a step never undoes ------------------------------------------------------------

  /** Tokens stay issued, the clock and the blacklist only grow. */
  ghost predicate Extends(s: State, t: State) {
    && s.now <= t.now
    && |s.issued| <= |t.issued|
    && (forall n :: 0 <= n < |s.issued| ==> t.issued[n] == s.issued[n])
    && s.store.revoked.Keys <= t.store.revoked.Keys
    && s.accounts.Keys <= t.accounts.Keys
  }

  lemma StepExtends(cfg: Config, s: State, op: Op)
    ensures Extends(s, Step(cfg, s, op).state)
  {}

  lemma {:induction false} RunExtends(cfg: Config, s: State, ops: seq<Op>)
    ensures Extends(s, Run(cfg, s, ops))
    decreases |ops|
  {
    if ops != [] {
      StepExtends(cfg, s, ops[0]);
      RunExtends(cfg, Step(cfg, s, ops[0]).state, ops[1..]);
    }
  }

  /** The pair's refresh token can never be exchanged again. */
  ghost predicate Spent(s: State, n: nat) {
    n < |s.issued| && !LiveRecord(s.store, s.now, RefreshToken(n))
  }

  lemma StepKeepsSpent(cfg: Config, s: State, op: Op, n: nat)
    requires Spent(s, n)
    ensures Spent(Step(cfg, s, op).state, n)
  {}

  lemma {:induction false} RunKeepsSpent(cfg: Config, s: State, ops: seq<Op>, n: nat)
    requires Spent(s, n)
    ensures Spent(Run(cfg, s, ops), n)
    decreases |ops|
  {
    if ops != [] {
      StepKeepsSpent(cfg, s, ops[0], n);
      RunKeepsSpent(cfg, Step(cfg, s, ops[0]).state, ops[1..], n);
    }
  }

  // --- reachable states --------------------------------------------------------------------

  lemma Reachable(cfg: Config, start: int, ops: seq<Op>)
    requires Valid(cfg)
    ensures Inv(cfg, Run(cfg, Init(start), ops))
  {
    RunKeeps(cfg, Init(start), ops);
  }

  lemma StepIssuesCovered(cfg: Config, s: State, op: Op)
    requires Valid(cfg) && Core(cfg, s)
    ensures var t := Step(cfg, s, op).state;
      |t.issued| <= |s.issued| + 1 && (|t.issued| > |s.issued| ==> Covered(t, |s.issued|))
  {}

  lemma NextCovers(cfg: Config, s: State, op: Op, n: nat)
    requires Valid(cfg) && Core(cfg, s) && (n < |s.issued| ==> Covered(s, n)) && !Crosses(s, op, n)
    ensures var t := Step(cfg, s, op).state; n < |t.issued| ==> Covered(t, n)
  {
    if n < |s.issued| { StepCovers(cfg, s, op, n); } else { StepIssuesCovered(cfg, s, op); }
  }

  /** A token no logout crosses keeps its session for as long as it is accepted. */
  lemma {:induction false} RunCovers(cfg: Config, s: State, ops: seq<Op>, n: nat)
    requires Valid(cfg) && Inv(cfg, s) && (n < |s.issued| ==> Covered(s, n)) && !CrossedIn(cfg, s, ops, n)
    ensures var t := Run(cfg, s, ops); n < |t.issued| ==> Covered(t, n)
    decreases |ops|
  {
    if ops != [] {
      StepKeeps(cfg, s, ops[0]);
      NextCovers(cfg, s, ops[0], n);
      RunCovers(cfg, Step(cfg, s, ops[0]).state, ops[1..], n);
    }
  }

  /** A crossed token never has a session again. */
  lemma {:induction false} CrossedIsSpent(cfg: Config, s: State, ops: seq<Op>, n: nat)
    requires CrossedIn(cfg, s, ops, n)
    ensures Spent(Run(cfg, s, ops), n)
    decreases |ops|
  {
    var t := Step(cfg, s, ops[0]).state;
    if Crosses(s, ops[0], n) {
      RunKeepsSpent(cfg, t, ops[1..], n);
    } else {
      CrossedIsSpent(cfg, t, ops[1..], n);
    }
  }

  lemma {:induction false} PairedNeverCrosses(cfg: Config, s: State, ops: seq<Op>, n: nat)
    requires Valid(cfg) && Inv(cfg, s) && PairedRun(cfg, s, ops)
    ensures !CrossedIn(cfg, s, ops, n)
    decreases |ops|
  {
    if ops != [] {
      StepKeeps(cfg, s, ops[0]);
      PairedNeverCrosses(cfg, Step(cfg, s, ops[0]).state, ops[1..], n);
    }
  }

  /** In every run, an accepted token has lost its session exactly when some logout crossed it. */
  lemma SessionLostIff(cfg: Config, start: int, ops: seq<Op>, n: nat)
    requires Valid(cfg) && Accepts(Run(cfg, Init(start), ops), Jti(n))
    ensures var s := Run(cfg, Init(start), ops);
      !LiveRecord(s.store, s.now, RefreshToken(n)) <==> CrossedIn(cfg, Init(start), ops, n)
  {
    if CrossedIn(cfg, Init(start), ops, n) {
      CrossedIsSpent(cfg, Init(start), ops, n);
    } else {
      RunCovers(cfg, Init(start), ops, n);
    }
  }

  /**
   In every reachable state an accepted access token no logout has crossed has a live record
   carrying its jti, held in its user's index, and the index expires no earlier than that record.
   */
  lemma AcceptedTokenHasSession(cfg: Config, start: int, ops: seq<Op>, j: Jti)
    requires Valid(cfg) && Accepts(Run(cfg, Init(start), ops), j)
    ensures PairedRun(cfg, Init(start), ops) ==> !CrossedIn(cfg, Init(start), ops, j.n)
    ensures var s := Run(cfg, Init(start), ops);
      var r := RefreshToken(j.n);
      !CrossedIn(cfg, Init(start), ops, j.n) ==>
        LiveRecord(s.store, s.now, r) &&
        var x := s.store.records[r];
        && x.jti == j
        && x.user == s.issued[j.n].user
        && s.issued[j.n].exp < x.expires
        && LiveIndex(s.store, s.now, x.user)
        && r in s.store.index[x.user].keys
        && x.expires <= s.store.index[x.user].expires
  {
    Reachable(cfg, start, ops);
    assert j == Jti(j.n);
    SessionLostIff(cfg, start, ops, j.n);
    if PairedRun(cfg, Init(start), ops) { PairedNeverCrosses(cfg, Init(start), ops, j.n); }
  }

  /** Once an issued token is refused, no later run accepts it: unblocking or re-login revives nothing. */
  lemma RefusedForever(cfg: Config, start: int, before: seq<Op>, after: seq<Op>, n: nat)
    requires Valid(cfg)
    requires var s := Run(cfg, Init(start), before); n < |s.issued| && !Accepts(s, Jti(n))
    ensures !Accepts(Run(cfg, Run(cfg, Init(start), before), after), Jti(n))
  {
    Reachable(cfg, start, before);
    RefusedStaysRefused(cfg, Run(cfg, Init(start), before), after, n);
  }

  /** A refresh token mints at most once: presented again after any run, it is refused. */
  lemma UsedRefreshNeverMints(cfg: Config, start: int, before: seq<Op>, r: RefreshToken, after: seq<Op>)
    requires Valid(cfg)
    requires Step(cfg, Run(cfg, Init(start), before), Refresh(r)).out.Pair?
    ensures var used := Step(cfg, Run(cfg, Init(start), before), Refresh(r)).state;
      Step(cfg, Run(cfg, used, after), Refresh(r)).out == Refused(Unauthorized)
  {
    Reachable(cfg, start, before);
    assert r == RefreshToken(r.n);
    RunKeepsSpent(cfg, Step(cfg, Run(cfg, Init(start), before), Refresh(r)).state, after, r.n);
  }

  /** Each sign-in's chain has one usable pair at most: the refresh token and access token of an older one are gone. */
  lemma OnePairPerChain(cfg: Config, start: int, ops: seq<Op>, older: nat, newer: nat)
    requires Valid(cfg)
    requires var s := Run(cfg, Init(start), ops);
      older < newer < |s.issued| && s.issued[older].chain == s.issued[newer].chain
    ensures var s := Run(cfg, Init(start), ops);
      && !LiveRecord(s.store, s.now, RefreshToken(older))
      && !Accepts(s, Jti(older))
  {
    Reachable(cfg, start, ops);
    DeadIsNotAccepted(Run(cfg, Init(start), ops), older);
  }

  /** A refresh continues the chain of the pair it consumes; every other way in starts a new one. */
  lemma ChainStarts(cfg: Config, start: int, ops: seq<Op>, op: Op)
    requires Valid(cfg) && Step(cfg, Run(cfg, Init(start), ops), op).out.Pair?
    ensures var s := Run(cfg, Init(start), ops);
      var t := Step(cfg, s, op).state;
      && |t.issued| == |s.issued| + 1
      && Step(cfg, s, op).out.n == |s.issued|
      && (op.Refresh? ==> op.token.n < |s.issued| && t.issued[|s.issued|].chain == s.issued[op.token.n].chain)
      && (!op.Refresh? ==> t.issued[|s.issued|].chain == |s.issued|)
  {
    Reachable(cfg, start, ops);
  }

  // --- blocking ----------------------------------------------------------------------------

  /** The account can neither sign in nor refresh. */
  ghost predicate NoWayIn(s: State, u: UserId) {
    && u in s.accounts && !s.accounts[u].active
    && (forall r :: LiveRecord(s.store, s.now, r) ==> s.store.records[r].user != u)
  }

  predicate Unblocks(op: Op, u: UserId) {
    op.SetStatus? && op.target == u && op.status == STATUS_ACTIVE
  }

  /** No pair issued between the two states is the account's. */
  ghost predicate NothingIssued(s: State, t: State, u: UserId) {
    |s.issued| <= |t.issued| && forall n :: |s.issued| <= n < |t.issued| ==> t.issued[n].user != u
  }

  lemma NoWayInMintsNothing(cfg: Config, s: State, u: UserId, op: Op)
    requires NoWayIn(s, u)
    ensures var o := Step(cfg, s, op);
      NothingIssued(s, o.state, u) && (o.out.Pair? ==> o.out.n == |s.issued| && |o.state.issued| == |s.issued| + 1)
  {}

  lemma StepKeepsNoWayIn(cfg: Config, s: State, u: UserId, op: Op)
    requires NoWayIn(s, u) && !Unblocks(op, u)
    ensures NoWayIn(Step(cfg, s, op).state, u)
  {
    var t := Step(cfg, s, op).state;
    forall r | LiveRecord(t.store, t.now, r)
      ensures t.store.records[r].user != u
    {
      if r != RefreshToken(|s.issued|) { assert LiveRecord(s.store, s.now, r); }
    }
  }

  lemma {:induction false} RunKeepsNoWayIn(cfg: Config, s: State, u: UserId, ops: seq<Op>)
    requires NoWayIn(s, u) && forall i :: 0 <= i < |ops| ==> !Unblocks(ops[i], u)
    ensures NoWayIn(Run(cfg, s, ops), u) && NothingIssued(s, Run(cfg, s, ops), u)
    decreases |ops|
  {
    if ops != [] {
      var t := Step(cfg, s, ops[0]).state;
      StepKeepsNoWayIn(cfg, s, u, ops[0]);
      NoWayInMintsNothing(cfg, s, u, ops[0]);
      RunKeepsNoWayIn(cfg, t, u, ops[1..]);
      RunExtends(cfg, t, ops[1..]);
    }
  }

  /** What a successful block leaves alive: exactly the accepted tokens that had lost their session record. */
  lemma BlockEndsExactlyTheCovered(
      cfg: Config, start: int, ops: seq<Op>, actor: UserId, u: UserId, reason: string, n: nat)
    requires Valid(cfg)
    requires var s := Run(cfg, Init(start), ops);
      && Step(cfg, s, SetStatus(actor, u, STATUS_BLOCKED, reason, true)).out == Done
      && n < |s.issued| && s.issued[n].user == u
    ensures var s := Run(cfg, Init(start), ops);
      var t := Step(cfg, s, SetStatus(actor, u, STATUS_BLOCKED, reason, true)).state;
      Accepts(t, Jti(n)) <==> Accepts(s, Jti(n)) && !LiveRecord(s.store, s.now, RefreshToken(n))
  {
    var s := Run(cfg, Init(start), ops);
    Reachable(cfg, start, ops);
    MassRevocationEndsExactlyTheCovered(cfg, s, u, n);
    assert StatusRefusal(s, actor, u, STATUS_BLOCKED, TrimSpace(reason)).None?;
    var t := Step(cfg, s, SetStatus(actor, u, STATUS_BLOCKED, reason, true)).state;
    assert t.store == RevokeAll(s.store, s.now, u, cfg.accessTTL) && t.issued == s.issued && t.now == s.now;
  }

  lemma MassRevocationEndsExactlyTheCovered(cfg: Config, s: State, u: UserId, n: nat)
    requires Core(cfg, s) && n < |s.issued| && s.issued[n].user == u
    ensures Accepts(s.(store := RevokeAll(s.store, s.now, u, cfg.accessTTL)), Jti(n)) <==>
            Accepts(s, Jti(n)) && !LiveRecord(s.store, s.now, RefreshToken(n))
  {}

  lemma BlockShutsOut(cfg: Config, s: State, actor: UserId, u: UserId, reason: string)
    requires Inv(cfg, s)
    requires Step(cfg, s, SetStatus(actor, u, STATUS_BLOCKED, reason, true)).out == Done
    ensures var t := Step(cfg, s, SetStatus(actor, u, STATUS_BLOCKED, reason, true)).state;
      NoWayIn(t, u) && t.issued == s.issued
  {
    var applied := ApplyStatus(s, actor, u, STATUS_BLOCKED, TrimSpace(reason));
    RevokeAllEndsEverySession(cfg, applied, u);
  }

  /** A token of the account accepted after the block was accepted before it, and crossed. */
  lemma AcceptedAfterBlockWasCrossed(
      cfg: Config, start: int, before: seq<Op>, actor: UserId, u: UserId, reason: string, after: seq<Op>, n: nat)
    requires Valid(cfg)
    requires var s := Run(cfg, Init(start), before);
      n < |s.issued| && s.issued[n].user == u && Step(cfg, s, SetStatus(actor, u, STATUS_BLOCKED, reason, true)).out == Done
    ensures var s := Run(cfg, Init(start), before);
      var t := Run(cfg, Step(cfg, s, SetStatus(actor, u, STATUS_BLOCKED, reason, true)).state, after);
      Accepts(t, Jti(n)) ==> Accepts(s, Jti(n)) && CrossedIn(cfg, Init(start), before, n)
  {
    var s, op := Run(cfg, Init(start), before), SetStatus(actor, u, STATUS_BLOCKED, reason, true);
    var blocked := Step(cfg, s, op).state;
    Reachable(cfg, start, before);
    StepKeeps(cfg, s, op);
    StepExtends(cfg, s, op);
    BlockEndsExactlyTheCovered(cfg, start, before, actor, u, reason, n);
    RefusedStaysRefused(cfg, blocked, after, n);
    if Accepts(s, Jti(n)) { SessionLostIff(cfg, start, before, n); }
  }

  lemma RefusedStaysRefused(cfg: Config, s: State, ops: seq<Op>, n: nat)
    requires Valid(cfg) && Inv(cfg, s) && n < |s.issued|
    ensures !Accepts(s, Jti(n)) ==> !Accepts(Run(cfg, s, ops), Jti(n))
  {
    RunKeeps(cfg, s, ops);
    RunExtends(cfg, s, ops);
    DeadIsNotAccepted(s, n);
    DeadIsNotAccepted(Run(cfg, s, ops), n);
  }

  /**
   From a successful block until the next unblock, whatever else happens, no step answers with a
   token pair for the account, and the only tokens of it still accepted are those that a logout
   had crossed before the block; so none, if logouts were paired.
   */
  lemma BlockLocksOut(
      cfg: Config, start: int, before: seq<Op>, actor: UserId, u: UserId, reason: string, after: seq<Op>, next: Op)
    requires Valid(cfg)
    requires Step(cfg, Run(cfg, Init(start), before), SetStatus(actor, u, STATUS_BLOCKED, reason, true)).out == Done
    requires forall i :: 0 <= i < |after| ==> !Unblocks(after[i], u)
    ensures var s := Run(cfg, Init(start), before);
      var t := Run(cfg, Step(cfg, s, SetStatus(actor, u, STATUS_BLOCKED, reason, true)).state, after);
      && (var o := Step(cfg, t, next);
          o.out.Pair? ==> o.out.n < |o.state.issued| && o.state.issued[o.out.n].user != u)
      && (forall n: nat :: Accepts(t, Jti(n)) && t.issued[n].user == u ==>
            Accepts(s, Jti(n)) && CrossedIn(cfg, Init(start), before, n))
      && (PairedRun(cfg, Init(start), before) ==> forall n: nat :: Accepts(t, Jti(n)) ==> t.issued[n].user != u)
  {
    var s, op := Run(cfg, Init(start), before), SetStatus(actor, u, STATUS_BLOCKED, reason, true);
    var blocked := Step(cfg, s, op).state;
    Reachable(cfg, start, before);
    BlockShutsOut(cfg, s, actor, u, reason);
    RunKeepsNoWayIn(cfg, blocked, u, after);
    RunExtends(cfg, blocked, after);
    var t := Run(cfg, blocked, after);
    NoWayInMintsNothing(cfg, t, u, next);
    forall n: nat | Accepts(t, Jti(n)) && t.issued[n].user == u
      ensures Accepts(s, Jti(n)) && CrossedIn(cfg, Init(start), before, n) && !PairedRun(cfg, Init(start), before)
    {
      AcceptedAfterBlockWasCrossed(cfg, start, before, actor, u, reason, after, n);
      if PairedRun(cfg, Init(start), before) { PairedNeverCrosses(cfg, Init(start), before, n); }
    }
  }

  /**
   Nor does the unblock bring anything back: the refresh tokens issued before the block stay
   refused in every later run, and so do the access tokens no logout had crossed.
   */
  lemma BlockedTokensStayRefused(
      cfg: Config, start: int, before: seq<Op>, actor: UserId, u: UserId, reason: string, after: seq<Op>, n: nat)
    requires Valid(cfg)
    requires Step(cfg, Run(cfg, Init(start), before), SetStatus(actor, u, STATUS_BLOCKED, reason, true)).out == Done
    requires var s := Run(cfg, Init(start), before); n < |s.issued| && s.issued[n].user == u
    ensures var s := Run(cfg, Init(start), before);
      var t := Run(cfg, Step(cfg, s, SetStatus(actor, u, STATUS_BLOCKED, reason, true)).state, after);
      && Step(cfg, t, Refresh(RefreshToken(n))).out == Refused(Unauthorized)
      && (!CrossedIn(cfg, Init(start), before, n) ==> !Accepts(t, Jti(n)))
  {
    var s, op := Run(cfg, Init(start), before), SetStatus(actor, u, STATUS_BLOCKED, reason, true);
    Reachable(cfg, start, before);
    BlockShutsOut(cfg, s, actor, u, reason);
    StepKeeps(cfg, s, op);
    AcceptedAfterBlockWasCrossed(cfg, start, before, actor, u, reason, after, n);
    SpentAfterBlock(cfg, Step(cfg, s, op).state, u, n);
    RunKeepsSpent(cfg, Step(cfg, s, op).state, after, n);
  }

  lemma SpentAfterBlock(cfg: Config, s: State, u: UserId, n: nat)
    requires RecordsSound(cfg, s) && NoWayIn(s, u) && n < |s.issued| && s.issued[n].user == u
    ensures Spent(s, n)
  {}

  // --- a block whose revocation failed -----------------------------------------------------

  /**
   Retrying a block whose revocation failed never revokes anything: until an unblock, every
   further block of that account is refused before the sessions are reached.
   */
  lemma RetriedBlockNeverRevokes(
      cfg: Config, s: State, actor: UserId, u: UserId, reason: string, after: seq<Op>,
      retrier: UserId, again: string, works: bool)
    requires Step(cfg, s, SetStatus(actor, u, STATUS_BLOCKED, reason, false)).out == Refused(Internal)
    requires forall i :: 0 <= i < |after| ==> !Unblocks(after[i], u)
    ensures var t := Run(cfg, Step(cfg, s, SetStatus(actor, u, STATUS_BLOCKED, reason, false)).state, after);
      var o := Step(cfg, t, SetStatus(retrier, u, STATUS_BLOCKED, again, works));
      o.out.Refused? && o.state == t
  {
    RunKeepsInactive(cfg, Step(cfg, s, SetStatus(actor, u, STATUS_BLOCKED, reason, false)).state, u, after);
  }

  lemma {:induction false} RunKeepsInactive(cfg: Config, s: State, u: UserId, ops: seq<Op>)
    requires u in s.accounts && !s.accounts[u].active
    requires forall i :: 0 <= i < |ops| ==> !Unblocks(ops[i], u)
    ensures var t := Run(cfg, s, ops); u in t.accounts && !t.accounts[u].active
    decreases |ops|
  {
    if ops != [] {
      var t := Step(cfg, s, ops[0]).state;
      assert u in t.accounts && !t.accounts[u].active;
      RunKeepsInactive(cfg, t, u, ops[1..]);
    }
  }

  /** The gap is real: every pair that was live when the revocation failed still works after any retry. */
  lemma FailedRevocationLeavesAccess(
      cfg: Config, s: State, actor: UserId, u: UserId, reason: string, retrier: UserId, again: string, works: bool, n: nat)
    requires Step(cfg, s, SetStatus(actor, u, STATUS_BLOCKED, reason, false)).out == Refused(Internal)
    requires Accepts(s, Jti(n)) && s.issued[n].user == u && LiveRecord(s.store, s.now, RefreshToken(n))
    ensures var t := Step(cfg, s, SetStatus(actor, u, STATUS_BLOCKED, reason, false)).state;
      var o := Step(cfg, t, SetStatus(retrier, u, STATUS_BLOCKED, again, works));
      && o.out.Refused?
      && u in o.state.accounts && !o.state.accounts[u].active
      && Accepts(o.state, Jti(n))
      && Step(cfg, o.state, Refresh(RefreshToken(n))).out.Pair?
  {}

  /** Two devices of account 1 after device 0 signed out with device 1's refresh token. */
  function CrossedLogout(cfg: Config): State {
    Run(cfg, Init(0), [Register(1, "user"), SignIn(1, true), SignIn(1, true), Logout(Jti(0), Some(RefreshToken(1)))])
  }

  lemma CrossedLogoutState(cfg: Config)
    requires cfg == Config(10, 100)
    ensures var s := CrossedLogout(cfg);
      && s.now == 0
      && s.accounts == map[1 := Account("user", true)]
      && s.issued == [Issued(1, "user", 10, 0), Issued(1, "user", 10, 1)]
      && s.store.revoked == map[Jti(0) := 10]
      && s.store.records.Keys == {RefreshToken(0)}
  {}

  /** Crossed logouts open the same gap: a block then succeeds while the other device keeps its access. */
  lemma CrossedLogoutEscapesBlock()
    ensures var cfg := Config(10, 100);
      var o := Step(cfg, CrossedLogout(cfg), SetStatus(2, 1, STATUS_BLOCKED, "abuse", true));
      o.out == Done && Accepts(o.state, Jti(1))
  {
    var cfg := Config(10, 100);
    CrossedLogoutState(cfg);
    Reachable(cfg, 0, [Register(1, "user"), SignIn(1, true), SignIn(1, true), Logout(Jti(0), Some(RefreshToken(1)))]);
    BlockMisses(cfg, CrossedLogout(cfg));
  }

  lemma BlockMisses(cfg: Config, s: State)
    requires cfg == Config(10, 100) && RecordsSound(cfg, s)
    requires 1 in s.accounts && s.accounts[1].active && s.now == 0
    requires |s.issued| == 2 && s.issued[1].exp == 10
    requires Jti(1) !in s.store.revoked && RefreshToken(1) !in s.store.records
    ensures var o := Step(cfg, s, SetStatus(2, 1, STATUS_BLOCKED, "abuse", true));
      o.out == Done && Accepts(o.state, Jti(1))
  {}

  // --- changing the password ---------------------------------------------------------------

  lemma RevokeAllSparesOthers(cfg: Config, s: State, u: UserId)
    requires Core(cfg, s)
    ensures var t := s.(store := RevokeAll(s.store, s.now, u, cfg.accessTTL));
      && (forall r :: LiveRecord(s.store, s.now, r) && s.store.records[r].user != u ==> LiveRecord(t.store, t.now, r))
      && (forall j :: Accepts(s, j) && s.issued[j.n].user != u ==> Accepts(t, j))
  {
    RevokeAllBlacklistsOwn(cfg, s, u);
  }

  lemma RevokeAllBlacklistsOwn(cfg: Config, s: State, u: UserId)
    requires RecordsSound(cfg, s) && IndexSound(s)
    ensures forall j :: j in RevokeAll(s.store, s.now, u, cfg.accessTTL).revoked && j !in s.store.revoked ==>
              j.n < |s.issued| && s.issued[j.n].user == u
  {}

  lemma ChangedPassword(cfg: Config, s: State, caller: Jti)
    requires Step(cfg, s, ChangePassword(caller, true)).out == Done
    ensures Accepts(s, caller)
    ensures var ended := s.(store := RevokeAll(s.store, s.now, s.issued[caller.n].user, cfg.accessTTL));
      Step(cfg, s, ChangePassword(caller, true)).state == ended.(store := Revoke(ended.store, s.now, caller, cfg.accessTTL))
  {}

  lemma ChangePasswordRefuses(cfg: Config, s: State, caller: Jti, n: nat)
    requires Core(cfg, s) && Step(cfg, s, ChangePassword(caller, true)).out == Done
    requires n < |s.issued| && s.issued[n].user == s.issued[caller.n].user
    ensures Accepts(Step(cfg, s, ChangePassword(caller, true)).state, Jti(n)) <==>
            Accepts(s, Jti(n)) && !LiveRecord(s.store, s.now, RefreshToken(n)) && caller != Jti(n)
  {
    var u := s.issued[caller.n].user;
    var ended := s.(store := RevokeAll(s.store, s.now, u, cfg.accessTTL));
    ChangedPassword(cfg, s, caller);
    MassRevocationEndsExactlyTheCovered(cfg, s, u, n);
    RevokeRefuses(cfg, ended, caller, n);
  }

  lemma RevokeRefuses(cfg: Config, s: State, j: Jti, n: nat)
    requires TokensSound(cfg, s) && n < |s.issued|
    ensures Accepts(s.(store := Revoke(s.store, s.now, j, cfg.accessTTL)), Jti(n)) <==> Accepts(s, Jti(n)) && j != Jti(n)
  {}

  lemma ChangePasswordEndsRecords(cfg: Config, s: State, caller: Jti, r: RefreshToken)
    requires Core(cfg, s) && Step(cfg, s, ChangePassword(caller, true)).out == Done
    ensures var t := Step(cfg, s, ChangePassword(caller, true)).state;
      LiveRecord(t.store, t.now, r) <==>
      LiveRecord(s.store, s.now, r) && s.store.records[r].user != s.issued[caller.n].user
  {
    var u := s.issued[caller.n].user;
    ChangedPassword(cfg, s, caller);
    RevokeAllEndsEverySession(cfg, s, u);
    RevokeAllSparesOthers(cfg, s, u);
  }

  lemma ChangePasswordSparesOthers(cfg: Config, s: State, caller: Jti, n: nat)
    requires Core(cfg, s) && Step(cfg, s, ChangePassword(caller, true)).out == Done
    requires Accepts(s, Jti(n)) && s.issued[n].user != s.issued[caller.n].user
    ensures Accepts(Step(cfg, s, ChangePassword(caller, true)).state, Jti(n))
  {
    var u := s.issued[caller.n].user;
    var ended := s.(store := RevokeAll(s.store, s.now, u, cfg.accessTTL));
    ChangedPassword(cfg, s, caller);
    RevokeAllSparesOthers(cfg, s, u);
    RevokeRefuses(cfg, ended, caller, n);
  }

  /**
   A password change ends every session of the account, on every device, and no session of anyone
   else; a token of the account is accepted afterwards exactly if it was, a logout had crossed it,
   and it did not make the change.
   */
  lemma ChangePasswordEndsEverySession(cfg: Config, start: int, ops: seq<Op>, caller: Jti, n: nat, r: RefreshToken)
    requires Valid(cfg) && Step(cfg, Run(cfg, Init(start), ops), ChangePassword(caller, true)).out == Done
    ensures var s := Run(cfg, Init(start), ops);
      var t := Step(cfg, s, ChangePassword(caller, true)).state;
      var u := s.issued[caller.n].user;
      && (LiveRecord(t.store, t.now, r) <==> LiveRecord(s.store, s.now, r) && s.store.records[r].user != u)
      && (Accepts(s, Jti(n)) && s.issued[n].user != u ==> Accepts(t, Jti(n)))
      && (n < |s.issued| && s.issued[n].user == u ==>
            (Accepts(t, Jti(n)) <==> Accepts(s, Jti(n)) && CrossedIn(cfg, Init(start), ops, n) && caller != Jti(n)))
  {
    var s := Run(cfg, Init(start), ops);
    Reachable(cfg, start, ops);
    ChangedPassword(cfg, s, caller);
    ChangePasswordEndsRecords(cfg, s, caller, r);
    if n < |s.issued| {
      if s.issued[n].user == s.issued[caller.n].user {
        ChangePasswordRefuses(cfg, s, caller, n);
      } else if Accepts(s, Jti(n)) {
        ChangePasswordSparesOthers(cfg, s, caller, n);
      }
      if Accepts(s, Jti(n)) { SessionLostIff(cfg, start, ops, n); }
    }
  }

  // --- moderation log ----------------------------------------------------------------------

  /** The audit log always explains the status: each account is as its last row left it, active if it has none. */
  lemma AuditExplainsStatus(cfg: Config, start: int, ops: seq<Op>, u: UserId)
    requires Valid(cfg) && u in Run(cfg, Init(start), ops).accounts
    ensures var s := Run(cfg, Init(start), ops);
      s.accounts[u].active == AuditedActive(s.audit, u)
  {
    Reachable(cfg, start, ops);
  }
}
