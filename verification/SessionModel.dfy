/**
 Sessions and revocation, as functions on one timed state.

 The Redis store holds three kinds of expiring keys (a record per refresh token, an index
 set per user, a blacklist entry per jti).  A key whose deadline has passed reads as absent;
 `now < deadline` is the liveness test everywhere, and it is also the acceptance test of an
 access token's `exp` claim (section 4.1.4 of RFC 7519).
 */
module SessionModel {
  import opened Options
  import opened Text

  type UserId = nat
  datatype Jti = Jti(n: nat)
  datatype RefreshToken = RefreshToken(n: nat)

  datatype Session = Session(user: UserId, role: string, jti: Jti, expires: int)
  datatype Index = Index(keys: set<RefreshToken>, expires: int)
  datatype Store = Store(records: map<RefreshToken, Session>, index: map<UserId, Index>, revoked: map<Jti, int>)

  datatype Config = Config(accessTTL: int, refreshTTL: int)

  // --- the store ---------------------------------------------------------------------------

  predicate LiveRecord(st: Store, now: int, r: RefreshToken) {
    r in st.records && now < st.records[r].expires
  }

  predicate LiveIndex(st: Store, now: int, u: UserId) {
    u in st.index && now < st.index[u].expires
  }

  predicate IsRevoked(st: Store, now: int, j: Jti) {
    j in st.revoked && now < st.revoked[j]
  }

  function Members(st: Store, now: int, u: UserId): set<RefreshToken> {
    if LiveIndex(st, now, u) then st.index[u].keys else {}
  }

  function Create(st: Store, now: int, r: RefreshToken, sess: Session, ttl: int): Store {
    st.(records := st.records[r := sess.(expires := now + ttl)],
        index := st.index[sess.user := Index(Members(st, now, sess.user) + {r}, now + ttl)])
  }

  function Delete(st: Store, now: int, r: RefreshToken, u: UserId): Store {
    st.(records := st.records - {r},
        index := if LiveIndex(st, now, u) then st.index[u := st.index[u].(keys := st.index[u].keys - {r})] else st.index)
  }

  function Revoke(st: Store, now: int, j: Jti, ttl: int): Store {
    if ttl <= 0 then st else st.(revoked := st.revoked[j := now + ttl])
  }

  /** The jtis the live records among `keys` carry. */
  function JtisOf(st: Store, now: int, keys: set<RefreshToken>): set<Jti> {
    set r | r in keys && LiveRecord(st, now, r) :: st.records[r].jti
  }

  function Blacklist(revoked: map<Jti, int>, js: set<Jti>, deadline: int): map<Jti, int> {
    map j | j in revoked.Keys + js :: if j in js then deadline else revoked[j]
  }

  function RevokeAll(st: Store, now: int, u: UserId, accessTTL: int): Store {
    var keys := Members(st, now, u);
    if keys == {} then st
    else Store(
        st.records - keys,
        st.index - {u},
        if accessTTL > 0 then Blacklist(st.revoked, JtisOf(st, now, keys), now + accessTTL) else st.revoked)
  }

  // --- accounts, issued tokens and the service calls ---------------------------------------

  datatype Account = Account(role: string, active: bool)

  /** What a signed access token says, plus the sign-in its refresh chain began with. */
  datatype Issued = Issued(user: UserId, role: string, exp: int, chain: nat)

  datatype AuditRow = AuditRow(target: UserId, actor: UserId, blocked: bool, reason: string)

  /** Pair number n carries jti Jti(n) and refresh token RefreshToken(n): fresh handles never repeat. */
  datatype State = State(
    now: int, accounts: map<UserId, Account>, store: Store, issued: seq<Issued>, audit: seq<AuditRow>)

  datatype Refusal = Unauthorized | Forbidden | Conflict | NotFound | Invalid | Internal
  datatype Out = Pair(n: nat) | Done | Refused(why: Refusal)
  datatype Outcome = Outcome(state: State, out: Out)

  datatype Op =
    | Tick(ticks: nat)
    | Register(user: UserId, role: string)
    | SignIn(user: UserId, verified: bool)
    | Refresh(token: RefreshToken)
    | Logout(access: Jti, refresh: Option<RefreshToken>)
    | ChangePassword(caller: Jti, currentMatches: bool)
    | SetStatus(actor: UserId, target: UserId, status: int, rawReason: string, revocationWorks: bool)

  const STATUS_BLOCKED := 0
  const STATUS_ACTIVE := 1
  const MAX_REASON_RUNES := 500

  /** The middleware's decision: the signature is ours, the token is unexpired and not blacklisted. */
  predicate Accepts(s: State, j: Jti) {
    && j.n < |s.issued|
    && s.now < s.issued[j.n].exp
    && !IsRevoked(s.store, s.now, j)
  }

  function IssueSession(cfg: Config, s: State, u: UserId, role: string, chain: nat): Outcome {
    var n := |s.issued|;
    var sess := Session(u, role, Jti(n), s.now);
    Outcome(
      s.(issued := s.issued + [Issued(u, role, s.now + cfg.accessTTL, chain)],
         store := Create(s.store, s.now, RefreshToken(n), sess, cfg.refreshTTL)),
      Pair(n))
  }

  function StepSignIn(cfg: Config, s: State, u: UserId, verified: bool): Outcome {
    if !verified || u !in s.accounts then Outcome(s, Refused(Unauthorized))
    else if !s.accounts[u].active then Outcome(s, Refused(Forbidden))
    else IssueSession(cfg, s, u, s.accounts[u].role, |s.issued|)
  }

  function ChainOf(s: State, r: RefreshToken): nat {
    if r.n < |s.issued| then s.issued[r.n].chain else |s.issued|
  }

  function StepRefresh(cfg: Config, s: State, r: RefreshToken): Outcome {
    if !LiveRecord(s.store, s.now, r) then Outcome(s, Refused(Unauthorized))
    else
      var sess := s.store.records[r];
      var rotated := Revoke(Delete(s.store, s.now, r, sess.user), s.now, sess.jti, cfg.accessTTL);
      IssueSession(cfg, s.(store := rotated), sess.user, sess.role, ChainOf(s, r))
  }

  function StepLogout(cfg: Config, s: State, access: Jti, refresh: Option<RefreshToken>): Outcome {
    if !Accepts(s, access) then Outcome(s, Refused(Unauthorized))
    else
      var revoked := s.(store := Revoke(s.store, s.now, access, cfg.accessTTL));
      if refresh.None? || !LiveRecord(revoked.store, s.now, refresh.value) then Outcome(revoked, Done)
      else if revoked.store.records[refresh.value].user != s.issued[access.n].user then Outcome(revoked, Refused(Forbidden))
      else Outcome(
          revoked.(store := Delete(revoked.store, s.now, refresh.value, s.issued[access.n].user)), Done)
  }

  function StepChangePassword(cfg: Config, s: State, caller: Jti, currentMatches: bool): Outcome {
    if !Accepts(s, caller) then Outcome(s, Refused(Unauthorized))
    else
      var u := s.issued[caller.n].user;
      if u !in s.accounts then Outcome(s, Refused(NotFound))
      else if !currentMatches then Outcome(s, Refused(Invalid))
      else
        var ended := RevokeAll(s.store, s.now, u, cfg.accessTTL);
        Outcome(s.(store := Revoke(ended, s.now, caller, cfg.accessTTL)), Done)
  }

  /** The checks of a status change, in the order the service makes them; the reason is already trimmed. */
  function StatusRefusal(s: State, actor: UserId, target: UserId, status: int, reason: string): Option<Refusal> {
    if status != STATUS_ACTIVE && status != STATUS_BLOCKED then Some(Invalid)
    else if actor == target then Some(Conflict)
    else if status == STATUS_BLOCKED && reason == "" then Some(Invalid)
    else if |reason| > MAX_REASON_RUNES then Some(Invalid)
    else if target !in s.accounts then Some(NotFound)
    else if s.accounts[target].active == (status == STATUS_ACTIVE) then Some(Conflict)
    else None
  }

  /** The guarded UPDATE and its audit row, one transaction. */
  function ApplyStatus(s: State, actor: UserId, target: UserId, status: int, reason: string): State
    requires target in s.accounts
  {
    s.(accounts := s.accounts[target := s.accounts[target].(active := status == STATUS_ACTIVE)],
       audit := s.audit + [AuditRow(target, actor, status == STATUS_BLOCKED, reason)])
  }

  function StepSetStatus(
    cfg: Config, s: State, actor: UserId, target: UserId, status: int, reason: string, revocationWorks: bool): Outcome
  {
    var refusal := StatusRefusal(s, actor, target, status, reason);
    if refusal.Some? then Outcome(s, Refused(refusal.value))
    else
      var applied := ApplyStatus(s, actor, target, status, reason);
      if status != STATUS_BLOCKED then Outcome(applied, Done)
      else if !revocationWorks then Outcome(applied, Refused(Internal))
      else Outcome(applied.(store := RevokeAll(applied.store, s.now, target, cfg.accessTTL)), Done)
  }

  function Step(cfg: Config, s: State, op: Op): Outcome {
    match op
    case Tick(ticks) => Outcome(s.(now := s.now + ticks), Done)
    case Register(u, role) =>
      if u in s.accounts then Outcome(s, Refused(Conflict))
      else Outcome(s.(accounts := s.accounts[u := Account(role, true)]), Done)
    case SignIn(u, verified) => StepSignIn(cfg, s, u, verified)
    case Refresh(r) => StepRefresh(cfg, s, r)
    case Logout(access, refresh) => StepLogout(cfg, s, access, refresh)
    case ChangePassword(caller, ok) => StepChangePassword(cfg, s, caller, ok)
    case SetStatus(actor, target, status, rawReason, works) =>
      StepSetStatus(cfg, s, actor, target, status, TrimSpace(rawReason), works)
  }

  function Run(cfg: Config, s: State, ops: seq<Op>): State
    decreases |ops|
  {
    if ops == [] then s else Run(cfg, Step(cfg, s, ops[0]).state, ops[1..])
  }

  function Init(now: int): State {
    State(now, map[], Store(map[], map[], map[]), [], [])
  }

  /** A logout that names a live session of its own account names the one its access token belongs to. */
  predicate Paired(s: State, op: Op) {
    op.Logout? && op.refresh.Some? && Accepts(s, op.access) && LiveRecord(s.store, s.now, op.refresh.value) &&
    s.store.records[op.refresh.value].user == s.issued[op.access.n].user
    ==> s.store.records[op.refresh.value].jti == op.access
  }

  predicate PairedRun(cfg: Config, s: State, ops: seq<Op>)
    decreases |ops|
  {
    ops == [] || (Paired(s, ops[0]) && PairedRun(cfg, Step(cfg, s, ops[0]).state, ops[1..]))
  }
}
