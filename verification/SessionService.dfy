/**
 The imperative side: the Redis-backed store and the services that drive it.  Every method is
 proved to move the abstract state exactly as the corresponding step of SessionModel does.
 */
module SessionService {
  import opened Options
  import opened SessionModel
  import opened Text

  /** The blacklist once the sessions in `done` have been revoked. */
  ghost function Written(st: Store, now: int, done: set<RefreshToken>, accessTTL: int): map<Jti, int> {
    if accessTTL > 0 then Blacklist(st.revoked, JtisOf(st, now, done), now + accessTTL) else st.revoked
  }

  lemma WrittenOneMore(st: Store, now: int, done: set<RefreshToken>, key: RefreshToken, accessTTL: int)
    ensures Written(st, now, {}, accessTTL) == st.revoked
    ensures Written(st, now, done + {key}, accessTTL) ==
            var sofar := Written(st, now, done, accessTTL);
            if LiveRecord(st, now, key) && accessTTL > 0 then sofar[st.records[key].jti := now + accessTTL] else sofar
  {}

  class SessionStore {
    var records: map<RefreshToken, Session>
    var index: map<UserId, Index>
    var revoked: map<Jti, int>

    constructor ()
      ensures Contents() == Store(map[], map[], map[])
    {
      records, index, revoked := map[], map[], map[];
    }

    ghost function Contents(): Store
      reads this
    {
      Store(records, index, revoked)
    }

    method Create(now: int, refresh: RefreshToken, sess: Session, ttl: int)
      modifies this
      ensures Contents() == SessionModel.Create(old(Contents()), now, refresh, sess, ttl)
    {
      records := records[refresh := sess.(expires := now + ttl)];
      var members := {};
      if sess.user in index && now < index[sess.user].expires {
        members := index[sess.user].keys;
      }
      index := index[sess.user := Index(members + {refresh}, now + ttl)];
    }

    method Get(now: int, refresh: RefreshToken) returns (found: Option<Session>)
      ensures found.Some? <==> LiveRecord(Contents(), now, refresh)
      ensures found.Some? ==> found.value == records[refresh]
    {
      if refresh in records && now < records[refresh].expires {
        found := Some(records[refresh]);
      } else {
        found := None;
      }
    }

    method Delete(now: int, refresh: RefreshToken, sess: Session)
      modifies this
      ensures Contents() == SessionModel.Delete(old(Contents()), now, refresh, sess.user)
    {
      records := records - {refresh};
      if sess.user in index && now < index[sess.user].expires {
        index := index[sess.user := index[sess.user].(keys := index[sess.user].keys - {refresh})];
      }
    }

    method Revoke(now: int, token: Jti, ttl: int)
      modifies this
      ensures Contents() == SessionModel.Revoke(old(Contents()), now, token, ttl)
    {
      if ttl > 0 {
        revoked := revoked[token := now + ttl];
      }
    }

    /** The read pipeline: the jti each live record carries; a record that has expired answers nothing. */
    method ReadTokenIDs(now: int, keys: set<RefreshToken>) returns (tokens: map<RefreshToken, Jti>)
      ensures tokens.Keys == set r | r in keys && LiveRecord(Contents(), now, r)
      ensures forall r :: r in tokens ==> tokens[r] == records[r].jti
    {
      tokens := map[];
      var unread := keys;
      while unread != {}
        invariant unread <= keys
        invariant forall r :: r in tokens <==> r in keys - unread && LiveRecord(Contents(), now, r)
        invariant forall r :: r in tokens ==> tokens[r] == records[r].jti
        decreases unread
      {
        var key :| key in unread;
        if key in records && now < records[key].expires {
          tokens := tokens[key := records[key].jti];
        }
        unread := unread - {key};
      }
    }

    /** The write pipeline: blacklist what was read, delete every record. */
    method WriteRevocations(now: int, keys: set<RefreshToken>, tokens: map<RefreshToken, Jti>, accessTTL: int)
      requires tokens.Keys == set r | r in keys && LiveRecord(Contents(), now, r)
      requires forall r :: r in tokens ==> tokens[r] == records[r].jti
      modifies `records, `revoked
      ensures records == old(records) - keys
      ensures revoked == Written(old(Contents()), now, keys, accessTTL)
    {
      ghost var before, done := Contents(), {};
      var unwritten := keys;
      while unwritten != {}
        invariant done !! unwritten && done + unwritten == keys
        invariant records == before.records - done
        invariant revoked == Written(before, now, done, accessTTL)
        decreases unwritten
      {
        var key :| key in unwritten;
        WrittenOneMore(before, now, done, key, accessTTL);
        if key in tokens && accessTTL > 0 {
          revoked := revoked[tokens[key] := now + accessTTL];
        }
        records := records - {key};
        unwritten, done := unwritten - {key}, done + {key};
      }
    }

    /** First every session's jti is read, then the blacklist and the deletions are written. */
    method RevokeAllForUser(now: int, user: UserId, accessTTL: int)
      modifies this
      ensures Contents() == RevokeAll(old(Contents()), now, user, accessTTL)
    {
      var keys := {};
      if user in index && now < index[user].expires {
        keys := index[user].keys;
      }
      if keys == {} {
        return;
      }
      var tokens := ReadTokenIDs(now, keys);
      WriteRevocations(now, keys, tokens, accessTTL);
      index := index - {user};
    }

    method IsRevoked(now: int, token: Jti) returns (yes: bool)
      ensures yes <==> SessionModel.IsRevoked(Contents(), now, token)
    {
      yes := token in revoked && now < revoked[token];
    }
  }

  datatype Identity = Identity(user: UserId, role: string, token: Jti)

  class Accounts {
    const cfg: Config
    const sessions: SessionStore
    var accounts: map<UserId, Account>
    var audit: seq<AuditRow>
    /** The claims signed so far: what a token with one of our signatures says. */
    var signed: seq<Issued>

    constructor (cfg: Config)
      ensures fresh(sessions) && this.cfg == cfg && Current(0) == Init(0)
    {
      this.cfg := cfg;
      sessions := new SessionStore();
      accounts, audit, signed := map[], [], [];
    }

    ghost function Current(now: int): State
      reads this, sessions
    {
      State(now, accounts, sessions.Contents(), signed, audit)
    }

    /** Fail unless the token verifies, is unexpired and has not been blacklisted. */
    method Authenticate(now: int, token: Jti) returns (caller: Option<Identity>)
      ensures caller.Some? <==> Accepts(Current(now), token)
      ensures caller.Some? ==> caller.value == Identity(signed[token.n].user, signed[token.n].role, token)
    {
      if token.n >= |signed| || signed[token.n].exp <= now {
        return None;
      }
      var gone := sessions.IsRevoked(now, token);
      caller := if gone then None else Some(Identity(signed[token.n].user, signed[token.n].role, token));
    }

    method IssueSession(now: int, user: UserId, role: string, chain: nat) returns (n: nat)
      modifies this, sessions
      ensures Outcome(Current(now), Pair(n)) == SessionModel.IssueSession(cfg, old(Current(now)), user, role, chain)
    {
      n := |signed|;
      signed := signed + [Issued(user, role, now + cfg.accessTTL, chain)];
      sessions.Create(now, RefreshToken(n), Session(user, role, Jti(n), now), cfg.refreshTTL);
    }

    method SignIn(now: int, user: UserId, verified: bool) returns (out: Out)
      modifies this, sessions
      ensures Outcome(Current(now), out) == Step(cfg, old(Current(now)), Op.SignIn(user, verified))
    {
      if !verified || user !in accounts {
        return Refused(Unauthorized);
      }
      if !accounts[user].active {
        return Refused(Forbidden);
      }
      var n := IssueSession(now, user, accounts[user].role, |signed|);
      out := Pair(n);
    }

    method Refresh(now: int, token: RefreshToken) returns (out: Out)
      modifies this, sessions
      ensures Outcome(Current(now), out) == Step(cfg, old(Current(now)), Op.Refresh(token))
    {
      var chain := if token.n < |signed| then signed[token.n].chain else |signed|;
      var session := sessions.Get(now, token);
      if session.None? {
        return Refused(Unauthorized);
      }
      sessions.Delete(now, token, session.value);
      sessions.Revoke(now, session.value.jti, cfg.accessTTL);
      var n := IssueSession(now, session.value.user, session.value.role, chain);
      out := Pair(n);
    }

    method Logout(now: int, access: Jti, refresh: Option<RefreshToken>) returns (out: Out)
      modifies sessions
      ensures Outcome(Current(now), out) == Step(cfg, old(Current(now)), Op.Logout(access, refresh))
    {
      var caller := Authenticate(now, access);
      if caller.None? {
        return Refused(Unauthorized);
      }
      sessions.Revoke(now, caller.value.token, cfg.accessTTL);
      if refresh.None? {
        return Done;
      }
      var session := sessions.Get(now, refresh.value);
      if session.None? {
        return Done;
      }
      if session.value.user != caller.value.user {
        return Refused(Forbidden);
      }
      sessions.Delete(now, refresh.value, session.value);
      out := Done;
    }

    method ChangePassword(now: int, token: Jti, currentMatches: bool) returns (out: Out)
      modifies sessions
      ensures Outcome(Current(now), out) == Step(cfg, old(Current(now)), Op.ChangePassword(token, currentMatches))
    {
      var caller := Authenticate(now, token);
      if caller.None? {
        return Refused(Unauthorized);
      }
      if caller.value.user !in accounts {
        return Refused(NotFound);
      }
      if !currentMatches {
        return Refused(Invalid);
      }
      sessions.RevokeAllForUser(now, caller.value.user, cfg.accessTTL);
      sessions.Revoke(now, caller.value.token, cfg.accessTTL);
      out := Done;
    }

    /** The guarded UPDATE and its audit row; false when no row had a different status. */
    method ApplyStatus(target: UserId, actor: UserId, status: int, reason: string) returns (found: bool)
      modifies this
      ensures found <==> target in old(accounts) && old(accounts)[target].active != (status == STATUS_ACTIVE)
      ensures signed == old(signed)
      ensures !found ==> accounts == old(accounts) && audit == old(audit)
      ensures found ==> forall now :: Current(now) == SessionModel.ApplyStatus(old(Current(now)), actor, target, status, reason)
    {
      found := target in accounts && accounts[target].active != (status == STATUS_ACTIVE);
      if found {
        accounts := accounts[target := accounts[target].(active := status == STATUS_ACTIVE)];
        audit := audit + [AuditRow(target, actor, status == STATUS_BLOCKED, reason)];
      }
    }

    method SetStatus(now: int, actor: UserId, target: UserId, status: int, rawReason: string, revocationWorks: bool)
      returns (out: Out)
      modifies this, sessions
      ensures Outcome(Current(now), out) ==
              Step(cfg, old(Current(now)), Op.SetStatus(actor, target, status, rawReason, revocationWorks))
    {
      var reason := TrimSpace(rawReason);
      if status != STATUS_ACTIVE && status != STATUS_BLOCKED {
        return Refused(Invalid);
      }
      if actor == target {
        return Refused(Conflict);
      }
      if status == STATUS_BLOCKED && reason == "" {
        return Refused(Invalid);
      }
      if |reason| > MAX_REASON_RUNES {
        return Refused(Invalid);
      }
      if target !in accounts {
        return Refused(NotFound);
      }
      if accounts[target].active == (status == STATUS_ACTIVE) {
        return Refused(Conflict);
      }
      var applied := ApplyStatus(target, actor, status, reason);
      if status == STATUS_BLOCKED {
        if !revocationWorks {
          return Refused(Internal);
        }
        sessions.RevokeAllForUser(now, target, cfg.accessTTL);
      }
      out := Done;
    }
  }
}
