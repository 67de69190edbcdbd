/** Signing in with a provider or a phone number, one call at a time, over the two tables. */
module AccountService {
  import opened Faults
  import opened Options
  import opened AccountModel
  import AccountTheorems

  class Directory {
    var users: map<UserId, User>
    var byEmail: map<Email, UserId>
    var byPhone: map<string, UserId>
    var byUsername: map<string, UserId>
    var born: UserId
    var identities: map<Key, Identity>

    constructor ()
      ensures Contents() == Init().tables
    {
      users, byEmail, byPhone, byUsername, born, identities := map[], map[], map[], map[], 0, map[];
    }

    ghost function Contents(): Tables
      reads this
    {
      Tables(users, byEmail, byPhone, byUsername, born, identities)
    }

    // --- the repositories ------------------------------------------------------------------

    /** Provider and subject are unique together. */
    method LinkIdentity(key: Key, user: UserId, c: CallId, fate: Fate) returns (ok: bool)
      modifies `identities
      ensures ok <==> fate.Works? && key !in old(identities)
      ensures Contents() == if fate.Fails? || key in old(identities) then old(Contents()) else Link(old(Contents()), key, user, c)
    {
      if fate.Fails? || key in identities {
        return false;
      }
      identities := identities[key := Identity(user, c)];
      ok := fate.Works?;
    }

    /** Email, phone and username are unique among the accounts that have them. */
    method InsertUser(user: User, fate: Fate) returns (created: Option<UserId>)
      modifies `users, `byEmail, `byPhone, `byUsername, `born
      ensures var lands := !fate.Fails? && Insertable(old(Contents()), user);
        && Contents() == (if lands then Insert(old(Contents()), user) else old(Contents()))
        && created == if lands && fate.Works? then Some(old(born)) else None
    {
      if fate.Fails?
        || (user.email.Some? && user.email.value in byEmail)
        || (user.phone.Some? && user.phone.value in byPhone)
        || (user.username.Some? && user.username.value in byUsername)
      {
        return None;
      }
      users := users[born := user];
      if user.email.Some? {
        byEmail := byEmail[user.email.value := born];
      }
      if user.phone.Some? {
        byPhone := byPhone[user.phone.value := born];
      }
      if user.username.Some? {
        byUsername := byUsername[user.username.value := born];
      }
      born := born + 1;
      created := if fate.Works? then Some(born - 1) else None;
    }

    // --- the service -----------------------------------------------------------------------

    /** Link, and let the provider's word verify the address; failing to record that is only logged. */
    method LinkAndReturn(user: UserId, verified: bool, c: CallId, r: Request, left: seq<Fate>) returns (result: Result)
      modifies `identities, `users
      ensures (Contents(), result) == Drive(old(Contents()), c, Call(r, LinkTo(user, verified)), left)
    {
      var linked := LinkIdentity(KeyOf(r), user, c, First(left));
      if !linked {
        return Failed;
      }
      result := Resolved(user);
      if r.Social? && r.emailVerified && !verified {
        ghost var after := Contents();
        if !First(Rest(left)).Fails? && user in users {
          users := users[user := users[user].(emailVerified := true)];
        }
        assert (Contents(), result) == Drive(after, c, Call(r, Mark(user)), Rest(left));
      }
    }

    /** The account, then its link. */
    method InsertAndLink(c: CallId, r: Request, left: seq<Fate>) returns (result: Result)
      modifies `users, `byEmail, `byPhone, `byUsername, `born, `identities
      ensures (Contents(), result) == Drive(old(Contents()), c, Call(r, CreateUser), left)
    {
      var created := InsertUser(NewUser(r, c), First(left));
      if created.None? {
        return Failed;
      }
      ghost var inserted := Contents();
      var linked := LinkIdentity(KeyOf(r), created.value, c, First(Rest(left)));
      result := if linked then Resolved(created.value) else Failed;
      AccountTheorems.LinkNewRuns(inserted, c, r, created.value, Rest(left));
    }

    /** The default role, then the account. */
    method CreateAccount(c: CallId, r: Request, left: seq<Fate>) returns (result: Result)
      modifies `users, `byEmail, `byPhone, `byUsername, `born, `identities
      ensures (Contents(), result) == Drive(old(Contents()), c, Call(r, FindRole), left)
    {
      if !First(left).Works? {
        return Failed;
      }
      result := InsertAndLink(c, r, Rest(left));
    }

    /** The account behind a known identity. */
    method LoadKnown(user: UserId, c: CallId, r: Request, left: seq<Fate>) returns (result: Result)
      ensures (Contents(), result) == Drive(Contents(), c, Call(r, LoadAccount(user)), left)
    {
      result := if First(left).Works? && user in users then Resolved(user) else Failed;
    }

    /** Find the identity, link a vouched-for email, or create the account. */
    method ResolveSocial(
      c: CallId, provider: Provider, subject: string, email: Email, emailVerified: bool, fates: seq<Fate>)
      returns (result: Result)
      modifies this
      ensures (Contents(), result) == SignIn(old(Contents()), c, Social(provider, subject, email, emailVerified), fates)
    {
      var r := Social(provider, subject, email, emailVerified);
      if !First(fates).Works? {
        assert Drive(Contents(), c, Call(r, FindIdentity), fates) == (Contents(), Failed);
        return Failed;
      }
      if SocialKey(provider, subject) in identities {
        result := LoadKnown(identities[SocialKey(provider, subject)].user, c, r, Rest(fates));
        return;
      }
      if email == "" {
        result := CreateAccount(c, r, Rest(fates));
        return;
      }
      result := ResolveByEmail(c, r, Rest(fates));
    }

    method ResolveByEmail(c: CallId, r: Request, left: seq<Fate>) returns (result: Result)
      requires r.Social?
      modifies this
      ensures (Contents(), result) == Drive(old(Contents()), c, Call(r, FindHolder), left)
    {
      if !First(left).Works? {
        return Failed;
      }
      if r.email in byEmail {
        var existing := byEmail[r.email];
        if !r.emailVerified {
          return Conflict;
        }
        result := LinkAndReturn(existing, existing in users && users[existing].emailVerified, c, r, Rest(left));
        return;
      }
      result := CreateAccount(c, r, Rest(left));
    }

    /** Find the identity, adopt the account that holds the number, or create one. */
    method ResolvePhone(c: CallId, number: string, fates: seq<Fate>) returns (result: Result)
      modifies this
      ensures (Contents(), result) == SignIn(old(Contents()), c, ByPhone(number), fates)
    {
      var r := ByPhone(number);
      if !First(fates).Works? {
        assert Drive(Contents(), c, Call(r, FindIdentity), fates) == (Contents(), Failed);
        return Failed;
      }
      if PhoneKey(number) in identities {
        result := LoadKnown(identities[PhoneKey(number)].user, c, r, Rest(fates));
        return;
      }
      result := AdoptOrCreate(c, r, Rest(fates));
    }

    method AdoptOrCreate(c: CallId, r: Request, left: seq<Fate>) returns (result: Result)
      requires r.ByPhone?
      modifies this
      ensures (Contents(), result) == Drive(old(Contents()), c, Call(r, FindHolder), left)
    {
      if !First(left).Works? {
        return Failed;
      }
      if r.number in byPhone {
        var existing := byPhone[r.number];
        result := LinkAndReturn(existing, existing in users && users[existing].emailVerified, c, r, Rest(left));
        return;
      }
      result := CreateAccount(c, r, Rest(left));
    }
  }
}
