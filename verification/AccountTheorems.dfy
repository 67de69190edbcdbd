/** What any interleaving of sign-ins keeps, whichever repository calls fail. */
module AccountTheorems {
  import opened Faults
  import opened Options
  import opened AccountModel
  import Phone

  // --- the unique indexes ------------------------------------------------------------------

  ghost predicate EmailIndexed(t: Tables) {
    && (forall e :: e in t.byEmail ==> t.byEmail[e] in t.users && t.users[t.byEmail[e]].email == Some(e))
    && (forall u :: u in t.users && t.users[u].email.Some? ==>
          t.users[u].email.value in t.byEmail && t.byEmail[t.users[u].email.value] == u)
  }

  ghost predicate PhoneIndexed(t: Tables) {
    && (forall p :: p in t.byPhone ==> t.byPhone[p] in t.users && t.users[t.byPhone[p]].phone == Some(p))
    && (forall u :: u in t.users && t.users[u].phone.Some? ==>
          t.users[u].phone.value in t.byPhone && t.byPhone[t.users[u].phone.value] == u)
  }

  ghost predicate UsernameIndexed(t: Tables) {
    && (forall n :: n in t.byUsername ==> t.byUsername[n] in t.users && t.users[t.byUsername[n]].username == Some(n))
    && (forall u :: u in t.users && t.users[u].username.Some? ==>
          t.users[u].username.value in t.byUsername && t.byUsername[t.users[u].username.value] == u)
  }

  /** A blank value is never stored, so never in an index. */
  ghost predicate NoneBlank(index: map<string, UserId>) {
    forall v :: v in index ==> Optional(v).Some?
  }

  ghost predicate Indexed(t: Tables) {
    && (forall u :: u in t.users ==> u < t.born)
    && EmailIndexed(t) && PhoneIndexed(t) && UsernameIndexed(t)
    && NoneBlank(t.byEmail) && NoneBlank(t.byPhone) && NoneBlank(t.byUsername)
  }

  ghost predicate NothingBlank(user: User) {
    && (user.email.Some? ==> Optional(user.email.value).Some?)
    && (user.phone.Some? ==> Optional(user.phone.value).Some?)
    && (user.username.Some? ==> Optional(user.username.value).Some?)
  }

  lemma InsertKeepsEmails(t: Tables, user: User)
    requires t.born !in t.users && EmailIndexed(t) && Insertable(t, user)
    ensures EmailIndexed(Insert(t, user))
  {}

  lemma InsertKeepsPhones(t: Tables, user: User)
    requires t.born !in t.users && PhoneIndexed(t) && Insertable(t, user)
    ensures PhoneIndexed(Insert(t, user))
  {}

  lemma InsertKeepsUsernames(t: Tables, user: User)
    requires t.born !in t.users && UsernameIndexed(t) && Insertable(t, user)
    ensures UsernameIndexed(Insert(t, user))
  {}

  lemma InsertKeepsIndexes(t: Tables, user: User)
    requires Indexed(t) && Insertable(t, user) && NothingBlank(user)
    ensures Indexed(Insert(t, user))
  {
    assert t.born !in t.users;
    InsertKeepsEmails(t, user);
    InsertKeepsPhones(t, user);
    InsertKeepsUsernames(t, user);
    var i := Insert(t, user);
    assert NoneBlank(i.byEmail) && NoneBlank(i.byPhone) && NoneBlank(i.byUsername);
  }

  lemma MarkKeepsIndexes(t: Tables, user: UserId)
    requires Indexed(t)
    ensures Indexed(MarkVerified(t, user))
  {}

  lemma EffectKeepsIndexes(t: Tables, c: CallId, call: Call, fate: Fate)
    requires Indexed(t)
    ensures Indexed(Effect(t, c, call, fate))
  {
    match call.pc
    case CreateUser =>
      if Insertable(t, NewUser(call.request, c)) { InsertKeepsIndexes(t, NewUser(call.request, c)); }
    case Mark(user) => MarkKeepsIndexes(t, user);
    case _ => LinksKeepIndexes(t, c, call, fate);
  }

  lemma LinksKeepIndexes(t: Tables, c: CallId, call: Call, fate: Fate)
    requires Indexed(t) && !call.pc.CreateUser? && !call.pc.Mark?
    ensures Indexed(Effect(t, c, call, fate))
  {
    EffectIsALink(t, c, call, fate);
    SameColumns(t, Effect(t, c, call, fate));
  }

  lemma EffectIsALink(t: Tables, c: CallId, call: Call, fate: Fate)
    requires !call.pc.CreateUser? && !call.pc.Mark?
    ensures var e := Effect(t, c, call, fate);
      e == t || ((call.pc.LinkTo? || call.pc.LinkNew?) && KeyOf(call.request) !in t.identities &&
                 e == Link(t, KeyOf(call.request), call.pc.user, c))
  {}

  lemma SameColumns(t: Tables, e: Tables)
    requires Indexed(t) && e == t.(identities := e.identities)
    ensures Indexed(e)
  {
    assert EmailIndexed(e) && PhoneIndexed(e) && UsernameIndexed(e);
  }

  // --- growth ------------------------------------------------------------------------------

  predicate SameRow(before: User, after: User) {
    before.email == after.email && before.phone == after.phone && before.origin == after.origin
  }

  /** Rows are added; none loses its address, its origin or its owner. */
  ghost predicate Grows(t: Tables, t': Tables) {
    && (forall u :: u in t.users ==> u in t'.users && SameRow(t.users[u], t'.users[u]))
    && (forall k :: k in t.identities ==> k in t'.identities && t'.identities[k] == t.identities[k])
  }

  lemma InsertGrows(t: Tables, user: User)
    requires Indexed(t)
    ensures Grows(t, Insert(t, user))
  {
    assert t.born !in t.users;
  }

  lemma EffectGrows(t: Tables, c: CallId, call: Call, fate: Fate)
    requires Indexed(t)
    ensures Grows(t, Effect(t, c, call, fate))
  {
    if call.pc.CreateUser? {
      InsertGrows(t, NewUser(call.request, c));
    } else {
      UpdatesGrow(t, c, call, fate);
    }
  }

  lemma UpdatesGrow(t: Tables, c: CallId, call: Call, fate: Fate)
    requires !call.pc.CreateUser?
    ensures Grows(t, Effect(t, c, call, fate))
  {
    if call.pc.Mark? {
      assert Grows(t, MarkVerified(t, call.pc.user));
      assert Grows(t, t);
    } else {
      EffectIsALink(t, c, call, fate);
    }
  }

  // --- the invariant -----------------------------------------------------------------------

  /** What a request proves about an account it did not create. */
  predicate Vouches(r: Request, user: User) {
    match r
    case Social(_, _, email, verified) => verified && user.email == Some(email)
    case ByPhone(number) => user.phone == Some(number)
    case Register(_, _) => false
  }

  ghost predicate Owns(t: Tables, key: Key, user: UserId) {
    key in t.identities && t.identities[key].user == user
  }

  ghost predicate CallSound(t: Tables, c: CallId, call: Call) {
    match call.pc
    case LoadAccount(user) => Owns(t, KeyOf(call.request), user)
    case Mark(user) => Owns(t, KeyOf(call.request), user) && user in t.users && Vouches(call.request, t.users[user])
    case Finished(result) => result.Resolved? ==> Owns(t, KeyOf(call.request), result.user)
    case FindIdentity => !call.request.Register?
    case FindHolder => !call.request.Register?
    case LinkTo(user, _) => user in t.users && Vouches(call.request, t.users[user])
    case LinkNew(user) => user in t.users && t.users[user].origin == c
    case _ => true
  }

  /** A link was made by a call for that very key, to an account the call created or could vouch for. */
  ghost predicate LinkSound(t: Tables, calls: map<CallId, Call>, key: Key)
    requires key in t.identities
  {
    var link := t.identities[key];
    && link.user in t.users && link.linker in calls
    && KeyOf(calls[link.linker].request) == key
    && (t.users[link.user].origin == link.linker || Vouches(calls[link.linker].request, t.users[link.user]))
  }

  ghost predicate CallsSound(s: State) {
    forall c :: c in s.calls ==> c < s.started && CallSound(s.tables, c, s.calls[c])
  }

  ghost predicate LinksSound(s: State) {
    forall k :: k in s.tables.identities ==> LinkSound(s.tables, s.calls, k)
  }

  ghost predicate Inv(s: State) {
    Indexed(s.tables) && CallsSound(s) && LinksSound(s)
  }

  lemma CallSoundGrows(t: Tables, t': Tables, c: CallId, call: Call)
    requires Grows(t, t') && CallSound(t, c, call)
    ensures CallSound(t', c, call)
  {}

  lemma MoverSound(t: Tables, c: CallId, call: Call, fate: Fate)
    requires Indexed(t) && CallSound(t, c, call)
    ensures CallSound(Effect(t, c, call, fate), c, call.(pc := NextPc(t, c, call, fate)))
  {
    if call.pc.FindHolder? && Holder(t, call.request).Some? { HolderIsVouchedFor(t, call.request); }
    if call.pc.Mark? || call.pc.LoadAccount? { MarkerSound(t, c, call, fate); }
  }

  lemma MarkerSound(t: Tables, c: CallId, call: Call, fate: Fate)
    requires CallSound(t, c, call) && (call.pc.Mark? || call.pc.LoadAccount?)
    ensures CallSound(Effect(t, c, call, fate), c, call.(pc := NextPc(t, c, call, fate)))
  {}

  lemma HolderIsVouchedFor(t: Tables, r: Request)
    requires Indexed(t) && Holder(t, r).Some? && !r.Register?
    ensures var holder := Holder(t, r).value;
      holder in t.users && ((r.Social? ==> r.emailVerified) ==> Vouches(r, t.users[holder]))
  {}

  ghost predicate SameRequests(calls: map<CallId, Call>, calls': map<CallId, Call>) {
    forall c :: c in calls ==> c in calls' && calls'[c].request == calls[c].request
  }

  lemma LinkSoundGrows(t: Tables, t': Tables, calls: map<CallId, Call>, calls': map<CallId, Call>, key: Key)
    requires Grows(t, t') && SameRequests(calls, calls') && key in t.identities && LinkSound(t, calls, key)
    ensures key in t'.identities && LinkSound(t', calls', key)
  {}

  lemma NewLinkSound(t: Tables, calls: map<CallId, Call>, c: CallId, fate: Fate, key: Key)
    requires c in calls && CallSound(t, c, calls[c])
    requires key in Effect(t, c, calls[c], fate).identities && key !in t.identities
    ensures LinkSound(Effect(t, c, calls[c], fate), calls, key)
  {}

  lemma MoveKeepsCalls(s: State, c: CallId, fate: Fate)
    requires Indexed(s.tables) && CallsSound(s) && c in s.calls
    ensures CallsSound(MoveCall(s, c, fate))
  {
    var s' := MoveCall(s, c, fate);
    EffectGrows(s.tables, c, s.calls[c], fate);
    MoverSound(s.tables, c, s.calls[c], fate);
    forall d | d in s'.calls
      ensures d < s'.started && CallSound(s'.tables, d, s'.calls[d])
    {
      if d != c { CallSoundGrows(s.tables, s'.tables, d, s.calls[d]); }
    }
  }

  lemma MoveKeepsLinks(s: State, c: CallId, fate: Fate)
    requires Indexed(s.tables) && CallsSound(s) && LinksSound(s) && c in s.calls
    ensures LinksSound(MoveCall(s, c, fate))
  {
    var s' := MoveCall(s, c, fate);
    EffectGrows(s.tables, c, s.calls[c], fate);
    forall k | k in s'.tables.identities
      ensures LinkSound(s'.tables, s'.calls, k)
    {
      if k in s.tables.identities {
        LinkSoundGrows(s.tables, s'.tables, s.calls, s'.calls, k);
      } else {
        NewLinkSound(s.tables, s.calls, c, fate, k);
        LinkSoundGrows(s'.tables, s'.tables, s.calls, s'.calls, k);
      }
    }
  }

  lemma MoveKeeps(s: State, c: CallId, fate: Fate)
    requires Inv(s) && c in s.calls
    ensures Inv(MoveCall(s, c, fate)) && Grows(s.tables, MoveCall(s, c, fate).tables)
  {
    EffectGrows(s.tables, c, s.calls[c], fate);
    EffectKeepsIndexes(s.tables, c, s.calls[c], fate);
    MoveKeepsCalls(s, c, fate);
    MoveKeepsLinks(s, c, fate);
  }

  lemma StartKeeps(s: State, r: Request)
    requires Inv(s)
    ensures Inv(StartCall(s, r))
  {}

  lemma {:induction false} RunKeeps(s: State, ops: seq<Op>)
    requires Inv(s)
    ensures Inv(Run(s, ops)) && Grows(s.tables, Run(s, ops).tables)
    decreases |ops|
  {
    if ops != [] {
      match ops[0] {
        case Start(r) => StartKeeps(s, r);
        case Move(c, fate) => if c in s.calls { MoveKeeps(s, c, fate); }
      }
      RunKeeps(Step(s, ops[0]), ops[1..]);
    }
  }

  /** Every identity leads to a row. */
  ghost predicate Grounded(t: Tables) {
    Indexed(t) && forall k :: k in t.identities ==> t.identities[k].user in t.users
  }

  lemma InvGrounds(s: State)
    requires Inv(s)
    ensures Grounded(s.tables) && s.started !in s.calls
  {
    forall k | k in s.tables.identities
      ensures s.tables.identities[k].user in s.tables.users
    {
      assert LinkSound(s.tables, s.calls, k);
    }
  }

  // --- theorems ----------------------------------------------------------------------------

  lemma Reachable(ops: seq<Op>)
    ensures Inv(Run(Init(), ops))
  {
    RunKeeps(Init(), ops);
  }

  lemma {:induction false} RunConcat(s: State, a: seq<Op>, b: seq<Op>)
    ensures Run(s, a + b) == Run(Run(s, a), b)
    decreases |a|
  {
    if a == [] {
      assert a + b == b;
    } else {
      assert (a + b)[1..] == a[1..] + b;
      RunConcat(Step(s, a[0]), a[1..], b);
    }
  }

  ghost predicate Answered(s: State, c: CallId, key: Key, user: UserId) {
    c in s.calls && KeyOf(s.calls[c].request) == key && s.calls[c].pc == Finished(Resolved(user))
  }

  /**
   Whatever runs and whatever fails, every sign-in with one provider and subject that is answered,
   now or after any later run, is answered with the same account.
   */
  lemma SameKeySameAccount(ops: seq<Op>, later: seq<Op>, c: CallId, d: CallId, key: Key, u: UserId, v: UserId)
    requires Answered(Run(Init(), ops), c, key, u) && Answered(Run(Init(), ops + later), d, key, v)
    ensures u == v
  {
    var s := Run(Init(), ops);
    var s' := Run(s, later);
    RunConcat(Init(), ops, later);
    Reachable(ops);
    RunKeeps(s, later);
    assert CallSound(s.tables, c, s.calls[c]) && CallSound(s'.tables, d, s'.calls[d]);
  }

  // --- one number, one account -------------------------------------------------------------

  /** An account keeps the addresses its creating request gave it. */
  ghost predicate RowsAsMade(s: State) {
    forall u :: u in s.tables.users ==> MadeBy(s.tables.users[u], s.calls)
  }

  ghost predicate MadeBy(user: User, calls: map<CallId, Call>) {
    && user.origin in calls
    && user.phone == NewUser(calls[user.origin].request, user.origin).phone
    && user.email == NewUser(calls[user.origin].request, user.origin).email
  }

  lemma EffectRow(t: Tables, c: CallId, call: Call, fate: Fate, u: UserId)
    requires u in Effect(t, c, call, fate).users
    ensures var row := Effect(t, c, call, fate).users[u];
      row == NewUser(call.request, c) || (u in t.users && SameRow(t.users[u], row))
  {
    if !call.pc.CreateUser? && !call.pc.Mark? { EffectIsALink(t, c, call, fate); }
  }

  lemma MoveKeepsRows(s: State, c: CallId, fate: Fate)
    requires RowsAsMade(s) && c in s.calls
    ensures RowsAsMade(MoveCall(s, c, fate))
  {
    var s' := MoveCall(s, c, fate);
    forall u | u in s'.tables.users
      ensures MadeBy(s'.tables.users[u], s'.calls)
    {
      EffectRow(s.tables, c, s.calls[c], fate, u);
      if u in s.tables.users && SameRow(s.tables.users[u], s'.tables.users[u]) {
        MadeStays(s.tables.users[u], s'.tables.users[u], s.calls, s'.calls);
      }
    }
  }

  lemma MadeStays(before: User, after: User, calls: map<CallId, Call>, calls': map<CallId, Call>)
    requires SameRow(before, after) && MadeBy(before, calls) && SameRequests(calls, calls')
    ensures MadeBy(after, calls')
  {}

  lemma {:induction false} RunKeepsRows(s: State, ops: seq<Op>)
    requires Inv(s) && RowsAsMade(s)
    ensures RowsAsMade(Run(s, ops))
    decreases |ops|
  {
    if ops != [] {
      match ops[0] {
        case Start(r) =>
          InvGrounds(s);
          StartKeeps(s, r);
        case Move(c, fate) =>
          if c in s.calls {
            MoveKeeps(s, c, fate);
            MoveKeepsRows(s, c, fate);
          }
      }
      RunKeepsRows(Step(s, ops[0]), ops[1..]);
    }
  }

  /** The identity of a phone number leads to the account that holds the number. */
  lemma NumberLeadsToItsHolder(s: State, number: string)
    requires Inv(s) && RowsAsMade(s) && PhoneKey(number) in s.tables.identities && Optional(number).Some?
    ensures var user := s.tables.identities[PhoneKey(number)].user;
      user in s.tables.users && s.tables.users[user].phone == Some(number)
  {
    assert LinkSound(s.tables, s.calls, PhoneKey(number));
    var link := s.tables.identities[PhoneKey(number)];
    assert s.calls[link.linker].request == ByPhone(number);
    assert MadeBy(s.tables.users[link.user], s.calls);
  }

  /** A phone sign-in for the number this text is read as was answered with this account. */
  ghost predicate SignedInAs(s: State, c: CallId, typed: string, cc: string, user: UserId) {
    Phone.Normalize(typed, cc).Accepted? && Answered(s, c, PhoneKey(Phone.Normalize(typed, cc).number), user)
  }

  lemma AcceptedIsNotBlank(typed: string, cc: string)
    requires Phone.Normalize(typed, cc).Accepted? && Phone.AllDigits(cc)
    ensures Optional(Phone.Normalize(typed, cc).number).Some?
  {
    var number := Phone.Normalize(typed, cc).number;
    Phone.PlusTrims(number[1..]);
    assert number == "+" + number[1..];
  }

  lemma AnsweredHolds(s: State, c: CallId, typed: string, cc: string, u: UserId)
    requires Inv(s) && RowsAsMade(s) && SignedInAs(s, c, typed, cc, u) && Phone.AllDigits(cc)
    ensures u in s.tables.users && s.tables.users[u].phone == Some(Phone.Normalize(typed, cc).number)
  {
    AcceptedIsNotBlank(typed, cc);
    assert CallSound(s.tables, c, s.calls[c]);
    NumberLeadsToItsHolder(s, Phone.Normalize(typed, cc).number);
  }

  /**
   Two phone sign-ins, at any two points of any run and however the numbers are spelled, are
   answered with one account exactly when the texts spell one subscriber.
   */
  lemma SameNumberSameAccount(
    ops: seq<Op>, later: seq<Op>, c: CallId, d: CallId,
    first: string, second: string, n: string, m: string, cc: string, u: UserId, v: UserId)
    requires Phone.IsSubscriber(n, cc) && Phone.Spells(first, n, cc)
    requires Phone.IsSubscriber(m, cc) && Phone.Spells(second, m, cc)
    requires SignedInAs(Run(Init(), ops), c, first, cc, u) && SignedInAs(Run(Init(), ops + later), d, second, cc, v)
    ensures u == v <==> n == m
  {
    Phone.SpelledAs(first, n, cc);
    Phone.SpelledAs(second, m, cc);
    var s := Run(Init(), ops);
    RunConcat(Init(), ops, later);
    Reachable(ops);
    RunKeeps(s, later);
    RunKeepsRows(Init(), ops);
    RunKeepsRows(s, later);
    AnsweredHolds(s, c, first, cc, u);
    AnsweredHolds(Run(s, later), d, second, cc, v);
    if n == m {
      SameKeySameAccount(ops, later, c, d, PhoneKey(Phone.Normalize(first, cc).number), u, v);
    } else {
      Phone.SamePrefix("+" + cc, n, m);
    }
  }

  /** No address, whether a phone number or an email, ever belongs to two accounts. */
  lemma OneAccountPerAddress(ops: seq<Op>, u: UserId, v: UserId)
    requires var users := Run(Init(), ops).tables.users;
      && u in users && v in users
      && ((users[u].email.Some? && users[u].email == users[v].email) ||
          (users[u].phone.Some? && users[u].phone == users[v].phone))
    ensures u == v
  {
    Reachable(ops);
  }

  /**
   A sign-in method is only ever attached to the account its own sign-in created, or to one whose
   address that sign-in proved: a profile with an unverified email joins no existing account.
   */
  lemma NobodyJoinsUnvouched(ops: seq<Op>, key: Key)
    requires key in Run(Init(), ops).tables.identities
    ensures var s := Run(Init(), ops);
      var link := s.tables.identities[key];
      && link.user in s.tables.users && link.linker in s.calls
      && KeyOf(s.calls[link.linker].request) == key
      && (s.tables.users[link.user].origin == link.linker ||
          Vouches(s.calls[link.linker].request, s.tables.users[link.user]))
  {
    Reachable(ops);
    assert LinkSound(Run(Init(), ops).tables, Run(Init(), ops).calls, key);
  }

  // --- what makes an email verified --------------------------------------------------------

  /** Some provider vouched for this address, in a sign-in that began. */
  ghost predicate VouchedFor(calls: map<CallId, Call>, email: Email) {
    exists c :: c in calls && ProviderVouches(calls[c].request, email)
  }

  predicate ProviderVouches(r: Request, email: Email) {
    r.Social? && r.emailVerified && r.email == email
  }

  ghost predicate MarksVouched(t: Tables, calls: map<CallId, Call>) {
    forall u :: u in t.users && t.users[u].emailVerified && t.users[u].email.Some? ==>
      VouchedFor(calls, t.users[u].email.value)
  }

  lemma VouchersStay(calls: map<CallId, Call>, calls': map<CallId, Call>, email: Email)
    requires VouchedFor(calls, email) && SameRequests(calls, calls')
    ensures VouchedFor(calls', email)
  {
    var c :| c in calls && ProviderVouches(calls[c].request, email);
    assert c in calls' && ProviderVouches(calls'[c].request, email);
  }

  lemma EffectMarksVouched(t: Tables, calls: map<CallId, Call>, c: CallId, fate: Fate)
    requires MarksVouched(t, calls) && c in calls && CallSound(t, c, calls[c])
    requires calls[c].pc.Mark? ==> calls[c].request.Social?
    ensures MarksVouched(Effect(t, c, calls[c], fate), calls)
  {
    var e, r := Effect(t, c, calls[c], fate), calls[c].request;
    assert r.Social? && r.emailVerified ==> ProviderVouches(r, r.email);
    forall u | u in e.users && e.users[u].emailVerified && e.users[u].email.Some?
      ensures VouchedFor(calls, e.users[u].email.value)
    {}
  }

  /** Only a call that carries a provider's word is ever about to mark an email. */
  ghost predicate MarkersAreSocial(calls: map<CallId, Call>) {
    forall c :: c in calls && calls[c].pc.Mark? ==> calls[c].request.Social?
  }

  lemma {:induction false} RunMarksVouched(s: State, ops: seq<Op>)
    requires Inv(s) && MarksVouched(s.tables, s.calls) && MarkersAreSocial(s.calls)
    ensures var t := Run(s, ops); MarksVouched(t.tables, t.calls)
    decreases |ops|
  {
    if ops != [] {
      var t := Step(s, ops[0]);
      match ops[0] {
        case Start(r) => StartKeeps(s, r);
        case Move(c, fate) =>
          if c in s.calls {
            MoveKeeps(s, c, fate);
            EffectMarksVouched(s.tables, s.calls, c, fate);
          }
      }
      RequestsStay(s, ops[0]);
      forall u | u in t.tables.users && t.tables.users[u].emailVerified && t.tables.users[u].email.Some?
        ensures VouchedFor(t.calls, t.tables.users[u].email.value)
      {
        VouchersStay(s.calls, t.calls, t.tables.users[u].email.value);
      }
      RunMarksVouched(t, ops[1..]);
    }
  }

  lemma RequestsStay(s: State, op: Op)
    requires CallsSound(s) && MarkersAreSocial(s.calls)
    ensures SameRequests(s.calls, Step(s, op).calls) && MarkersAreSocial(Step(s, op).calls)
  {}

  /** An email is only ever marked verified on the word of a provider: a registration or a phone sign-in never does it. */
  lemma VerifiedMeansVouched(ops: seq<Op>, u: UserId)
    requires var users := Run(Init(), ops).tables.users; u in users && users[u].emailVerified && users[u].email.Some?
    ensures var s := Run(Init(), ops); VouchedFor(s.calls, s.tables.users[u].email.value)
  {
    RunMarksVouched(Init(), ops);
  }

  // --- one sign-in with everything working -------------------------------------------------

  /** What a sign-in comes to, from the tables alone. */
  function Expected(t: Tables, r: Request): Result {
    if KeyOf(r) in t.identities then Resolved(t.identities[KeyOf(r)].user)
    else if Holder(t, r).None? then Resolved(t.born)
    else if r.Social? && !r.emailVerified then Conflict
    else Resolved(Holder(t, r).value)
  }

  lemma LinkEnds(t: Tables, c: CallId, call: Call)
    requires (call.pc.LinkTo? || call.pc.LinkNew?) && KeyOf(call.request) !in t.identities
    ensures Drive(t, c, call, []).1 == Resolved(call.pc.user)
  {
    var next := call.(pc := NextPc(t, c, call, Works));
    assert Drive(Effect(t, c, call, Works), c, next, []).1 == Resolved(call.pc.user);
  }

  lemma CreateEnds(t: Tables, c: CallId, r: Request)
    requires KeyOf(r) !in t.identities && Insertable(t, NewUser(r, c))
    ensures Drive(t, c, Call(r, CreateUser), []).1 == Resolved(t.born)
  {
    LinkEnds(Insert(t, NewUser(r, c)), c, Call(r, LinkNew(t.born)));
  }

  lemma FreeAddressInserts(t: Tables, r: Request, c: CallId)
    requires Indexed(t) && Holder(t, r).None?
    ensures Insertable(t, NewUser(r, c))
  {}

  lemma HolderEnds(t: Tables, c: CallId, r: Request)
    requires Indexed(t) && !r.Register? && KeyOf(r) !in t.identities
    ensures Drive(t, c, Call(r, FindHolder), []).1 == Expected(t, r)
  {
    var next := AnsweredPc(t, c, Call(r, FindHolder));
    if Holder(t, r).None? {
      FreeAddressInserts(t, r, c);
      CreateEnds(t, c, r);
      assert Drive(t, c, Call(r, FindRole), []) == Drive(t, c, Call(r, CreateUser), []);
    } else if next.LinkTo? {
      LinkEnds(t, c, Call(r, next));
    }
  }

  lemma IdentityEnds(t: Tables, c: CallId, r: Request)
    requires Indexed(t) && !r.Register?
    requires forall k :: k in t.identities ==> t.identities[k].user in t.users
    ensures SignIn(t, c, r, []).1 == Expected(t, r)
  {
    if KeyOf(r) in t.identities {
      assert Drive(t, c, Call(r, LoadAccount(t.identities[KeyOf(r)].user)), []).1 == Expected(t, r);
    } else if r.Social? && r.email == "" {
      FreeAddressInserts(t, r, c);
      CreateEnds(t, c, r);
      assert Drive(t, c, Call(r, FindRole), []) == Drive(t, c, Call(r, CreateUser), []);
    } else {
      HolderEnds(t, c, r);
    }
  }

  /**
   After any run, a sign-in that meets no failure is answered from the tables: with the account
   its identity names, else with the holder of its proven address, else with a new one; it is
   refused exactly when an account holds its email and the provider does not vouch for it.
   */
  lemma SoloSignIn(ops: seq<Op>, r: Request)
    requires !r.Register?
    ensures var s := Run(Init(), ops); SignIn(s.tables, s.started, r, []).1 == Expected(s.tables, r)
    ensures var t := Run(Init(), ops).tables;
      Expected(t, r) == Conflict <==>
      KeyOf(r) !in t.identities && r.Social? && !r.emailVerified && r.email in t.byEmail
  {
    var s := Run(Init(), ops);
    Reachable(ops);
    forall k | k in s.tables.identities
      ensures s.tables.identities[k].user in s.tables.users
    {
      assert LinkSound(s.tables, s.calls, k);
    }
    IdentityEnds(s.tables, s.started, r);
  }

  lemma MoveThenFinish(s: State, c: CallId, fate: Fate, tables: Tables, result: Result)
    requires c in s.calls
    ensures var m := MoveCall(s, c, fate);
      State(tables, m.calls[c := m.calls[c].(pc := Finished(result))], m.started) ==
      State(tables, s.calls[c := s.calls[c].(pc := Finished(result))], s.started)
  {}

  /** Driving a call is a run of the machine in which nobody else moves. */
  lemma {:induction false} DriveIsARun(s: State, c: CallId, fates: seq<Fate>) returns (ops: seq<Op>)
    requires c in s.calls
    ensures var (tables, result) := Drive(s.tables, c, s.calls[c], fates);
      Run(s, ops) == State(tables, s.calls[c := s.calls[c].(pc := Finished(result))], s.started)
    ensures forall op :: op in ops ==> op.Move?
    decreases Left(s.calls[c].pc)
  {
    if s.calls[c].pc.Finished? {
      ops := [];
      assert s.calls[c := s.calls[c]] == s.calls;
    } else {
      var m, left := MoveCall(s, c, First(fates)), Rest(fates);
      var rest := DriveIsARun(m, c, left);
      ops := [Move(c, First(fates))] + rest;
      assert ops[1..] == rest;
      var (tables, result) := Drive(m.tables, c, m.calls[c], left);
      assert Drive(s.tables, c, s.calls[c], fates) == (tables, result);
      MoveThenFinish(s, c, First(fates), tables, result);
    }
  }

  // --- what a failure part-way leaves behind -----------------------------------------------

  /** The profile's account exists but is not linked, and every attempt so far has failed. */
  ghost predicate Stuck(s: State, r: Request) {
    && r.Social? && !r.emailVerified && r.email != "" && r.email in s.tables.byEmail
    && KeyOf(r) !in s.tables.identities
    && forall c :: c in s.calls && KeyOf(s.calls[c].request) == KeyOf(r) ==> StuckCall(s.calls[c], r)
  }

  predicate StuckCall(c: Call, r: Request) {
    c.request == r && (c.pc == FindIdentity || c.pc == FindHolder || c.pc == Finished(Conflict) || c.pc == Finished(Failed))
  }

  ghost predicate OnlyRetries(ops: seq<Op>, r: Request) {
    forall i :: 0 <= i < |ops| && ops[i].Start? && KeyOf(ops[i].request) == KeyOf(r) ==> ops[i].request == r
  }

  lemma StuckMoves(s: State, r: Request, c: CallId, fate: Fate)
    requires Stuck(s, r) && c in s.calls
    ensures Stuck(MoveCall(s, c, fate), r)
  {}

  /**
   A social sign-up with an unverified email whose link failed is stranded: the account it made
   holds the email, so no later attempt with that profile is ever answered, however often retried.
   */
  lemma {:induction false} StrandedForever(s: State, r: Request, ops: seq<Op>, c: CallId)
    requires Stuck(s, r) && OnlyRetries(ops, r)
    requires s.started !in s.calls && forall d :: d in s.calls ==> d < s.started
    ensures var t := Run(s, ops);
      c in t.calls && KeyOf(t.calls[c].request) == KeyOf(r) && t.calls[c].pc.Finished? ==>
      !t.calls[c].pc.result.Resolved?
    decreases |ops|
  {
    if ops != [] {
      assert forall i :: 0 <= i < |ops[1..]| ==> ops[1..][i] == ops[i + 1];
      if ops[0].Move? && ops[0].call in s.calls { StuckMoves(s, r, ops[0].call, ops[0].fate); }
      StrandedForever(Step(s, ops[0]), r, ops[1..], c);
    } else if c in s.calls && KeyOf(s.calls[c].request) == KeyOf(r) {
      assert StuckCall(s.calls[c], r);
    }
  }

  // --- sign-ins that leave an account without its identity ---------------------------------

  /** How the call's repository call number `i` ends. */
  function At(fates: seq<Fate>, i: nat): Fate {
    if i < |fates| then fates[i] else Works
  }

  /** The repository calls before the insert of a new account: they only read. */
  function Reads(r: Request): nat {
    if r.Register? || (r.Social? && r.email == "") then 2 else 3
  }

  /** Nothing in the tables answers or refuses the request: it is to get a new account. */
  predicate NewComer(t: Tables, r: Request) {
    Holder(t, r).None? && (r.Register? || KeyOf(r) !in t.identities)
  }

  predicate InsertLands(r: Request, fates: seq<Fate>) {
    (forall i :: 0 <= i < Reads(r) ==> At(fates, i).Works?) && !At(fates, Reads(r)).Fails?
  }

  /** The link is tried only by a call that was told of its insert. */
  predicate LinkLands(t: Tables, r: Request, fates: seq<Fate>) {
    At(fates, Reads(r)).Works? && !At(fates, Reads(r) + 1).Fails? && KeyOf(r) !in t.identities
  }

  /** A new account is there, and the identity it was made for does not lead to it. */
  predicate LeftBehind(before: Tables, after: Tables, key: Key) {
    before.born in after.users && (key in after.identities ==> after.identities[key].user != before.born)
  }

  lemma Shifted(fates: seq<Fate>, i: nat)
    ensures At(fates, i + 1) == At(Rest(fates), i) && First(fates) == At(fates, 0)
  {}

  /** From the insert on, as a function of the two fates. */
  function Created(t: Tables, c: CallId, r: Request, insert: Fate, link: Fate): (Tables, Result) {
    var user := NewUser(r, c);
    if insert.Fails? || !Insertable(t, user) then (t, Failed)
    else if insert.Lost? || link.Fails? || KeyOf(r) in t.identities then (Insert(t, user), Failed)
    else (Link(Insert(t, user), KeyOf(r), t.born, c), if link.Works? then Resolved(t.born) else Failed)
  }

  lemma CreateRuns(t: Tables, c: CallId, r: Request, fates: seq<Fate>)
    ensures Drive(t, c, Call(r, CreateUser), fates) == Created(t, c, r, At(fates, 0), At(fates, 1))
  {
    Shifted(fates, 0);
    var user := NewUser(r, c);
    if First(fates).Works? && Insertable(t, user) {
      LinkNewRuns(Insert(t, user), c, r, t.born, Rest(fates));
    }
  }

  lemma LinkNewRuns(t: Tables, c: CallId, r: Request, user: UserId, fates: seq<Fate>)
    ensures Drive(t, c, Call(r, LinkNew(user)), fates) ==
            if First(fates).Fails? || KeyOf(r) in t.identities then (t, Failed)
            else (Link(t, KeyOf(r), user, c), if First(fates).Works? then Resolved(user) else Failed)
  {
    var call := Call(r, LinkNew(user));
    var next := call.(pc := NextPc(t, c, call, First(fates)));
    assert Drive(Effect(t, c, call, First(fates)), c, next, Rest(fates)).1 == next.pc.result;
  }

  /** A call about to read ends at once, without a change, when the read fails. */
  lemma ReadFails(t: Tables, c: CallId, call: Call, fates: seq<Fate>)
    requires call.pc.FindIdentity? || call.pc.FindHolder? || call.pc.FindRole? || call.pc.CheckRole? || call.pc.CheckTaken?
    requires !First(fates).Works?
    ensures Drive(t, c, call, fates) == (t, Failed)
  {
    assert Drive(t, c, call.(pc := Finished(Failed)), Rest(fates)) == (t, Failed);
  }

  lemma ReadWorks(t: Tables, c: CallId, call: Call, fates: seq<Fate>)
    requires call.pc.FindIdentity? || call.pc.FindHolder? || call.pc.FindRole? || call.pc.CheckRole? || call.pc.CheckTaken?
    requires First(fates).Works?
    ensures Drive(t, c, call, fates) == Drive(t, c, call.(pc := AnsweredPc(t, c, call)), Rest(fates))
  {}

  /** From the default role on. */
  lemma RoleRuns(t: Tables, c: CallId, r: Request, fates: seq<Fate>)
    ensures Drive(t, c, Call(r, FindRole), fates) ==
            if At(fates, 0).Works? then Created(t, c, r, At(fates, 1), At(fates, 2)) else (t, Failed)
  {
    Shifted(fates, 0);
    Shifted(fates, 1);
    if First(fates).Works? {
      ReadWorks(t, c, Call(r, FindRole), fates);
      CreateRuns(t, c, r, Rest(fates));
    } else {
      ReadFails(t, c, Call(r, FindRole), fates);
    }
  }

  /** A newcomer whose reads work. */
  lemma NewComerRuns(t: Tables, c: CallId, r: Request, fates: seq<Fate>)
    requires NewComer(t, r) && !r.Register? && First(fates).Works?
    requires Reads(r) == 3 ==> At(fates, 1).Works?
    ensures SignIn(t, c, r, fates) ==
            if At(fates, Reads(r) - 1).Works? then Created(t, c, r, At(fates, Reads(r)), At(fates, Reads(r) + 1))
            else (t, Failed)
  {
    var rest := Rest(fates);
    Shifted(fates, 0);
    Shifted(fates, 1);
    Shifted(fates, 2);
    ReadWorks(t, c, Call(r, FindIdentity), fates);
    if Reads(r) == 2 {
      RoleRuns(t, c, r, rest);
    } else {
      Shifted(fates, 3);
      Shifted(rest, 0);
      Shifted(rest, 1);
      Shifted(rest, 2);
      ReadWorks(t, c, Call(r, FindHolder), rest);
      RoleRuns(t, c, r, Rest(rest));
    }
  }

  lemma RegisterRuns(t: Tables, c: CallId, r: Request, fates: seq<Fate>)
    requires r.Register?
    ensures SignIn(t, c, r, fates) ==
            if !At(fates, 0).Works? || !At(fates, 1).Works? then (t, Failed)
            else if Holder(t, r).Some? then (t, Conflict)
            else Created(t, c, r, At(fates, 2), At(fates, 3))
  {
    var rest := Rest(fates);
    Shifted(fates, 0);
    Shifted(fates, 1);
    Shifted(fates, 2);
    if !First(fates).Works? {
      ReadFails(t, c, Call(r, CheckRole), fates);
    } else {
      ReadWorks(t, c, Call(r, CheckRole), fates);
      if !First(rest).Works? {
        ReadFails(t, c, Call(r, CheckTaken), rest);
      } else {
        Shifted(rest, 0);
        Shifted(rest, 1);
        ReadWorks(t, c, Call(r, CheckTaken), rest);
        CreateRuns(t, c, r, Rest(rest));
      }
    }
  }

  /** Only an insert adds an account. */
  predicate NoInsertAhead(call: Call) {
    call.pc.LoadAccount? || call.pc.LinkTo? || call.pc.Mark? || call.pc.LinkNew? || call.pc.Finished?
  }

  lemma {:induction false} WithoutInsert(t: Tables, c: CallId, call: Call, fates: seq<Fate>)
    requires NoInsertAhead(call)
    ensures Drive(t, c, call, fates).0.users.Keys == t.users.Keys
    decreases Left(call.pc)
  {
    if !call.pc.Finished? {
      var e, next := Effect(t, c, call, First(fates)), call.(pc := NextPc(t, c, call, First(fates)));
      assert e.users.Keys == t.users.Keys;
      WithoutInsert(e, c, next, Rest(fates));
    }
  }

  /** No account is added by a sign-in whose reads fail, or that finds its identity or a holder of its address. */
  lemma OthersAddNobody(t: Tables, c: CallId, r: Request, fates: seq<Fate>)
    requires !r.Register?
    requires !NewComer(t, r) || !First(fates).Works? || (Reads(r) == 3 && !At(fates, 1).Works?)
    requires Indexed(t)
    ensures SignIn(t, c, r, fates).0.users.Keys == t.users.Keys
  {
    var rest := Rest(fates);
    Shifted(fates, 0);
    if !First(fates).Works? {
      ReadFails(t, c, Call(r, FindIdentity), fates);
    } else {
      ReadWorks(t, c, Call(r, FindIdentity), fates);
      var next := AnsweredPc(t, c, Call(r, FindIdentity));
      if next.LoadAccount? {
        WithoutInsert(t, c, Call(r, next), rest);
      } else if !First(rest).Works? {
        ReadFails(t, c, Call(r, next), rest);
      } else {
        assert "" !in t.byEmail;
        assert next.FindHolder?;
        ReadWorks(t, c, Call(r, FindHolder), rest);
        WithoutInsert(t, c, Call(r, AnsweredPc(t, c, Call(r, FindHolder))), Rest(rest));
      }
    }
  }

  /**
   A sign-in or registration leaves a new account without its identity exactly when it is a
   newcomer's, its insert takes effect, and the link does not: because the link failed, because
   the key was taken in between, or because the read after the insert failed and no link was tried.
   The caller is then told that it failed.
   */
  lemma LeavesBehindIff(t: Tables, c: CallId, r: Request, fates: seq<Fate>)
    requires Grounded(t)
    ensures var (after, result) := SignIn(t, c, r, fates);
      && (LeftBehind(t, after, KeyOf(r)) <==> NewComer(t, r) && InsertLands(r, fates) && !LinkLands(t, r, fates))
      && (LeftBehind(t, after, KeyOf(r)) ==> after == Insert(t, NewUser(r, c)) && result == Failed)
  {
    Shifted(fates, 0);
    if r.Register? {
      RegistrationLeavesBehind(t, c, r, fates);
    } else if NewComer(t, r) && First(fates).Works? && (Reads(r) == 3 ==> At(fates, 1).Works?) {
      NewComerRuns(t, c, r, fates);
      CreatedLeavesBehind(t, c, r, At(fates, Reads(r)), At(fates, Reads(r) + 1));
    } else {
      assert t.born !in t.users.Keys;
      OthersAddNobody(t, c, r, fates);
    }
  }

  lemma CreatedLeavesBehind(t: Tables, c: CallId, r: Request, insert: Fate, link: Fate)
    requires Grounded(t) && Holder(t, r).None?
    ensures var (after, result) := Created(t, c, r, insert, link);
      && (LeftBehind(t, after, KeyOf(r)) <==>
          !insert.Fails? && !(insert.Works? && !link.Fails? && KeyOf(r) !in t.identities))
      && (LeftBehind(t, after, KeyOf(r)) ==> after == Insert(t, NewUser(r, c)) && result == Failed)
  {
    assert t.born !in t.users;
    FreeAddressInserts(t, r, c);
  }

  lemma RegistrationLeavesBehind(t: Tables, c: CallId, r: Request, fates: seq<Fate>)
    requires Grounded(t) && r.Register?
    ensures var (after, result) := SignIn(t, c, r, fates);
      && (LeftBehind(t, after, KeyOf(r)) <==> NewComer(t, r) && InsertLands(r, fates) && !LinkLands(t, r, fates))
      && (LeftBehind(t, after, KeyOf(r)) ==> after == Insert(t, NewUser(r, c)) && result == Failed)
  {
    assert t.born !in t.users;
    RegisterRuns(t, c, r, fates);
    if Holder(t, r).None? { CreatedLeavesBehind(t, c, r, At(fates, 2), At(fates, 3)); }
  }

  /** The request proves its address, and the account keeps that address. */
  predicate Recoverable(r: Request) {
    match r
    case Social(_, _, email, verified) => verified && Optional(email).Some?
    case ByPhone(number) => Optional(number).Some?
    case Register(_, _) => false
  }

  /**
   The retry of a sign-in that left its account behind is answered with that account exactly when
   the request vouches for an address the account holds.  Otherwise an unproven email is refused
   because the account holds it, and without an email a further account is made.
   */
  lemma RetryRecoversIff(t: Tables, c: CallId, d: CallId, r: Request, fates: seq<Fate>)
    requires Grounded(t) && !r.Register?
    requires LeftBehind(t, SignIn(t, c, r, fates).0, KeyOf(r))
    ensures var retry := SignIn(SignIn(t, c, r, fates).0, d, r, []).1;
      && (retry == Resolved(t.born) <==> Recoverable(r))
      && (retry == Conflict <==> r.Social? && !r.emailVerified && Optional(r.email).Some?)
      && (!Recoverable(r) && retry != Conflict ==> retry == Resolved(t.born + 1))
  {
    LeavesBehindIff(t, c, r, fates);
    var left := Insert(t, NewUser(r, c));
    FreeAddressInserts(t, r, c);
    InsertKeepsIndexes(t, NewUser(r, c));
    IdentityEnds(left, d, r);
  }

  /** A registration that left its account behind is never answered with it. */
  lemma RegistrationIsNotRecovered(t: Tables, c: CallId, d: CallId, r: Request, fates: seq<Fate>, again: seq<Fate>)
    requires Grounded(t) && r.Register? && LeftBehind(t, SignIn(t, c, r, fates).0, KeyOf(r))
    ensures SignIn(SignIn(t, c, r, fates).0, d, r, again).1 != Resolved(t.born)
    ensures Optional(r.username).Some? || Optional(r.email).Some? ==>
              !SignIn(SignIn(t, c, r, fates).0, d, r, again).1.Resolved?
  {
    LeavesBehindIff(t, c, r, fates);
    RegisterRuns(Insert(t, NewUser(r, c)), d, r, again);
  }

  // --- the same on the machine -------------------------------------------------------------

  /** Every call that begins in the run is such a request. */
  ghost predicate OnlyStarts(ops: seq<Op>, r: Request) {
    forall op :: op in ops && op.Start? ==> op.request == r
  }

  /** One attempt alone, from its start. */
  lemma Attempt(s: State, r: Request, fates: seq<Fate>) returns (ops: seq<Op>)
    requires Inv(s)
    ensures var (after, result) := SignIn(s.tables, s.started, r, fates);
      Run(s, ops) == State(after, s.calls[s.started := Call(r, Finished(result))], s.started + 1)
    ensures OnlyStarts(ops, r)
  {
    var begun := StartCall(s, r);
    var moves := DriveIsARun(begun, s.started, fates);
    ops := [Start(r)] + moves;
    assert ops[1..] == moves;
    var (after, result) := SignIn(s.tables, s.started, r, fates);
    assert begun.calls[s.started := begun.calls[s.started].(pc := Finished(result))] ==
           s.calls[s.started := Call(r, Finished(result))];
  }

  ghost predicate FirstTime(s: State, r: Request) {
    KeyOf(r) !in s.tables.identities && forall c :: c in s.calls ==> KeyOf(s.calls[c].request) != KeyOf(r)
  }

  /** And this is how a profile gets stuck: any first attempt that leaves its account behind. */
  lemma LeftBehindStrands(ops: seq<Op>, r: Request, fates: seq<Fate>) returns (more: seq<Op>)
    requires r.Social? && !r.emailVerified && Optional(r.email).Some?
    requires var s := Run(Init(), ops); FirstTime(s, r) && r.email !in s.tables.byEmail
    requires InsertLands(r, fates) && !LinkLands(Run(Init(), ops).tables, r, fates)
    ensures Stuck(Run(Init(), ops + more), r)
  {
    var s := Run(Init(), ops);
    Reachable(ops);
    InvGrounds(s);
    LeavesBehindIff(s.tables, s.started, r, fates);
    more := Attempt(s, r, fates);
    RunConcat(Init(), ops, more);
  }

  /** A row without an address, which no identity names. */
  ghost predicate Bare(t: Tables, u: UserId) {
    && u in t.users && u < t.born
    && t.users[u].email.None? && t.users[u].phone.None? && t.users[u].username.None?
    && (forall k :: k in t.identities ==> t.identities[k].user != u)
  }

  /** An account with no address and no identity, and no call about to give it one. */
  ghost predicate Orphaned(s: State, u: UserId) {
    Bare(s.tables, u) && forall c :: c in s.calls ==> !LeadsTo(s.calls[c].pc, u)
  }

  predicate LeadsTo(pc: Pc, u: UserId) {
    match pc
    case LoadAccount(user) => user == u
    case LinkTo(user, _) => user == u
    case LinkNew(user) => user == u
    case Mark(user) => user == u
    case Finished(result) => result == Resolved(u)
    case _ => false
  }

  /** No identity and no address leads a call to this account. */
  ghost predicate Unreachable(t: Tables, u: UserId, r: Request) {
    u < t.born && Holder(t, r) != Some(u) && forall k :: k in t.identities ==> t.identities[k].user != u
  }

  lemma NobodyHeadsForOrphans(t: Tables, u: UserId, c: CallId, call: Call, fate: Fate)
    requires Unreachable(t, u, call.request) && !LeadsTo(call.pc, u)
    ensures !LeadsTo(NextPc(t, c, call, fate), u)
  {}

  lemma OrphansAreUnreachable(s: State, u: UserId, r: Request)
    requires Indexed(s.tables) && Orphaned(s, u)
    ensures Unreachable(s.tables, u, r)
  {
    if Holder(s.tables, r).Some? { HoldersHaveAnAddress(s.tables, r); }
  }

  lemma BareStays(t: Tables, u: UserId, c: CallId, call: Call, fate: Fate)
    requires Bare(t, u) && !LeadsTo(call.pc, u)
    ensures Bare(Effect(t, c, call, fate), u)
  {
    if !call.pc.CreateUser? && !call.pc.Mark? { EffectIsALink(t, c, call, fate); }
  }

  lemma HoldersHaveAnAddress(t: Tables, r: Request)
    requires Indexed(t) && Holder(t, r).Some?
    ensures var holder := Holder(t, r).value;
      holder in t.users && (t.users[holder].email.Some? || t.users[holder].phone.Some? || t.users[holder].username.Some?)
  {}

  lemma OrphanMoves(s: State, u: UserId, c: CallId, fate: Fate)
    requires Indexed(s.tables) && Orphaned(s, u) && c in s.calls
    ensures Orphaned(MoveCall(s, c, fate), u)
  {
    OrphansAreUnreachable(s, u, s.calls[c].request);
    NobodyHeadsForOrphans(s.tables, u, c, s.calls[c], fate);
    BareStays(s.tables, u, c, s.calls[c], fate);
  }

  /** No sign-in, whichever it is and whatever fails, ever reaches an orphan: nothing links it and no result names it. */
  lemma {:induction false} OrphanForever(s: State, u: UserId, ops: seq<Op>)
    requires Inv(s) && Orphaned(s, u)
    ensures Orphaned(Run(s, ops), u)
    decreases |ops|
  {
    if ops != [] {
      match ops[0] {
        case Start(r) => StartKeeps(s, r);
        case Move(c, fate) =>
          if c in s.calls {
            MoveKeeps(s, c, fate);
            OrphanMoves(s, u, c, fate);
          }
      }
      OrphanForever(Step(s, ops[0]), u, ops[1..]);
    }
  }

  ghost predicate EachLeavesBehind(t: Tables, r: Request, attempts: seq<seq<Fate>>) {
    forall i :: 0 <= i < |attempts| ==> InsertLands(r, attempts[i]) && !LinkLands(t, r, attempts[i])
  }

  /** One attempt without an email, from any reachable state: an orphan more, and no identity. */
  lemma AttemptOrphans(s: State, r: Request, fates: seq<Fate>) returns (ops: seq<Op>)
    requires Inv(s) && r.Social? && Optional(r.email).None? && KeyOf(r) !in s.tables.identities
    requires InsertLands(r, fates) && !LinkLands(s.tables, r, fates)
    ensures var s' := Run(s, ops);
      && Inv(s') && Orphaned(s', s.tables.born) && OnlyStarts(ops, r)
      && s'.tables.born == s.tables.born + 1 && s'.tables.identities == s.tables.identities
  {
    InvGrounds(s);
    LeavesBehindIff(s.tables, s.started, r, fates);
    ops := Attempt(s, r, fates);
    RunKeeps(s, ops);
    NewRowIsBare(s.tables, s.started, r);
    forall c | c in s.calls
      ensures !LeadsTo(s.calls[c].pc, s.tables.born)
    {
      NobodyKnowsTheUnborn(s, c);
    }
  }

  lemma NewRowIsBare(t: Tables, c: CallId, r: Request)
    requires Grounded(t) && r.Social? && Optional(r.email).None?
    ensures Bare(Insert(t, NewUser(r, c)), t.born)
  {
    assert t.born !in t.users;
  }

  lemma NobodyKnowsTheUnborn(s: State, c: CallId)
    requires Inv(s) && c in s.calls
    ensures !LeadsTo(s.calls[c].pc, s.tables.born)
  {
    InvGrounds(s);
    assert CallSound(s.tables, c, s.calls[c]);
  }

  /**
   Without an email even a retry finds nothing: after any run, each further attempt that leaves
   its account behind leaves one more that nobody can ever sign in to.
   */
  lemma {:induction false} OrphansPileUp(s: State, r: Request, attempts: seq<seq<Fate>>) returns (ops: seq<Op>)
    requires Inv(s) && r.Social? && Optional(r.email).None? && KeyOf(r) !in s.tables.identities
    requires EachLeavesBehind(s.tables, r, attempts)
    ensures OnlyStarts(ops, r)
    ensures var s' := Run(s, ops);
      && Inv(s') && s'.tables.born == s.tables.born + |attempts| && s'.tables.identities == s.tables.identities
      && forall u :: s.tables.born <= u < s'.tables.born ==> Orphaned(s', u)
    decreases |attempts|
  {
    if attempts == [] {
      ops := [];
    } else {
      var head := AttemptOrphans(s, r, attempts[0]);
      var between := Run(s, head);
      var tail := OrphansPileUp(between, r, attempts[1..]);
      ops := head + tail;
      RunConcat(s, head, tail);
      OrphanForever(between, s.tables.born, tail);
    }
  }
}
