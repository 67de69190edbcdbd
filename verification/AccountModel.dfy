/**
 Resolving a sign-in to an account: find the identity, or link it to the account that already
 holds the address, or create one.  Every repository call is a step of its own, may fail, and
 other sign-ins may run in between; only the unique indexes stand between them.
 */
module AccountModel {
  import opened Faults
  import opened Options
  import opened Text

  type UserId = nat
  type CallId = nat
  type Email = string

  datatype Provider = Google | Apple
  datatype Key = SocialKey(provider: Provider, subject: string) | PhoneKey(number: string) | PasswordKey(email: Email)

  /** `Social` carries a verified token's claims, `ByPhone` a number whose code matched, `Register` a back-office form. */
  datatype Request =
    | Social(provider: Provider, subject: string, email: Email, emailVerified: bool)
    | ByPhone(number: string)
    | Register(username: string, email: Email)

  /** `origin` is the call whose insert made the row. */
  datatype User = User(
    email: Option<Email>, emailVerified: bool, phone: Option<string>, username: Option<string>, origin: CallId)
  datatype Identity = Identity(user: UserId, linker: CallId)

  datatype Result = Resolved(user: UserId) | Conflict | Failed

  /** Which repository call comes next. */
  datatype Pc =
    | FindIdentity
    | LoadAccount(user: UserId)
    | FindHolder
    | LinkTo(user: UserId, verified: bool)
    | Mark(user: UserId)
    | CheckRole
    | CheckTaken
    | FindRole
    | CreateUser
    | LinkNew(user: UserId)
    | Finished(result: Result)

  datatype Call = Call(request: Request, pc: Pc)

  /** `byEmail`, `byPhone` and `byUsername` are the unique indexes on users; NULLs are in none. */
  datatype Tables = Tables(
    users: map<UserId, User>,
    byEmail: map<Email, UserId>, byPhone: map<string, UserId>, byUsername: map<string, UserId>, born: UserId,
    identities: map<Key, Identity>)

  datatype State = State(tables: Tables, calls: map<CallId, Call>, started: CallId)

  datatype Op = Start(request: Request) | Move(call: CallId, fate: Fate)

  function Init(): State {
    State(Tables(map[], map[], map[], map[], 0, map[]), map[], 0)
  }

  function KeyOf(r: Request): Key {
    match r
    case Social(provider, subject, _, _) => SocialKey(provider, subject)
    case ByPhone(number) => PhoneKey(number)
    case Register(_, email) => PasswordKey(email)
  }

  /** A blank value is stored as NULL, any other as it is. */
  function Optional(value: string): Option<string> {
    if TrimSpace(value) == "" then None else Some(value)
  }

  function NewUser(r: Request, call: CallId): User {
    match r
    case Social(_, _, email, verified) => User(Optional(email), verified, None, None, call)
    case ByPhone(number) => User(None, false, Optional(number), None, call)
    case Register(username, email) => User(Optional(email), false, None, Optional(username), call)
  }

  /** The account that already holds the request's address, or its username. */
  function Holder(t: Tables, r: Request): Option<UserId> {
    match r
    case Social(_, _, email, _) => if email in t.byEmail then Some(t.byEmail[email]) else None
    case ByPhone(number) => if number in t.byPhone then Some(t.byPhone[number]) else None
    case Register(username, email) =>
      if username in t.byUsername then Some(t.byUsername[username])
      else if email in t.byEmail then Some(t.byEmail[email])
      else None
  }

  // --- writes ------------------------------------------------------------------------------

  predicate Insertable(t: Tables, user: User) {
    && (user.email.Some? ==> user.email.value !in t.byEmail)
    && (user.phone.Some? ==> user.phone.value !in t.byPhone)
    && (user.username.Some? ==> user.username.value !in t.byUsername)
  }

  function Insert(t: Tables, user: User): Tables {
    t.(users := t.users[t.born := user],
       byEmail := if user.email.Some? then t.byEmail[user.email.value := t.born] else t.byEmail,
       byPhone := if user.phone.Some? then t.byPhone[user.phone.value := t.born] else t.byPhone,
       byUsername := if user.username.Some? then t.byUsername[user.username.value := t.born] else t.byUsername,
       born := t.born + 1)
  }

  /** Provider and subject are unique together: a link is inserted, never overwritten. */
  function Link(t: Tables, key: Key, user: UserId, call: CallId): Tables {
    t.(identities := t.identities[key := Identity(user, call)])
  }

  function MarkVerified(t: Tables, user: UserId): Tables {
    if user in t.users then t.(users := t.users[user := t.users[user].(emailVerified := true)]) else t
  }

  // --- steps -------------------------------------------------------------------------------

  function FirstPc(r: Request): Pc {
    if r.Register? then CheckRole else FindIdentity
  }

  function FoundHolder(t: Tables, r: Request, user: UserId): Pc {
    if r.Social? && !r.emailVerified then Finished(Conflict)
    else LinkTo(user, user in t.users && t.users[user].emailVerified)
  }

  function AfterLink(r: Request, user: UserId, verified: bool): Pc {
    if r.Social? && r.emailVerified && !verified then Mark(user) else Finished(Resolved(user))
  }

  /** What the call's next repository call does to the tables: nothing, if it fails or a unique index refuses it. */
  function Effect(t: Tables, c: CallId, call: Call, fate: Fate): Tables {
    var key, user := KeyOf(call.request), NewUser(call.request, c);
    match call.pc
    case LinkTo(owner, _) => if fate.Fails? || key in t.identities then t else Link(t, key, owner, c)
    case LinkNew(owner) => if fate.Fails? || key in t.identities then t else Link(t, key, owner, c)
    case CreateUser => if fate.Fails? || !Insertable(t, user) then t else Insert(t, user)
    case Mark(owner) => if fate.Fails? then t else MarkVerified(t, owner)
    case _ => t
  }

  /** Where the call goes once its repository call has worked. */
  function AnsweredPc(t: Tables, c: CallId, call: Call): Pc {
    var r := call.request;
    var key := KeyOf(r);
    match call.pc
    case FindIdentity =>
      if key in t.identities then LoadAccount(t.identities[key].user)
      else if r.Social? && r.email == "" then FindRole
      else FindHolder
    case LoadAccount(user) => Finished(if user in t.users then Resolved(user) else Failed)
    case FindHolder => if Holder(t, r).Some? then FoundHolder(t, r, Holder(t, r).value) else FindRole
    case LinkTo(user, verified) => if key in t.identities then Finished(Failed) else AfterLink(r, user, verified)
    case Mark(user) => Finished(Resolved(user))
    case CheckRole => CheckTaken
    case CheckTaken => if Holder(t, r).Some? then Finished(Conflict) else CreateUser
    case FindRole => CreateUser
    case CreateUser => if Insertable(t, NewUser(r, c)) then LinkNew(t.born) else Finished(Failed)
    case LinkNew(user) => Finished(if key in t.identities then Failed else Resolved(user))
    case Finished(result) => Finished(result)
  }

  /** A failed `Mark` is only logged; any other failure ends the call. */
  function NextPc(t: Tables, c: CallId, call: Call, fate: Fate): Pc {
    if fate.Works? || call.pc.Mark? || call.pc.Finished? then AnsweredPc(t, c, call) else Finished(Failed)
  }

  function MoveCall(s: State, c: CallId, fate: Fate): State
    requires c in s.calls
  {
    var call := s.calls[c];
    s.(tables := Effect(s.tables, c, call, fate),
       calls := s.calls[c := call.(pc := NextPc(s.tables, c, call, fate))])
  }

  function StartCall(s: State, r: Request): State {
    s.(calls := s.calls[s.started := Call(r, FirstPc(r))], started := s.started + 1)
  }

  function Step(s: State, op: Op): State {
    match op
    case Start(r) => StartCall(s, r)
    case Move(c, fate) => if c in s.calls then MoveCall(s, c, fate) else s
  }

  function Run(s: State, ops: seq<Op>): State
    decreases |ops|
  {
    if ops == [] then s else Run(Step(s, ops[0]), ops[1..])
  }

  // --- one sign-in at a time ---------------------------------------------------------------

  /** How many steps a call can still take. */
  function Left(pc: Pc): nat {
    match pc
    case FindIdentity => 6
    case FindHolder => 5
    case CheckRole => 5
    case CheckTaken => 4
    case FindRole => 4
    case CreateUser => 3
    case LinkTo(_, _) => 2
    case LinkNew(_) => 2
    case Mark(_) => 1
    case LoadAccount(_) => 1
    case Finished(_) => 0
  }

  /** Let one call run to its end, alone. */
  function Drive(t: Tables, c: CallId, call: Call, fates: seq<Fate>): (Tables, Result)
    decreases Left(call.pc)
  {
    if call.pc.Finished? then (t, call.pc.result)
    else
      Drive(Effect(t, c, call, First(fates)), c, call.(pc := NextPc(t, c, call, First(fates))), Rest(fates))
  }

  function SignIn(t: Tables, c: CallId, r: Request, fates: seq<Fate>): (Tables, Result) {
    Drive(t, c, Call(r, FirstPc(r)), fates)
  }
}
