/**
 Refresh-token rotation as a small-step machine. Every database call, and every
 stretch of service code between two awaits, is one event; a run is any
 sequence of events, so the runs are exactly the interleavings of any number of
 logins, refreshes, logouts, cleanups and user deletions. An event that is not
 enabled leaves the state as it is.
 */
module AuthModel {
  import opened Runs
  import opened Wrappers
  import opened Duration

  type UserId = string
  type CallId = nat

  datatype User = User(email: string, role: string, active: bool)

  /** A signed refresh JWT. Signing is injective, so the string is its claims:
      two signatures for one user in one second are the same token. */
  datatype Token = Token(sub: UserId, email: string, role: string, iat: nat, exp: nat)

  datatype Row = Row(userId: UserId, expiresAt: nat)

  /** `findUnique` with `include: { user: true }`. */
  datatype Stored = Stored(row: Row, user: User)

  /** `jwt.refresh.expiresIn`: a string such as "7d", or a number of seconds. */
  datatype ExpiresIn = Text(text: string) | Number(seconds: nat)

  /** `fallback` is what the JWT library makes of a string outside the service's
      own grammar: a number of seconds, or a refusal to sign. */
  datatype Config = Config(expiresIn: ExpiresIn, fallback: Option<nat>)

  function RowLifetime(cfg: Config): Option<Lifetime> {
    if cfg.expiresIn.Text? then Parse(cfg.expiresIn.text) else None
  }

  function JwtLifetime(cfg: Config): Option<nat> {
    match cfg.expiresIn
    case Number(n) => Some(n)
    case Text(text) =>
      match Parse(text)
      case Some(l) => Some(l.InSeconds())
      case None => cfg.fallback
  }

  datatype Origin = ByLogin | ByRefresh(prior: Token)

  /** Where an in-flight call stands, with the local variables it still needs. */
  datatype Phase =
    | LoginFound(uid: UserId, account: Option<User>)
    | LoginChecked(uid: UserId, user: User)
    | LoginVerified(uid: UserId, user: User)
    | Begun(prior: Token)
    | Found(prior: Token, stored: Option<Stored>)
    | Signed(prior: Token, uid: UserId, next: Token)
    | Saving(origin: Origin, uid: UserId, next: Token)
    | Stamped(origin: Origin, uid: UserId, next: Token, expiresAt: nat)
    | Inserted(origin: Origin, uid: UserId, next: Token)
    | Done(origin: Origin, next: Token)
    | Failed(spent: Option<Token>)

  /** What a run did to the table, counted. */
  datatype Entry = RowInserted(token: Token) | LoginInserted(uid: UserId) | Rotated(token: Token)

  datatype State = State(
    cfg: Config,
    clock: nat,
    users: map<UserId, User>,
    rows: map<Token, Row>,
    signed: set<Token>,
    calls: map<CallId, Phase>,
    log: multiset<Entry>
  )

  datatype Event =
    | Tick(elapsed: nat)
    | PutUser(uid: UserId, user: User)
    | DeleteUser(uid: UserId)
    | Cleanup
    | Logout(uid: UserId, only: Option<Token>)
    | LoginFind(c: CallId, uid: UserId)
    | LoginCheck(c: CallId)
    | LoginVerify(c: CallId, matches: bool)
    | LoginSign(c: CallId)
    | RefreshBegin(c: CallId, presented: Token)
    | RefreshFind(c: CallId)
    | RefreshCheck(c: CallId)
    | RefreshDelete(c: CallId)
    | Stamp(c: CallId)
    | Insert(c: CallId)
    | Respond(c: CallId, decrypts: bool)

  function Move(s: State, c: CallId, p: Phase): State { s.(calls := s.calls[c := p]) }

  function Spent(o: Origin): Option<Token> {
    if o.ByRefresh? then Some(o.prior) else None
  }

  function SignFor(s: State, uid: UserId, user: User, lifetime: nat): Token {
    Token(uid, user.email, user.role, s.clock / 1000, JwtExp(s.clock, lifetime))
  }

  // ---- the user table and the bulk deletes ----

  /** Deleting a user cascades to its refresh tokens. */
  function DoDeleteUser(s: State, uid: UserId): State {
    s.(users := s.users - {uid}, rows := map t | t in s.rows && s.rows[t].userId != uid :: s.rows[t])
  }

  /** `deleteMany({ expiresAt: { lt: now } })`. */
  function DoCleanup(s: State): State {
    s.(rows := map t | t in s.rows && s.rows[t].expiresAt >= s.clock :: s.rows[t])
  }

  /** `deleteMany` by user, or by user and token. */
  predicate LogoutHits(s: State, uid: UserId, only: Option<Token>, t: Token)
    requires t in s.rows
  {
    s.rows[t].userId == uid && (only.None? || only.value == t)
  }

  function DoLogout(s: State, uid: UserId, only: Option<Token>): State {
    s.(rows := map t | t in s.rows && !LogoutHits(s, uid, only, t) :: s.rows[t])
  }

  /** A call's event leaves the configuration, the clock and the users alone. */
  predicate OnlyCalls(s: State, s': State) { s'.cfg == s.cfg && s'.clock == s.clock && s'.users == s.users }

  // ---- login ----

  function DoLoginFind(s: State, c: CallId, uid: UserId): (s': State)
    ensures OnlyCalls(s, s')
  {
    if c in s.calls then s
    else Move(s, c, LoginFound(uid, if uid in s.users then Some(s.users[uid]) else None))
  }

  function DoLoginCheck(s: State, c: CallId): (s': State)
    ensures OnlyCalls(s, s')
  {
    if c !in s.calls || !s.calls[c].LoginFound? then s
    else
      var p := s.calls[c];
      if p.account.Some? && p.account.value.active then Move(s, c, LoginChecked(p.uid, p.account.value))
      else Move(s, c, Failed(None))
  }

  function DoLoginVerify(s: State, c: CallId, matches: bool): (s': State)
    ensures OnlyCalls(s, s')
  {
    if c !in s.calls || !s.calls[c].LoginChecked? then s
    else Move(s, c, if matches then LoginVerified(s.calls[c].uid, s.calls[c].user) else Failed(None))
  }

  function DoLoginSign(s: State, c: CallId): (s': State)
    ensures OnlyCalls(s, s')
  {
    if c !in s.calls || !s.calls[c].LoginVerified? then s
    else
      match JwtLifetime(s.cfg)
      case None => Move(s, c, Failed(None))
      case Some(lifetime) =>
        var next := SignFor(s, s.calls[c].uid, s.calls[c].user, lifetime);
        Move(s, c, Saving(ByLogin, s.calls[c].uid, next)).(signed := s.signed + {next})
  }

  // ---- refresh ----

  function DoRefreshBegin(s: State, c: CallId, presented: Token): (s': State)
    ensures OnlyCalls(s, s')
  {
    if c in s.calls then s
    else if presented in s.signed && JwtInDate(presented.exp, s.clock) then Move(s, c, Begun(presented))
    else Move(s, c, Failed(None))
  }

  function DoRefreshFind(s: State, c: CallId): (s': State)
    ensures OnlyCalls(s, s')
  {
    if c !in s.calls || !s.calls[c].Begun? then s
    else
      var prior := s.calls[c].prior;
      if prior in s.rows && s.rows[prior].userId in s.users then
        Move(s, c, Found(prior, Some(Stored(s.rows[prior], s.users[s.rows[prior].userId]))))
      else Move(s, c, Found(prior, None))
  }

  function DoRefreshCheck(s: State, c: CallId): (s': State)
    ensures OnlyCalls(s, s')
  {
    if c !in s.calls || !s.calls[c].Found? then s
    else
      var prior, stored := s.calls[c].prior, s.calls[c].stored;
      if stored.None? || stored.value.row.expiresAt < s.clock || !stored.value.user.active then
        Move(s, c, Failed(None))
      else
        match JwtLifetime(s.cfg)
        case None => Move(s, c, Failed(None))
        case Some(lifetime) =>
          var uid := stored.value.row.userId;
          var next := SignFor(s, uid, stored.value.user, lifetime);
          Move(s, c, Signed(prior, uid, next)).(signed := s.signed + {next})
  }

  /** `delete` fails when the row is gone. */
  function DoRefreshDelete(s: State, c: CallId): (s': State)
    ensures OnlyCalls(s, s')
  {
    if c !in s.calls || !s.calls[c].Signed? then s
    else
      var p := s.calls[c];
      if p.prior in s.rows then
        Move(s, c, Saving(ByRefresh(p.prior), p.uid, p.next)).(
          rows := s.rows - {p.prior}, log := s.log + multiset{Rotated(p.prior)})
      else Move(s, c, Failed(None))
  }

  // ---- saveRefreshToken and the reply, shared by login and refresh ----

  function DoStamp(s: State, c: CallId): (s': State)
    ensures OnlyCalls(s, s')
  {
    if c !in s.calls || !s.calls[c].Saving? then s
    else
      var p := s.calls[c];
      match RowLifetime(s.cfg)
      case None => Move(s, c, Failed(Spent(p.origin)))
      case Some(l) => Move(s, c, Stamped(p.origin, p.uid, p.next, s.clock + 1000 * l.InSeconds()))
  }

  /** `create` fails on a duplicate token or a missing user. */
  function DoInsert(s: State, c: CallId): (s': State)
    ensures OnlyCalls(s, s')
  {
    if c !in s.calls || !s.calls[c].Stamped? then s
    else
      var p := s.calls[c];
      if p.next in s.rows || p.uid !in s.users then Move(s, c, Failed(Spent(p.origin)))
      else
        var entries := multiset{RowInserted(p.next)}
                       + (if p.origin.ByLogin? then multiset{LoginInserted(p.uid)} else multiset{});
        Move(s, c, Inserted(p.origin, p.uid, p.next)).(
          rows := s.rows[p.next := Row(p.uid, p.expiresAt)], log := s.log + entries)
  }

  /** Decrypting the phone for the reply can still fail. */
  function DoRespond(s: State, c: CallId, decrypts: bool): (s': State)
    ensures OnlyCalls(s, s')
  {
    if c !in s.calls || !s.calls[c].Inserted? then s
    else
      var p := s.calls[c];
      Move(s, c, if decrypts then Done(p.origin, p.next) else Failed(Spent(p.origin)))
  }

  function Step(s: State, e: Event): State {
    match e
    case Tick(elapsed) => s.(clock := s.clock + elapsed)
    case PutUser(uid, user) => s.(users := s.users[uid := user])
    case DeleteUser(uid) => DoDeleteUser(s, uid)
    case Cleanup => DoCleanup(s)
    case Logout(uid, only) => DoLogout(s, uid, only)
    case LoginFind(c, uid) => DoLoginFind(s, c, uid)
    case LoginCheck(c) => DoLoginCheck(s, c)
    case LoginVerify(c, matches) => DoLoginVerify(s, c, matches)
    case LoginSign(c) => DoLoginSign(s, c)
    case RefreshBegin(c, presented) => DoRefreshBegin(s, c, presented)
    case RefreshFind(c) => DoRefreshFind(s, c)
    case RefreshCheck(c) => DoRefreshCheck(s, c)
    case RefreshDelete(c) => DoRefreshDelete(s, c)
    case Stamp(c) => DoStamp(s, c)
    case Insert(c) => DoInsert(s, c)
    case Respond(c, decrypts) => DoRespond(s, c, decrypts)
  }

  /** The state after a run. */
  function Exec(s: State, es: seq<Event>): State { Run(Step, s, es) }

  predicate Initial(s: State) {
    s.rows == map[] && s.calls == map[] && s.signed == {} && s.log == multiset{}
  }
}
