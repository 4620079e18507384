/**
 The service and its repository as written: each method runs its awaited calls
 one after another on a mutable table. Run with nothing interleaved, a method is
 exactly one script of the machine's events.
 */
module AuthService {
  import opened Runs
  import opened Wrappers
  import opened Duration
  import opened AuthModel
  import opened AuthSafety

  datatype AuthError = Unauthorized | StoreError | BadConfig

  /** The users and refresh_tokens tables. */
  class AuthRepository {
    var users: map<UserId, User>
    var rows: map<Token, Row>

    constructor ()
      ensures users == map[] && rows == map[]
    {
      users, rows := map[], map[];
    }

    /** The account of an email, which the store keeps unique. */
    method FindByEmail(email: string) returns (found: Option<UserId>)
      ensures found.Some? ==> found.value in users && users[found.value].email == email
      ensures found.None? ==> forall uid | uid in users :: users[uid].email != email
    {
      if uid :| uid in users && users[uid].email == email {
        found := Some(uid);
      } else {
        found := None;
      }
    }

    method FindRefreshTokenWithUser(token: Token) returns (found: Option<Stored>)
      ensures found.Some? <==> token in rows && rows[token].userId in users
      ensures found.Some? ==> found.value == Stored(rows[token], users[rows[token].userId])
    {
      if token in rows && rows[token].userId in users {
        found := Some(Stored(rows[token], users[rows[token].userId]));
      } else {
        found := None;
      }
    }

    /** Rejects when there is no such row. */
    method DeleteRefreshToken(token: Token) returns (ok: bool)
      modifies this`rows
      ensures ok == (token in old(rows))
      ensures rows == old(rows) - {token}
    {
      ok := token in rows;
      rows := rows - {token};
    }

    /** Rejects a duplicate token and a missing user. */
    method CreateRefreshToken(userId: UserId, token: Token, expiresAt: nat) returns (ok: bool)
      modifies this`rows
      ensures ok == (token !in old(rows) && userId in users)
      ensures rows == if ok then old(rows)[token := Row(userId, expiresAt)] else old(rows)
    {
      ok := token !in rows && userId in users;
      if ok {
        rows := rows[token := Row(userId, expiresAt)];
      }
    }

    method DeleteRefreshTokens(userId: UserId, refreshToken: Option<Token>) returns (count: nat)
      modifies this`rows
      ensures forall t :: t in rows <==>
                t in old(rows) && !(old(rows)[t].userId == userId && (refreshToken.None? || refreshToken.value == t))
      ensures forall t | t in rows :: rows[t] == old(rows)[t]
      ensures count == |old(rows)| - |rows|
    {
      var hit := map t | t in rows && rows[t].userId == userId && (refreshToken.None? || refreshToken.value == t) :: rows[t];
      count := |hit|;
      ghost var before := rows;
      rows := rows - hit.Keys;
      assert before.Keys == rows.Keys + hit.Keys && rows.Keys !! hit.Keys;
      assert |before.Keys| == |rows.Keys| + |hit.Keys|;
    }

    /** The cleanup task's bulk delete. */
    method DeleteExpired(now: nat)
      modifies this`rows
      ensures forall t :: t in rows <==> t in old(rows) && old(rows)[t].expiresAt >= now
      ensures forall t | t in rows :: rows[t] == old(rows)[t]
    {
      rows := map t | t in rows && rows[t].expiresAt >= now :: rows[t];
    }
  }

  // ---- scripts ----

  function SaveScript(c: CallId, toStamp: nat, decrypts: bool): seq<Event> {
    [Tick(toStamp), Stamp(c)] + [Insert(c), Respond(c, decrypts)]
  }

  function RefreshGuards(c: CallId, t: Token, toCheck: nat): seq<Event> {
    [RefreshBegin(c, t), RefreshFind(c)] + [Tick(toCheck), RefreshCheck(c)]
  }

  /** The events of one refresh, in source order. */
  function RefreshScript(c: CallId, t: Token, toCheck: nat, toStamp: nat, decrypts: bool): seq<Event> {
    RefreshGuards(c, t, toCheck) + [RefreshDelete(c)] + SaveScript(c, toStamp, decrypts)
  }

  function LoginGuards(c: CallId, uid: UserId, matches: bool, toSign: nat): seq<Event> {
    [LoginFind(c, uid), LoginCheck(c)] + [LoginVerify(c, matches), Tick(toSign)]
  }

  /** The events of one login, in source order. */
  function LoginScript(c: CallId, uid: UserId, matches: bool, toSign: nat, toStamp: nat, decrypts: bool): seq<Event> {
    LoginGuards(c, uid, matches, toSign) + [LoginSign(c)] + SaveScript(c, toStamp, decrypts)
  }

  // ---- the same protocols in one piece ----

  datatype Outcome = Outcome(rows: map<Token, Row>, phase: Phase)

  /** What saving `next` and replying comes to when nothing interferes. */
  function SaveOutcome(s: State, rows: map<Token, Row>, origin: Origin, uid: UserId, next: Token, now: nat, decrypts: bool): Outcome {
    var lifetime := RowLifetime(s.cfg);
    if lifetime.None? || next in rows || uid !in s.users then Outcome(rows, Failed(Spent(origin)))
    else
      Outcome(rows[next := Row(uid, now + 1000 * lifetime.value.InSeconds())],
              if decrypts then Done(origin, next) else Failed(Spent(origin)))
  }

  function RefreshOutcome(s: State, t: Token, toCheck: nat, toStamp: nat, decrypts: bool): Outcome {
    if !RefreshReachesDelete(s, t, toCheck) then Outcome(s.rows, Failed(None))
    else
      SaveOutcome(s, s.rows - {t}, ByRefresh(t), s.rows[t].userId, NextToken(s, t, s.clock + toCheck),
                  s.clock + toCheck + toStamp, decrypts)
  }

  function LoginOutcome(s: State, uid: UserId, matches: bool, toSign: nat, toStamp: nat, decrypts: bool): Outcome {
    if uid !in s.users || !s.users[uid].active || !matches || JwtLifetime(s.cfg).None? then Outcome(s.rows, Failed(None))
    else
      SaveOutcome(s, s.rows, ByLogin, uid,
                  SignFor(s.(clock := s.clock + toSign), uid, s.users[uid], JwtLifetime(s.cfg).value),
                  s.clock + toSign + toStamp, decrypts)
  }

  /** The guards a refresh passes before it deletes anything. */
  predicate RefreshReachesDelete(s: State, t: Token, toCheck: nat) {
    && t in s.signed && JwtInDate(t.exp, s.clock)
    && t in s.rows && s.clock + toCheck <= s.rows[t].expiresAt
    && s.rows[t].userId in s.users && s.users[s.rows[t].userId].active
    && JwtLifetime(s.cfg).Some?
  }

  /** The token a refresh of `t` checked at `at` issues. */
  function NextToken(s: State, t: Token, at: nat): Token
    requires t in s.rows && s.rows[t].userId in s.users && JwtLifetime(s.cfg).Some?
  {
    var uid := s.rows[t].userId;
    SignFor(s.(clock := at), uid, s.users[uid], JwtLifetime(s.cfg).value)
  }

  ghost predicate Ends(s: State, c: CallId, o: Outcome, users: map<UserId, User>) {
    s.rows == o.rows && s.users == users && c in s.calls && s.calls[c] == o.phase
  }

  /** Everything but the calls, the clock, the signatures and the log. */
  ghost predicate SameStore(s: State, s': State) {
    s'.cfg == s.cfg && s'.users == s.users && s'.rows == s.rows
  }

  ghost predicate At(s: State, c: CallId, p: Phase) { c in s.calls && s.calls[c] == p }

  lemma StampAlone(s: State, c: CallId, toStamp: nat)
    requires c in s.calls && (s.calls[c].Saving? || s.calls[c].Failed?)
    ensures
      var p, s' := s.calls[c], Exec(s, [Tick(toStamp), Stamp(c)]);
      && SameStore(s, s')
      && At(s', c,
            if p.Failed? then p
            else if RowLifetime(s.cfg).None? then Failed(Spent(p.origin))
            else Stamped(p.origin, p.uid, p.next, s.clock + toStamp + 1000 * RowLifetime(s.cfg).value.InSeconds()))
  {
    hide Run;
    RunTwo(Step, s, Tick(toStamp), Stamp(c));
  }

  lemma InsertAlone(s: State, c: CallId, decrypts: bool)
    requires c in s.calls && (s.calls[c].Stamped? || s.calls[c].Failed?)
    ensures
      var p, s' := s.calls[c], Exec(s, [Insert(c), Respond(c, decrypts)]);
      if p.Failed? then Ends(s', c, Outcome(s.rows, p), s.users)
      else if p.next in s.rows || p.uid !in s.users then Ends(s', c, Outcome(s.rows, Failed(Spent(p.origin))), s.users)
      else Ends(s', c, Outcome(s.rows[p.next := Row(p.uid, p.expiresAt)],
                               if decrypts then Done(p.origin, p.next) else Failed(Spent(p.origin))), s.users)
  {
    hide Run;
    RunTwo(Step, s, Insert(c), Respond(c, decrypts));
  }

  lemma SaveAlone(s: State, c: CallId, toStamp: nat, decrypts: bool)
    requires c in s.calls && (s.calls[c].Saving? || s.calls[c].Failed?)
    ensures
      var p := s.calls[c];
      Ends(Exec(s, SaveScript(c, toStamp, decrypts)), c,
           if p.Failed? then Outcome(s.rows, p)
           else SaveOutcome(s, s.rows, p.origin, p.uid, p.next, s.clock + toStamp, decrypts), s.users)
  {
    hide Run, Step;
    RunConcat(Step, s, [Tick(toStamp), Stamp(c)], [Insert(c), Respond(c, decrypts)]);
    StampAlone(s, c, toStamp);
    InsertAlone(Exec(s, [Tick(toStamp), Stamp(c)]), c, decrypts);
  }

  lemma LookUpAlone(s: State, c: CallId, t: Token)
    requires c !in s.calls
    ensures
      var s' := Exec(s, [RefreshBegin(c, t), RefreshFind(c)]);
      && SameStore(s, s') && s'.clock == s.clock
      && At(s', c,
            if !(t in s.signed && JwtInDate(t.exp, s.clock)) then Failed(None)
            else if t in s.rows && s.rows[t].userId in s.users then
              Found(t, Some(Stored(s.rows[t], s.users[s.rows[t].userId])))
            else Found(t, None))
  {
    RunTwo(Step, s, RefreshBegin(c, t), RefreshFind(c));
    assert Step(s, RefreshBegin(c, t)) == DoRefreshBegin(s, c, t);
    assert Step(DoRefreshBegin(s, c, t), RefreshFind(c)) == DoRefreshFind(DoRefreshBegin(s, c, t), c);
    hide Run, Step;
  }

  lemma CheckAlone(s: State, c: CallId, toCheck: nat)
    requires c in s.calls && (s.calls[c].Found? || s.calls[c] == Failed(None))
    ensures
      var p, s' := s.calls[c], Exec(s, [Tick(toCheck), RefreshCheck(c)]);
      && SameStore(s, s') && s'.clock == s.clock + toCheck
      && At(s', c,
            if p.Found? && p.stored.Some? && s.clock + toCheck <= p.stored.value.row.expiresAt
               && p.stored.value.user.active && JwtLifetime(s.cfg).Some? then
              Signed(p.prior, p.stored.value.row.userId,
                     SignFor(s.(clock := s.clock + toCheck), p.stored.value.row.userId, p.stored.value.user, JwtLifetime(s.cfg).value))
            else Failed(None))
  {
    hide Run;
    RunTwo(Step, s, Tick(toCheck), RefreshCheck(c));
  }

  lemma GuardsAlone(s: State, c: CallId, t: Token, toCheck: nat)
    requires c !in s.calls
    ensures
      var s' := Exec(s, RefreshGuards(c, t, toCheck));
      && SameStore(s, s') && s'.clock == s.clock + toCheck
      && At(s', c,
            if RefreshReachesDelete(s, t, toCheck) then Signed(t, s.rows[t].userId, NextToken(s, t, s.clock + toCheck))
            else Failed(None))
  {
    hide Run, Step;
    RunConcat(Step, s, [RefreshBegin(c, t), RefreshFind(c)], [Tick(toCheck), RefreshCheck(c)]);
    LookUpAlone(s, c, t);
    CheckAlone(Exec(s, [RefreshBegin(c, t), RefreshFind(c)]), c, toCheck);
  }

  lemma DeleteAlone(s: State, c: CallId)
    requires c in s.calls && (s.calls[c] == Failed(None) || (s.calls[c].Signed? && s.calls[c].prior in s.rows))
    ensures
      var p, s' := s.calls[c], Exec(s, [RefreshDelete(c)]);
      && s'.cfg == s.cfg && s'.users == s.users && s'.clock == s.clock
      && (if p.Failed? then s'.rows == s.rows && At(s', c, p)
          else s'.rows == s.rows - {p.prior} && At(s', c, Saving(ByRefresh(p.prior), p.uid, p.next)))
  {
    RunOne(Step, s, RefreshDelete(c));
    hide Run;
  }

  /** Run alone, the events of a refresh come to its one-piece outcome. */
  lemma {:induction false} RefreshAlone(s: State, c: CallId, t: Token, toCheck: nat, toStamp: nat, decrypts: bool)
    requires c !in s.calls
    ensures Ends(Exec(s, RefreshScript(c, t, toCheck, toStamp, decrypts)), c,
                 RefreshOutcome(s, t, toCheck, toStamp, decrypts), s.users)
  {
    hide Run, Step;
    var guards := RefreshGuards(c, t, toCheck);
    RunConcat(Step, s, guards + [RefreshDelete(c)], SaveScript(c, toStamp, decrypts));
    RunConcat(Step, s, guards, [RefreshDelete(c)]);
    GuardsAlone(s, c, t, toCheck);
    DeleteAlone(Exec(s, guards), c);
    SaveAlone(Exec(s, guards + [RefreshDelete(c)]), c, toStamp, decrypts);
  }

  lemma FindAlone(s: State, c: CallId, uid: UserId)
    requires c !in s.calls
    ensures
      var s' := Exec(s, [LoginFind(c, uid), LoginCheck(c)]);
      && SameStore(s, s') && s'.clock == s.clock
      && At(s', c, if uid in s.users && s.users[uid].active then LoginChecked(uid, s.users[uid]) else Failed(None))
  {
    hide Run;
    RunTwo(Step, s, LoginFind(c, uid), LoginCheck(c));
  }

  lemma AdmitAlone(s: State, c: CallId, uid: UserId, matches: bool, toSign: nat)
    requires c !in s.calls
    ensures
      var s' := Exec(s, LoginGuards(c, uid, matches, toSign));
      && SameStore(s, s') && s'.clock == s.clock + toSign
      && At(s', c,
            if uid in s.users && s.users[uid].active && matches then LoginVerified(uid, s.users[uid]) else Failed(None))
  {
    hide Run;
    var find := [LoginFind(c, uid), LoginCheck(c)];
    RunConcat(Step, s, find, [LoginVerify(c, matches), Tick(toSign)]);
    FindAlone(s, c, uid);
    RunTwo(Step, Exec(s, find), LoginVerify(c, matches), Tick(toSign));
  }

  lemma SignAlone(s: State, c: CallId)
    requires c in s.calls && (s.calls[c].LoginVerified? || s.calls[c] == Failed(None))
    ensures
      var p, s' := s.calls[c], Exec(s, [LoginSign(c)]);
      && SameStore(s, s') && s'.clock == s.clock
      && At(s', c,
            if p.LoginVerified? && JwtLifetime(s.cfg).Some? then
              Saving(ByLogin, p.uid, SignFor(s, p.uid, p.user, JwtLifetime(s.cfg).value))
            else Failed(None))
  {
    RunOne(Step, s, LoginSign(c));
    hide Run;
  }

  /** Run alone, the events of a login come to its one-piece outcome. */
  lemma {:induction false} LoginAlone(s: State, c: CallId, uid: UserId, matches: bool, toSign: nat, toStamp: nat, decrypts: bool)
    requires c !in s.calls
    ensures Ends(Exec(s, LoginScript(c, uid, matches, toSign, toStamp, decrypts)), c,
                 LoginOutcome(s, uid, matches, toSign, toStamp, decrypts), s.users)
  {
    hide Run, Step, RowLifetime, JwtLifetime, JwtExp;
    var admit := LoginGuards(c, uid, matches, toSign);
    RunConcat(Step, s, admit + [LoginSign(c)], SaveScript(c, toStamp, decrypts));
    RunConcat(Step, s, admit, [LoginSign(c)]);
    AdmitAlone(s, c, uid, matches, toSign);
    SignAlone(Exec(s, admit), c);
    SaveAlone(Exec(s, admit + [LoginSign(c)]), c, toStamp, decrypts);
  }

  /** An undisturbed refresh succeeds exactly when every guard passes, the stored
      lifetime parses, the new token is not already stored by another session,
      and the reply can be built. */
  lemma {:induction false} RefreshSucceedsIff(s: State, c: CallId, t: Token, toCheck: nat, toStamp: nat, decrypts: bool)
    requires c !in s.calls
    ensures
      var s' := Exec(s, RefreshScript(c, t, toCheck, toStamp, decrypts));
      && c in s'.calls
      && (s'.calls[c].Done? <==>
          && RefreshReachesDelete(s, t, toCheck)
          && RowLifetime(s.cfg).Some? && decrypts
          && (NextToken(s, t, s.clock + toCheck) in s.rows ==> NextToken(s, t, s.clock + toCheck) == t))
  {
    RefreshAlone(s, c, t, toCheck, toStamp, decrypts);
  }

  /** An undisturbed refresh costs the caller its session, leaving it neither the
      presented token nor a new one, in exactly these cases: the guards pass, and
      then the stored lifetime does not parse, or the new token differs and is
      already stored or cannot be returned because the phone does not decrypt. */
  lemma {:induction false} RefreshLosesSessionIff(s: State, c: CallId, t: Token, toCheck: nat, toStamp: nat, decrypts: bool)
    requires c !in s.calls && t in s.rows
    ensures
      var s' := Exec(s, RefreshScript(c, t, toCheck, toStamp, decrypts));
      && c in s'.calls
      && (s'.calls[c].Failed? && t !in s'.rows <==>
          && RefreshReachesDelete(s, t, toCheck)
          && (RowLifetime(s.cfg).None? ||
              (var next := NextToken(s, t, s.clock + toCheck);
               next != t && (next in s.rows || !decrypts))))
  {
    RefreshAlone(s, c, t, toCheck, toStamp, decrypts);
  }

  class AuthService {
    const repo: AuthRepository
    const cfg: Config

    constructor (repo: AuthRepository, cfg: Config)
      ensures this.repo == repo && this.cfg == cfg
    {
      this.repo, this.cfg := repo, cfg;
    }

    /** `saveRefreshToken`: parse the lifetime, add it to the clock, insert. */
    method SaveRefreshToken(userId: UserId, token: Token, now: nat) returns (r: Result<(), AuthError>)
      modifies repo`rows
      ensures r == (if RowLifetime(cfg).None? then Err(BadConfig)
                    else if token in old(repo.rows) || userId !in repo.users then Err(StoreError)
                    else Ok(()))
      ensures repo.rows == if r.Ok?
                           then old(repo.rows)[token := Row(userId, now + 1000 * RowLifetime(cfg).value.InSeconds())]
                           else old(repo.rows)
    {
      if cfg.expiresIn.Number? { return Err(BadConfig); }
      var parsed := Parse(cfg.expiresIn.text);
      if parsed.None? { return Err(BadConfig); }
      var expiresAt := AddLifetime(now, parsed.value);
      var ok := repo.CreateRefreshToken(userId, token, expiresAt);
      r := if ok then Ok(()) else Err(StoreError);
    }

    /** `refresh`, alone: it leaves the table of the machine's script and replies
        with a token exactly when the script's call is done. */
    method Refresh(presented: Token, genuine: bool, now: nat, toCheck: nat, toStamp: nat, decrypts: bool,
                   ghost s: State, ghost c: CallId)
      returns (r: Result<Token, AuthError>)
      requires s.cfg == cfg && s.users == repo.users && s.rows == repo.rows && s.clock == now
      requires c !in s.calls && genuine == (presented in s.signed)
      modifies repo`rows
      ensures var s' := Exec(s, RefreshScript(c, presented, toCheck, toStamp, decrypts));
              && repo.rows == s'.rows && repo.users == s'.users
              && c in s'.calls
              && r == (if s'.calls[c].Done? then Ok(s'.calls[c].next) else Err(Unauthorized))
    {
      hide Run, Step;
      RefreshAlone(s, c, presented, toCheck, toStamp, decrypts);
      r := Err(Unauthorized);
      if !genuine || !JwtInDate(presented.exp, now) { return; }
      var stored := repo.FindRefreshTokenWithUser(presented);
      if stored.None? || stored.value.row.expiresAt < now + toCheck { return; }
      if !stored.value.user.active { return; }
      var lifetime := JwtLifetime(cfg);
      if lifetime.None? { return; }
      var uid, user := stored.value.row.userId, stored.value.user;
      var next := Token(uid, user.email, user.role, (now + toCheck) / 1000, JwtExp(now + toCheck, lifetime.value));
      assert next == NextToken(s, presented, now + toCheck);
      var deleted := repo.DeleteRefreshToken(presented);
      if !deleted { return; }
      var saved := SaveRefreshToken(uid, next, now + toCheck + toStamp);
      if saved.Err? || !decrypts { return; }
      r := Ok(next);
    }

    /** `login`, alone: an unknown email changes nothing; otherwise the account's
        login leaves the table of the machine's script and replies with a token
        exactly when the script's call is done. */
    method Login(email: string, matches: bool, now: nat, toSign: nat, toStamp: nat, decrypts: bool,
                 ghost s: State, ghost c: CallId)
      returns (r: Result<Token, AuthError>, ghost account: Option<UserId>)
      requires s.cfg == cfg && s.users == repo.users && s.rows == repo.rows && s.clock == now && c !in s.calls
      modifies repo`rows
      ensures account.None? <==> forall uid | uid in repo.users :: repo.users[uid].email != email
      ensures account.None? ==> r == Err(Unauthorized) && repo.rows == old(repo.rows)
      ensures account.Some? ==>
                account.value in repo.users && repo.users[account.value].email == email &&
                var s' := Exec(s, LoginScript(c, account.value, matches, toSign, toStamp, decrypts));
                && repo.rows == s'.rows && repo.users == s'.users
                && c in s'.calls
                && (r.Ok? <==> s'.calls[c].Done?)
                && (r.Ok? ==> s'.calls[c] == Done(ByLogin, r.value))
    {
      hide Run, Step;
      var found := repo.FindByEmail(email);
      account, r := found, Err(Unauthorized);
      if found.None? { return; }
      var uid := found.value;
      LoginAlone(s, c, uid, matches, toSign, toStamp, decrypts);
      var user := repo.users[uid];
      if !user.active { return; }
      if !matches { return; }
      var lifetime := JwtLifetime(cfg);
      if lifetime.None? {
        r := Err(BadConfig);
        return;
      }
      var signedAt := now + toSign;
      var next := Token(uid, user.email, user.role, signedAt / 1000, JwtExp(signedAt, lifetime.value));
      var saved := SaveRefreshToken(uid, next, signedAt + toStamp);
      if saved.Err? {
        r := Err(saved.error);
        return;
      }
      if !decrypts {
        r := Err(StoreError);
        return;
      }
      r := Ok(next);
    }

    method Logout(userId: UserId, refreshToken: Option<Token>, ghost s: State)
      requires s.users == repo.users && s.rows == repo.rows
      modifies repo`rows
      ensures repo.rows == Step(s, AuthModel.Logout(userId, refreshToken)).rows
    {
      var _ := repo.DeleteRefreshTokens(userId, refreshToken);
    }
  }
}
