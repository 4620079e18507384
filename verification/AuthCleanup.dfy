/**
 Token cleanup is unobservable: a simulation between the swept and the
 unswept store, over every later run. It needs a lifetime of at least one
 second; with "0d" the cleanup can be observed, and a run shows how.
 */
module AuthCleanup {
  import opened Runs
  import opened Wrappers
  import opened Duration
  import opened AuthModel
  import opened AuthSafety
  import opened AuthService

  /** Stored in the unswept state `a` but swept from `b`. */
  predicate Stale(a: State, b: State, t: Token) { t in a.rows && t !in b.rows }

  /** The call is past its own expiry check, or about to insert, with a token
      whose row is among the swept ones. */
  predicate Uses(p: Phase, t: Token, now: nat) {
    match p
    case Found(prior, Some(stored)) => prior == t && now <= stored.row.expiresAt
    case Signed(prior, _, next) => prior == t || next == t
    case Saving(_, _, next) => next == t
    case Stamped(_, _, next, _) => next == t
    case _ => false
  }

  /** Equal, up to a lookup that found a row already expired. */
  predicate SameCall(p: Phase, q: Phase, now: nat) {
    || p == q
    || (p.Found? && q.Found? && p.prior == q.prior && q.stored.None?
        && p.stored.Some? && p.stored.value.row.expiresAt < now)
  }

  ghost predicate CallsSim(a: State, b: State, c: CallId) {
    && (c in a.calls <==> c in b.calls)
    && (c in a.calls ==>
          && SameCall(a.calls[c], b.calls[c], a.clock)
          && forall t | Stale(a, b, t) :: !Uses(a.calls[c], t, a.clock))
  }

  ghost predicate RowsSim(a: State, b: State, t: Token) {
    && (t in b.rows ==> t in a.rows && a.rows[t] == b.rows[t])
    && (Stale(a, b, t) ==> a.rows[t].expiresAt < a.clock && 1000 * t.exp < a.clock)
  }

  ghost predicate Sim(a: State, b: State) {
    && a.cfg == b.cfg && a.clock == b.clock && a.users == b.users && a.signed == b.signed && a.log == b.log
    && (forall t :: RowsSim(a, b, t))
    && (forall c: CallId :: CallsSim(a, b, c))
  }

  /** No call is past its expiry check with an expired row. In particular any
      state with no call in flight is quiet. */
  ghost predicate Quiet(s: State) {
    forall c, t | c in s.calls && t in s.rows && s.rows[t].expiresAt < s.clock :: !Uses(s.calls[c], t, s.clock)
  }

  lemma CleanupStarts(s: State)
    requires Inv(s) && Quiet(s)
    ensures Sim(s, DoCleanup(s))
  {
  }

  /** A freshly signed token has an `exp` still to come, so it is no stale row's. */
  lemma FreshIsNotStale(a: State, b: State, uid: UserId, user: User, lifetime: nat, t: Token)
    requires RowsSim(a, b, t) && Stale(a, b, t) && lifetime >= 1
    ensures SignFor(a, uid, user, lifetime) != t
  {
  }

  /** Both sides agree on whether a row the call is about to use is stored. */
  lemma SameUse(a: State, b: State, c: CallId, t: Token)
    requires Sim(a, b) && c in a.calls && Uses(a.calls[c], t, a.clock)
    ensures t in a.rows <==> t in b.rows
  {
    assert CallsSim(a, b, c) && RowsSim(a, b, t);
  }

  lemma DeleteRowsSim(a: State, b: State, c: CallId, t: Token)
    requires Sim(a, b)
    ensures RowsSim(DoRefreshDelete(a, c), DoRefreshDelete(b, c), t)
    ensures Stale(DoRefreshDelete(a, c), DoRefreshDelete(b, c), t) ==> Stale(a, b, t)
  {
    assert RowsSim(a, b, t) && CallsSim(a, b, c);
    if c in a.calls && a.calls[c].Signed? { SameUse(a, b, c, a.calls[c].prior); }
  }

  lemma InsertRowsSim(a: State, b: State, c: CallId, t: Token)
    requires Sim(a, b)
    ensures RowsSim(DoInsert(a, c), DoInsert(b, c), t)
    ensures Stale(DoInsert(a, c), DoInsert(b, c), t) ==> Stale(a, b, t)
  {
    assert RowsSim(a, b, t) && CallsSim(a, b, c);
    if c in a.calls && a.calls[c].Stamped? { SameUse(a, b, c, a.calls[c].next); }
  }

  lemma RowsKeepSim(a: State, b: State, e: Event, t: Token)
    requires Sim(a, b)
    ensures RowsSim(Step(a, e), Step(b, e), t)
    ensures Stale(Step(a, e), Step(b, e), t) ==> Stale(a, b, t)
  {
    assert RowsSim(a, b, t);
    match e {
      case RefreshDelete(c) => DeleteRowsSim(a, b, c, t);
      case Insert(c) => InsertRowsSim(a, b, c, t);
      case Tick(_) =>
      case PutUser(_, _) =>
      case DeleteUser(_) =>
      case Cleanup =>
      case Logout(_, _) =>
      case _ => OnlyBulkAndSavesWrite(a, e); OnlyBulkAndSavesWrite(b, e);
    }
  }

  lemma OnlyBulkAndSavesWrite(s: State, e: Event)
    requires Actor(e).Some? && !e.RefreshDelete? && !e.Insert?
    ensures Step(s, e).rows == s.rows && Step(s, e).clock == s.clock
  {
  }

  lemma OthersKeepSim(a: State, b: State, e: Event, c: CallId)
    requires Sim(a, b) && Actor(e) != Some(c)
    requires forall t :: Stale(Step(a, e), Step(b, e), t) ==> Stale(a, b, t)
    ensures CallsSim(Step(a, e), Step(b, e), c)
  {
    assert CallsSim(a, b, c);
    StepMovesOnlyItsActor(a, e, c);
    StepMovesOnlyItsActor(b, e, c);
    ClockGrows(a, e);
    ClockGrows(b, e);
  }

  lemma ClockGrows(s: State, e: Event)
    ensures s.clock <= Step(s, e).clock
    ensures !e.Tick? ==> Step(s, e).clock == s.clock
    ensures e.Tick? ==> Step(s, e).clock == s.clock + e.elapsed
  {
    hide DoLoginFind, DoLoginCheck, DoLoginVerify, DoLoginSign, DoRefreshBegin, DoRefreshFind, DoRefreshCheck, DoRefreshDelete,
         DoStamp, DoInsert, DoRespond;
  }

  lemma SignKeepsSim(a: State, b: State, c: CallId, t: Token)
    requires Sim(a, b) && Stale(a, b, t) && JwtLifetime(a.cfg) != Some(0)
    requires c in a.calls && (a.calls[c].LoginVerified? || a.calls[c].Found?)
    ensures var a' := if a.calls[c].Found? then DoRefreshCheck(a, c) else DoLoginSign(a, c);
            c in a'.calls && !Uses(a'.calls[c], t, a.clock)
  {
    assert RowsSim(a, b, t) && CallsSim(a, b, c);
    if JwtLifetime(a.cfg).Some? {
      var lifetime := JwtLifetime(a.cfg).value;
      match a.calls[c] {
        case LoginVerified(uid, user) => FreshIsNotStale(a, b, uid, user, lifetime, t);
        case Found(prior, Some(stored)) => FreshIsNotStale(a, b, stored.row.userId, stored.user, lifetime, t);
        case Found(_, None) =>
      }
    }
  }

  ghost predicate SameTrail(a: State, b: State) { a.signed == b.signed && a.log == b.log }

  /** The event's own call moves alike on both sides. */
  lemma LoginFindKeepsSim(a: State, b: State, c: CallId, uid: UserId)
    requires Sim(a, b)
    requires forall t :: Stale(DoLoginFind(a, c, uid), DoLoginFind(b, c, uid), t) ==> Stale(a, b, t)
    ensures CallsSim(DoLoginFind(a, c, uid), DoLoginFind(b, c, uid), c) && SameTrail(DoLoginFind(a, c, uid), DoLoginFind(b, c, uid))
  {
    assert CallsSim(a, b, c);
  }

  lemma LoginCheckKeepsSim(a: State, b: State, c: CallId)
    requires Sim(a, b)
    requires forall t :: Stale(DoLoginCheck(a, c), DoLoginCheck(b, c), t) ==> Stale(a, b, t)
    ensures CallsSim(DoLoginCheck(a, c), DoLoginCheck(b, c), c) && SameTrail(DoLoginCheck(a, c), DoLoginCheck(b, c))
  {
    assert CallsSim(a, b, c);
  }

  lemma VerifyKeepsSim(a: State, b: State, c: CallId, matches: bool)
    requires Sim(a, b)
    requires forall t :: Stale(DoLoginVerify(a, c, matches), DoLoginVerify(b, c, matches), t) ==> Stale(a, b, t)
    ensures CallsSim(DoLoginVerify(a, c, matches), DoLoginVerify(b, c, matches), c) && SameTrail(DoLoginVerify(a, c, matches), DoLoginVerify(b, c, matches))
  {
    assert CallsSim(a, b, c);
  }

  lemma BeginKeepsSim(a: State, b: State, c: CallId, presented: Token)
    requires Sim(a, b)
    requires forall t :: Stale(DoRefreshBegin(a, c, presented), DoRefreshBegin(b, c, presented), t) ==> Stale(a, b, t)
    ensures CallsSim(DoRefreshBegin(a, c, presented), DoRefreshBegin(b, c, presented), c) && SameTrail(DoRefreshBegin(a, c, presented), DoRefreshBegin(b, c, presented))
  {
    assert CallsSim(a, b, c);
  }

  lemma StampKeepsSim(a: State, b: State, c: CallId)
    requires Sim(a, b)
    requires forall t :: Stale(DoStamp(a, c), DoStamp(b, c), t) ==> Stale(a, b, t)
    ensures CallsSim(DoStamp(a, c), DoStamp(b, c), c) && SameTrail(DoStamp(a, c), DoStamp(b, c))
  {
    assert CallsSim(a, b, c);
  }

  lemma RespondKeepsSim(a: State, b: State, c: CallId, decrypts: bool)
    requires Sim(a, b)
    requires forall t :: Stale(DoRespond(a, c, decrypts), DoRespond(b, c, decrypts), t) ==> Stale(a, b, t)
    ensures CallsSim(DoRespond(a, c, decrypts), DoRespond(b, c, decrypts), c) && SameTrail(DoRespond(a, c, decrypts), DoRespond(b, c, decrypts))
  {
    assert CallsSim(a, b, c);
  }

  lemma LoginSignKeepsSim(a: State, b: State, c: CallId)
    requires Sim(a, b) && JwtLifetime(a.cfg) != Some(0)
    requires forall t :: Stale(DoLoginSign(a, c), DoLoginSign(b, c), t) ==> Stale(a, b, t)
    ensures CallsSim(DoLoginSign(a, c), DoLoginSign(b, c), c) && SameTrail(DoLoginSign(a, c), DoLoginSign(b, c))
  {
    assert CallsSim(a, b, c);
    if c in a.calls && a.calls[c].LoginVerified? {
      forall t | Stale(a, b, t) ensures !Uses(DoLoginSign(a, c).calls[c], t, a.clock) { SignKeepsSim(a, b, c, t); }
    }
  }

  lemma CheckKeepsSim(a: State, b: State, c: CallId)
    requires Sim(a, b) && JwtLifetime(a.cfg) != Some(0)
    requires forall t :: Stale(DoRefreshCheck(a, c), DoRefreshCheck(b, c), t) ==> Stale(a, b, t)
    ensures CallsSim(DoRefreshCheck(a, c), DoRefreshCheck(b, c), c) && SameTrail(DoRefreshCheck(a, c), DoRefreshCheck(b, c))
  {
    assert CallsSim(a, b, c);
    if c in a.calls && a.calls[c].Found? {
      forall t | Stale(a, b, t) ensures !Uses(DoRefreshCheck(a, c).calls[c], t, a.clock) {
        SignKeepsSim(a, b, c, t);
      }
    }
  }

  lemma FindKeepsSim(a: State, b: State, c: CallId)
    requires Sim(a, b)
    ensures CallsSim(DoRefreshFind(a, c), DoRefreshFind(b, c), c) && SameTrail(DoRefreshFind(a, c), DoRefreshFind(b, c))
  {
    assert CallsSim(a, b, c);
    if c in a.calls && a.calls[c].Begun? {
      var prior := a.calls[c].prior;
      assert RowsSim(a, b, prior);
    }
  }

  lemma DeleteKeepsSim(a: State, b: State, c: CallId)
    requires Sim(a, b)
    requires forall t :: Stale(DoRefreshDelete(a, c), DoRefreshDelete(b, c), t) ==> Stale(a, b, t)
    ensures CallsSim(DoRefreshDelete(a, c), DoRefreshDelete(b, c), c) && SameTrail(DoRefreshDelete(a, c), DoRefreshDelete(b, c))
  {
    assert CallsSim(a, b, c);
    if c in a.calls && a.calls[c].Signed? { SameUse(a, b, c, a.calls[c].prior); }
  }

  lemma InsertKeepsSim(a: State, b: State, c: CallId)
    requires Sim(a, b)
    requires forall t :: Stale(DoInsert(a, c), DoInsert(b, c), t) ==> Stale(a, b, t)
    ensures CallsSim(DoInsert(a, c), DoInsert(b, c), c) && SameTrail(DoInsert(a, c), DoInsert(b, c))
  {
    assert CallsSim(a, b, c);
    if c in a.calls && a.calls[c].Stamped? { SameUse(a, b, c, a.calls[c].next); }
  }

  lemma ActorKeepsSim(a: State, b: State, e: Event)
    requires Sim(a, b) && JwtLifetime(a.cfg) != Some(0)
    requires Actor(e).Some?
    requires forall t :: Stale(Step(a, e), Step(b, e), t) ==> Stale(a, b, t)
    ensures CallsSim(Step(a, e), Step(b, e), Actor(e).value) && SameTrail(Step(a, e), Step(b, e))
  {
    hide Sim, DoLoginFind, DoLoginCheck, DoLoginVerify, DoLoginSign, DoRefreshBegin, DoRefreshFind, DoRefreshCheck,
         DoRefreshDelete, DoStamp, DoInsert, DoRespond, JwtLifetime, SameTrail, CallsSim, Stale;
    match e {
      case LoginFind(c, uid) => LoginFindKeepsSim(a, b, c, uid);
      case LoginCheck(c) => LoginCheckKeepsSim(a, b, c);
      case LoginVerify(c, matches) => VerifyKeepsSim(a, b, c, matches);
      case LoginSign(c) => LoginSignKeepsSim(a, b, c);
      case RefreshBegin(c, presented) => BeginKeepsSim(a, b, c, presented);
      case RefreshFind(c) => FindKeepsSim(a, b, c);
      case RefreshCheck(c) => CheckKeepsSim(a, b, c);
      case RefreshDelete(c) => DeleteKeepsSim(a, b, c);
      case Stamp(c) => StampKeepsSim(a, b, c);
      case Insert(c) => InsertKeepsSim(a, b, c);
      case Respond(c, decrypts) => RespondKeepsSim(a, b, c, decrypts);
    }
  }

  lemma BulkKeepsRest(a: State, b: State, e: Event)
    requires Sim(a, b) && Actor(e).None?
    ensures SameTrail(Step(a, e), Step(b, e))
  {
  }

  lemma StepKeepsConfig(s: State, e: Event)
    ensures Step(s, e).cfg == s.cfg
  {
    hide DoLoginFind, DoLoginCheck, DoLoginVerify, DoLoginSign, DoRefreshBegin, DoRefreshFind, DoRefreshCheck, DoRefreshDelete,
         DoStamp, DoInsert, DoRespond;
  }

  lemma StepOnUsers(s: State, e: Event)
    ensures Step(s, e).users ==
            match e
            case PutUser(uid, user) => s.users[uid := user]
            case DeleteUser(uid) => s.users - {uid}
            case _ => s.users
  {
    hide DoLoginFind, DoLoginCheck, DoLoginVerify, DoLoginSign, DoRefreshBegin, DoRefreshFind, DoRefreshCheck, DoRefreshDelete,
         DoStamp, DoInsert, DoRespond;
  }

  lemma StepKeepsUsers(a: State, b: State, e: Event)
    requires a.users == b.users
    ensures Step(a, e).users == Step(b, e).users
  {
    StepOnUsers(a, e);
    StepOnUsers(b, e);
    hide Step;
  }

  lemma StepKeepsSim(a: State, b: State, e: Event)
    requires Sim(a, b) && JwtLifetime(a.cfg) != Some(0)
    ensures Sim(Step(a, e), Step(b, e))
  {
    hide Step;
    forall t ensures RowsSim(Step(a, e), Step(b, e), t) && (Stale(Step(a, e), Step(b, e), t) ==> Stale(a, b, t)) {
      RowsKeepSim(a, b, e, t);
    }
    if Actor(e).Some? { ActorKeepsSim(a, b, e); } else { BulkKeepsRest(a, b, e); }
    forall c: CallId ensures CallsSim(Step(a, e), Step(b, e), c) {
      if Actor(e) != Some(c) { OthersKeepSim(a, b, e, c); }
    }
    StepKeepsUsers(a, b, e);
    StepKeepsConfig(a, e);
    StepKeepsConfig(b, e);
    ClockGrows(a, e);
    ClockGrows(b, e);
  }

  lemma {:induction false} ExecKeepsSim(a: State, b: State, es: seq<Event>)
    requires Sim(a, b) && JwtLifetime(a.cfg) != Some(0)
    ensures Sim(Exec(a, es), Exec(b, es))
  {
    hide Step, Sim;
    if es != [] {
      ExecKeepsSim(a, b, es[..|es| - 1]);
      ExecKeepsConfig(a, es[..|es| - 1]);
      StepKeepsSim(Exec(a, es[..|es| - 1]), Exec(b, es[..|es| - 1]), es[|es| - 1]);
    }
  }

  lemma {:induction false} ExecKeepsConfig(s: State, es: seq<Event>)
    ensures Exec(s, es).cfg == s.cfg
  {
    hide Step;
    if es != [] {
      ExecKeepsConfig(s, es[..|es| - 1]);
      StepKeepsConfig(Exec(s, es[..|es| - 1]), es[|es| - 1]);
    }
  }

  /** What a caller can see of a call. */
  predicate SameResult(a: State, b: State, c: CallId) {
    && (c in a.calls <==> c in b.calls)
    && (c in a.calls && (a.calls[c].Done? || a.calls[c].Failed?) ==> b.calls[c] == a.calls[c])
    && (c in b.calls && (b.calls[c].Done? || b.calls[c].Failed?) ==> a.calls[c] == b.calls[c])
  }

  /** Cleanup is unobservable. Inserted where no call is past its expiry check
      with an expired row, whatever runs afterwards, in any interleaving, every
      call ends the same way and every later insertion and rotation is the same;
      only expired rows are missing from the table. */
  lemma {:induction false} CleanupUnobservable(s: State, es: seq<Event>, c: CallId)
    requires Inv(s) && Quiet(s) && JwtLifetime(s.cfg) != Some(0)
    ensures
      var a, b := Exec(s, es), Exec(DoCleanup(s), es);
      && SameResult(a, b, c)
      && a.users == b.users && a.log == b.log
      && (forall t | t in b.rows :: t in a.rows && a.rows[t] == b.rows[t])
      && (forall t | t in a.rows && t !in b.rows :: a.rows[t].expiresAt < a.clock)
  {
    hide Run;
    CleanupStarts(s);
    ExecKeepsSim(s, DoCleanup(s), es);
    var a, b := Exec(s, es), Exec(DoCleanup(s), es);
    assert CallsSim(a, b, c);
    forall t | t in b.rows ensures t in a.rows && a.rows[t] == b.rows[t] { assert RowsSim(a, b, t); }
    forall t | t in a.rows && t !in b.rows ensures a.rows[t].expiresAt < a.clock { assert RowsSim(a, b, t); }
  }

  /** No call is in flight. */
  ghost predicate Idle(s: State) {
    forall c | c in s.calls :: s.calls[c].Done? || s.calls[c].Failed?
  }

  /** For a call in flight past its expiry check the sweep shows in exactly two
      places. At the delete: a refresh of an expired row deletes it unswept and
      fails swept. */
  lemma {:induction false} SweepShowsAtDeleteIff(s: State, c: CallId)
    requires c in s.calls && s.calls[c].Signed?
    ensures
      var p := s.calls[c];
      var a, b := Exec(s, [RefreshDelete(c)]), Exec(DoCleanup(s), [RefreshDelete(c)]);
      var expired := p.prior in s.rows && s.rows[p.prior].expiresAt < s.clock;
      && (!SameCallNow(a, b, c) <==> expired)
      && (expired ==> At(a, c, Saving(ByRefresh(p.prior), p.uid, p.next)) && At(b, c, Failed(None)))
  {
    RunOne(Step, s, RefreshDelete(c));
    RunOne(Step, DoCleanup(s), RefreshDelete(c));
    hide Run;
  }

  /** At the insert: a token already stored in an expired row is refused unswept
      and stored swept, which costs an unswept rotation its session. */
  lemma {:induction false} SweepShowsAtInsertIff(s: State, c: CallId)
    requires c in s.calls && s.calls[c].Stamped? && s.calls[c].uid in s.users
    ensures
      var p := s.calls[c];
      var a, b := Exec(s, [Insert(c)]), Exec(DoCleanup(s), [Insert(c)]);
      var expired := p.next in s.rows && s.rows[p.next].expiresAt < s.clock;
      && (!SameCallNow(a, b, c) <==> expired)
      && (expired ==> At(a, c, Failed(Spent(p.origin))) && At(b, c, Inserted(p.origin, p.uid, p.next)))
  {
    RunOne(Step, s, Insert(c));
    RunOne(Step, DoCleanup(s), Insert(c));
    hide Run;
  }

  predicate SameCallNow(a: State, b: State, c: CallId) { c in a.calls && c in b.calls && a.calls[c] == b.calls[c] }

  function FirstLogin(cfg: Config, uid: UserId, user: User): State {
    Exec(State(cfg, 0, map[uid := user], map[], {}, map[], multiset{}), LoginScript(0, uid, true, 0, 0, true) + [Tick(1)])
  }

  lemma AfterFirstLogin(cfg: Config, uid: UserId, user: User)
    requires RowLifetime(cfg).Some? && RowLifetime(cfg).value.InSeconds() == 0 && user.active
    ensures
      var s := FirstLogin(cfg, uid, user);
      && Inv(s) && Idle(s) && s.cfg == cfg && s.clock == 1 && s.users == map[uid := user]
      && s.rows == map[Token(uid, user.email, user.role, 0, 0) := Row(uid, 0)] && s.calls.Keys <= {0}
  {
    hide Run, Step;
    var start := State(cfg, 0, map[uid := user], map[], {}, map[], multiset{});
    var first := LoginScript(0, uid, true, 0, 0, true);
    RunConcat(Step, start, first, [Tick(1)]);
    LoginAlone(start, 0, uid, true, 0, 0, true);
    RunOne(Step, Exec(start, first), Tick(1));
    TickIsQuiet(Exec(start, first), 1);
    LoginKeepsClock(start, 0, uid);
    ExecKeepsInv(start, first + [Tick(1)]);
  }

  lemma TickIsQuiet(s: State, elapsed: nat)
    ensures Step(s, Tick(elapsed)) == s.(clock := s.clock + elapsed)
  {
  }

  /** With a zero lifetime the sweep shows even between non-overlapping calls:
      the row of a login expires within its own second, and a second login in
      that second signs the same token, which collides unless the row is swept. */
  lemma ZeroLifetimeSweepShows(cfg: Config, uid: UserId, user: User)
    requires RowLifetime(cfg).Some? && RowLifetime(cfg).value.InSeconds() == 0 && user.active
    ensures
      var s, second := FirstLogin(cfg, uid, user), LoginScript(1, uid, true, 0, 0, true);
      !SameResult(Exec(s, second), Exec(DoCleanup(s), second), 1)
  {
    hide Run, FirstLogin;
    AfterFirstLogin(cfg, uid, user);
    var s := FirstLogin(cfg, uid, user);
    LoginAlone(s, 1, uid, true, 0, 0, true);
    LoginAlone(DoCleanup(s), 1, uid, true, 0, 0, true);
  }

  /** The sweep changes no later outcome of any run that starts idle. */
  ghost predicate SweepHidden(cfg: Config) {
    forall s: State, es: seq<Event>, c: CallId | s.cfg == cfg && Inv(s) && Idle(s) :: SameResult(Exec(s, es), Exec(DoCleanup(s), es), c)
  }

  /** Cleanup between non-overlapping calls is unobservable exactly when the
      configured lifetime is at least one second. */
  lemma SweepHiddenIff(cfg: Config)
    requires RowLifetime(cfg).Some?
    ensures SweepHidden(cfg) <==> RowLifetime(cfg).value.InSeconds() >= 1
  {
    hide Run, Step, Inv;
    if RowLifetime(cfg).value.InSeconds() >= 1 {
      forall s: State, es: seq<Event>, c: CallId | s.cfg == cfg && Inv(s) && Idle(s)
        ensures SameResult(Exec(s, es), Exec(DoCleanup(s), es), c)
      {
        CleanupUnobservable(s, es, c);
      }
    } else {
      AfterFirstLogin(cfg, "u", User("e", "USER", true));
      ZeroLifetimeSweepShows(cfg, "u", User("e", "USER", true));
    }
  }

  lemma LoginKeepsClock(s: State, c: CallId, uid: UserId)
    ensures Exec(s, LoginScript(c, uid, true, 0, 0, true)).clock == s.clock
    ensures Exec(s, LoginScript(c, uid, true, 0, 0, true)).cfg == s.cfg
    ensures Exec(s, LoginScript(c, uid, true, 0, 0, true)).calls.Keys <= s.calls.Keys + {c}
  {
    hide Run, Step;
    var es := LoginScript(c, uid, true, 0, 0, true);
    ExecKeepsConfig(s, es);
    QuietScript(s, es, c);
  }

  lemma {:induction false} QuietScript(s: State, es: seq<Event>, c: CallId)
    requires forall i | 0 <= i < |es| :: es[i] == Tick(0) || Actor(es[i]) == Some(c)
    ensures Exec(s, es).clock == s.clock && Exec(s, es).calls.Keys <= s.calls.Keys + {c}
  {
    hide Step;
    if es != [] {
      var init, e := es[..|es| - 1], es[|es| - 1];
      QuietScript(s, init, c);
      ClockGrows(Exec(s, init), e);
      forall d: CallId | d in Exec(s, es).calls ensures d in s.calls.Keys + {c} {
        if Actor(e) != Some(d) { StepMovesOnlyItsActor(Exec(s, init), e, d); }
      }
    }
  }
}
