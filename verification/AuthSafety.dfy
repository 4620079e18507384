/** What every run of the rotation machine keeps. */
module AuthSafety {
  import opened Runs
  import opened Wrappers
  import opened Duration
  import opened AuthModel
  import opened FiniteSets

  // ---- the kept invariant ----

  /** A row belongs to the `sub` of its token, its user exists, the token was
      signed here, and the row outlives the token. */
  ghost predicate RowOk(s: State, t: Token)
    requires t in s.rows
  {
    && s.rows[t].userId == t.sub
    && t.sub in s.users
    && t in s.signed
    && s.rows[t].expiresAt >= 1000 * t.exp
  }

  /** A token about to be stored was signed no later than now, for `uid`. */
  ghost predicate FreshOk(s: State, uid: UserId, next: Token) {
    && next.sub == uid
    && next in s.signed
    && JwtLifetime(s.cfg).Some?
    && next.exp == next.iat + JwtLifetime(s.cfg).value
    && 1000 * next.iat <= s.clock
  }

  ghost predicate CallOk(s: State, p: Phase) {
    match p
    case Found(prior, stored) => stored.Some? ==> stored.value.row.userId == prior.sub
    case Signed(prior, uid, next) => uid == prior.sub && FreshOk(s, uid, next)
    case Saving(o, uid, next) => FreshOk(s, uid, next) && (o.ByRefresh? ==> o.prior.sub == uid)
    case Stamped(o, uid, next, expiresAt) =>
      && FreshOk(s, uid, next)
      && (o.ByRefresh? ==> o.prior.sub == uid)
      && expiresAt >= 1000 * next.exp
    case _ => true
  }

  ghost predicate Inv(s: State) {
    && (forall t | t in s.rows :: RowOk(s, t))
    && (forall c | c in s.calls :: CallOk(s, s.calls[c]))
  }

  /** Dropping rows, letting time pass, signing more tokens or adding log entries
      keeps the invariant, as long as no row loses its user. */
  lemma LoosenKeepsInv(s: State, s': State)
    requires Inv(s)
    requires s'.cfg == s.cfg && s'.calls == s.calls && s.clock <= s'.clock && s.signed <= s'.signed
    requires forall t | t in s'.rows :: t in s.rows && s'.rows[t] == s.rows[t] && s'.rows[t].userId in s'.users
    ensures Inv(s')
  {
  }

  lemma DeleteKeepsInv(s: State, c: CallId)
    requires Inv(s)
    ensures Inv(DoRefreshDelete(s, c))
  {
  }

  lemma StampKeepsInv(s: State, c: CallId)
    requires Inv(s)
    ensures Inv(DoStamp(s, c))
  {
  }

  lemma InsertKeepsInv(s: State, c: CallId)
    requires Inv(s)
    ensures Inv(DoInsert(s, c))
  {
  }

  lemma CallKeepsInv(s: State, e: Event)
    requires Inv(s)
    requires e.LoginFind? || e.LoginCheck? || e.LoginVerify? || e.RefreshBegin? || e.Respond?
    ensures Inv(Step(s, e))
  {
    hide JwtLifetime, RowLifetime, SignFor, JwtInDate;
  }

  lemma FindKeepsInv(s: State, c: CallId)
    requires Inv(s)
    ensures Inv(DoRefreshFind(s, c))
  {
  }

  lemma SignKeepsInv(s: State, c: CallId)
    requires Inv(s)
    ensures Inv(DoLoginSign(s, c))
  {
  }

  lemma CheckKeepsInv(s: State, c: CallId)
    requires Inv(s)
    ensures Inv(DoRefreshCheck(s, c))
  {
  }

  lemma StepKeepsInv(s: State, e: Event)
    requires Inv(s)
    ensures Inv(Step(s, e))
  {
    forall t | t in s.rows ensures s.rows[t].userId in s.users { assert RowOk(s, t); }
    match e {
      case Tick(_) => LoosenKeepsInv(s, Step(s, e));
      case PutUser(_, _) => LoosenKeepsInv(s, Step(s, e));
      case DeleteUser(_) => LoosenKeepsInv(s, Step(s, e));
      case Cleanup => LoosenKeepsInv(s, Step(s, e));
      case Logout(_, _) => LoosenKeepsInv(s, Step(s, e));
      case LoginSign(c) => SignKeepsInv(s, c);
      case RefreshCheck(c) => CheckKeepsInv(s, c);
      case RefreshFind(c) => FindKeepsInv(s, c);
      case RefreshDelete(c) => DeleteKeepsInv(s, c);
      case Stamp(c) => StampKeepsInv(s, c);
      case Insert(c) => InsertKeepsInv(s, c);
      case _ => CallKeepsInv(s, e);
    }
  }

  lemma {:induction false} ExecKeepsInv(s: State, es: seq<Event>)
    requires Inv(s)
    ensures Inv(Exec(s, es))
  {
    if es != [] {
      ExecKeepsInv(s, es[..|es| - 1]);
      StepKeepsInv(Exec(s, es[..|es| - 1]), es[|es| - 1]);
    }
  }

  /** In every reachable state each row belongs to its token's `sub`, whose user
      exists, and is kept at least until the token's `exp`. */
  lemma {:induction false} RowsBelongToTheirTokens(s: State, es: seq<Event>, t: Token)
    requires Initial(s) && t in Exec(s, es).rows
    ensures Exec(s, es).rows[t].userId == t.sub
    ensures t.sub in Exec(s, es).users
    ensures Exec(s, es).rows[t].expiresAt >= 1000 * t.exp
  {
    ExecKeepsInv(s, es);
    assert RowOk(Exec(s, es), t);
  }

  /** The cleanup task never deletes a row whose JWT is still in date. */
  lemma {:induction false} CleanupSparesTokensInDate(s: State, es: seq<Event>, t: Token)
    requires Initial(s) && t in Exec(s, es).rows && JwtInDate(t.exp, Exec(s, es).clock)
    ensures t in Exec(s, es + [Cleanup]).rows
  {
    assert (es + [Cleanup])[..|es|] == es;
    RowsBelongToTheirTokens(s, es, t);
  }

  // ---- an event moves one call ----

  /** The call an event belongs to. */
  function Actor(e: Event): Option<CallId> {
    match e
    case LoginFind(c, _) => Some(c)
    case LoginCheck(c) => Some(c)
    case LoginVerify(c, _) => Some(c)
    case LoginSign(c) => Some(c)
    case RefreshBegin(c, _) => Some(c)
    case RefreshFind(c) => Some(c)
    case RefreshCheck(c) => Some(c)
    case RefreshDelete(c) => Some(c)
    case Stamp(c) => Some(c)
    case Insert(c) => Some(c)
    case Respond(c, _) => Some(c)
    case _ => None
  }

  predicate CallSame(s: State, s': State, c: CallId) {
    && (c in s.calls <==> c in s'.calls)
    && (c in s.calls ==> s'.calls[c] == s.calls[c])
  }

  lemma LoginMovesOnlyItsCall(s: State, e: Event, c: CallId)
    requires (e.LoginFind? || e.LoginCheck? || e.LoginVerify? || e.LoginSign?) && e.c != c
    ensures CallSame(s, Step(s, e), c)
  {
    hide DoRefreshBegin, DoRefreshFind, DoRefreshCheck, DoRefreshDelete, DoStamp, DoInsert, DoRespond, JwtLifetime, SignFor;
  }

  lemma RefreshMovesOnlyItsCall(s: State, e: Event, c: CallId)
    requires (e.RefreshBegin? || e.RefreshFind? || e.RefreshCheck? || e.RefreshDelete?) && e.c != c
    ensures CallSame(s, Step(s, e), c)
  {
    hide DoLoginFind, DoLoginCheck, DoLoginVerify, DoLoginSign, DoStamp, DoInsert, DoRespond, JwtLifetime, SignFor;
  }

  lemma SaveMovesOnlyItsCall(s: State, e: Event, c: CallId)
    requires (e.Stamp? || e.Insert? || e.Respond?) && e.c != c
    ensures CallSame(s, Step(s, e), c)
  {
    hide DoLoginFind, DoLoginCheck, DoLoginVerify, DoLoginSign, DoRefreshBegin, DoRefreshFind, DoRefreshCheck, DoRefreshDelete,
         RowLifetime;
  }

  lemma StepMovesOnlyItsActor(s: State, e: Event, c: CallId)
    requires Actor(e) != Some(c)
    ensures CallSame(s, Step(s, e), c)
  {
    if e.LoginFind? || e.LoginCheck? || e.LoginVerify? || e.LoginSign? {
      LoginMovesOnlyItsCall(s, e, c);
    } else if e.RefreshBegin? || e.RefreshFind? || e.RefreshCheck? || e.RefreshDelete? {
      RefreshMovesOnlyItsCall(s, e, c);
    } else if e.Stamp? || e.Insert? || e.Respond? {
      SaveMovesOnlyItsCall(s, e, c);
    }
    hide DoLoginFind, DoLoginCheck, DoLoginVerify, DoLoginSign, DoRefreshBegin, DoRefreshFind, DoRefreshCheck, DoRefreshDelete,
         DoStamp, DoInsert, DoRespond, LogoutHits;
  }

  /** How a phase can follow another, whatever the event. */
  predicate Follows(p: Phase, p': Phase) {
    match p
    case Begun(prior) => p'.Found? && p'.prior == prior
    case Found(prior, _) => p' == Failed(None) || (p'.Signed? && p'.prior == prior)
    case Signed(prior, _, _) => p' == Failed(None) || (p'.Saving? && p'.origin == ByRefresh(prior))
    case _ => !p'.Begun? && !p'.Found? && !p'.Signed? && SpentOf(p') == SpentOf(p)
  }

  predicate MoveFollows(s: State, s': State, e: Event, c: CallId)
    requires c in s.calls
  {
    && c in s'.calls
    && (s'.calls[c] == s.calls[c] || Follows(s.calls[c], s'.calls[c]))
    && (s.calls[c].Begun? && s'.calls[c] != s.calls[c] ==> e.RefreshFind?)
    && (s.calls[c].Found? && s'.calls[c] != s.calls[c] ==> e.RefreshCheck?)
    && (s.calls[c].Signed? && s'.calls[c] != s.calls[c] ==> e.RefreshDelete?)
  }

  lemma LoginFollows(s: State, e: Event)
    requires e.LoginFind? || e.LoginCheck? || e.LoginVerify? || e.LoginSign?
    requires e.c in s.calls
    ensures MoveFollows(s, Step(s, e), e, e.c)
  {
  }

  lemma RefreshFollows(s: State, e: Event)
    requires e.RefreshBegin? || e.RefreshFind? || e.RefreshCheck? || e.RefreshDelete?
    requires e.c in s.calls
    ensures MoveFollows(s, Step(s, e), e, e.c)
  {
  }

  lemma StampFollows(s: State, c: CallId)
    requires c in s.calls
    ensures MoveFollows(s, DoStamp(s, c), Stamp(c), c)
  {
  }

  lemma InsertFollows(s: State, c: CallId)
    requires c in s.calls
    ensures MoveFollows(s, DoInsert(s, c), Insert(c), c)
  {
  }

  lemma RespondFollows(s: State, c: CallId, decrypts: bool)
    requires c in s.calls
    ensures MoveFollows(s, DoRespond(s, c, decrypts), Respond(c, decrypts), c)
  {
  }

  lemma StepFollows(s: State, e: Event)
    requires Actor(e).Some? && Actor(e).value in s.calls
    ensures MoveFollows(s, Step(s, e), e, Actor(e).value)
  {
    if e.LoginFind? || e.LoginCheck? || e.LoginVerify? || e.LoginSign? {
      LoginFollows(s, e);
    } else if e.RefreshBegin? || e.RefreshFind? || e.RefreshCheck? || e.RefreshDelete? {
      RefreshFollows(s, e);
    } else {
      match e {
        case Stamp(c) => StampFollows(s, c);
        case Insert(c) => InsertFollows(s, c);
        case Respond(c, decrypts) => RespondFollows(s, c, decrypts);
      }
    }
  }

  lemma StepStarts(s: State, e: Event)
    requires Actor(e).Some? && Actor(e).value !in s.calls && Actor(e).value in Step(s, e).calls
    ensures var p' := Step(s, e).calls[Actor(e).value];
            || p'.LoginFound?
            || p' == Failed(None)
            || (p'.Begun? && e == RefreshBegin(Actor(e).value, p'.prior) && p'.prior in s.signed && JwtInDate(p'.prior.exp, s.clock))
  {
  }

  // ---- at most one rotation per inserted row ----

  /** The token whose row the call deleted, once it has. */
  function SpentOf(p: Phase): Option<Token> {
    match p
    case Saving(o, _, _) => Spent(o)
    case Stamped(o, _, _, _) => Spent(o)
    case Inserted(o, _, _) => Spent(o)
    case Done(o, _) => Spent(o)
    case Failed(spent) => spent
    case _ => None
  }

  predicate SpentIs(s: State, c: CallId, t: Token) {
    c in s.calls && SpentOf(s.calls[c]) == Some(t)
  }

  ghost function Winners(s: State, t: Token): set<CallId> {
    set c | c in s.calls && SpentIs(s, c, t)
  }

  ghost function Successes(s: State, t: Token): set<CallId> {
    set c | c in s.calls && s.calls[c].Done? && s.calls[c].origin == ByRefresh(t)
  }

  /** Rows deleted by a refresh, plus the one still stored, are all accounted for
      by insertions; and every winner deleted its own row. */
  ghost predicate Accounted(s: State, t: Token) {
    && s.log[Rotated(t)] + (if t in s.rows then 1 else 0) <= s.log[RowInserted(t)]
    && |Winners(s, t)| == s.log[Rotated(t)]
  }

  lemma OnlyDeleteSpends(s: State, e: Event, t: Token)
    requires Actor(e).Some? && !e.RefreshDelete?
    ensures SpentIs(Step(s, e), Actor(e).value, t) <==> SpentIs(s, Actor(e).value, t)
  {
    hide Step;
    if Actor(e).value in s.calls {
      StepFollows(s, e);
    } else if Actor(e).value in Step(s, e).calls {
      StepStarts(s, e);
    }
  }

  lemma InsertAccounted(s: State, c: CallId, t: Token)
    ensures var s' := DoInsert(s, c);
            && s'.log[Rotated(t)] == s.log[Rotated(t)]
            && s'.log[RowInserted(t)] == s.log[RowInserted(t)] + (if t in s'.rows && t !in s.rows then 1 else 0)
            && (t in s.rows ==> t in s'.rows)
  {
  }

  lemma RowsAccounted(s: State, e: Event, t: Token)
    requires !e.RefreshDelete?
    ensures Step(s, e).log[Rotated(t)] == s.log[Rotated(t)]
    ensures Step(s, e).log[RowInserted(t)] == s.log[RowInserted(t)] + (if Enters(s, e, t) then 1 else 0)
  {
    if e.Insert? {
      InsertAccounted(s, e.c, t);
    } else {
      if t in Step(s, e).rows { OthersOnlyDropRows(s, e, t); }
      OthersOnlyReadTheLog(s, e);
    }
  }

  lemma OthersOnlyReadTheLog(s: State, e: Event)
    requires !e.RefreshDelete? && !e.Insert?
    ensures Step(s, e).log == s.log
  {
  }

  /** The delete is about to succeed and spend `t`. */
  predicate Redeems(s: State, c: CallId, t: Token) {
    c in s.calls && s.calls[c].Signed? && s.calls[c].prior == t && t in s.rows
  }

  lemma DeleteSpends(s: State, c: CallId, t: Token)
    ensures var s' := DoRefreshDelete(s, c);
            && (forall d: CallId :: SpentIs(s', d, t) <==> SpentIs(s, d, t) || (d == c && Redeems(s, c, t)))
            && (Redeems(s, c, t) ==> !SpentIs(s, c, t) && t !in s'.rows)
            && s'.log == s.log + (if c in s.calls && s.calls[c].Signed? && Redeems(s, c, s.calls[c].prior)
                                  then multiset{Rotated(s.calls[c].prior)} else multiset{})
            && (t in s'.rows ==> t in s.rows) && s'.calls.Keys == s.calls.Keys
  {
  }

  lemma DeleteKeepsAccounted(s: State, c: CallId, t: Token)
    requires Accounted(s, t)
    ensures Accounted(DoRefreshDelete(s, c), t)
  {
    DeleteSpends(s, c, t);
    hide DoRefreshDelete, SpentIs;
    assert Winners(DoRefreshDelete(s, c), t) == Winners(s, t) + if Redeems(s, c, t) then {c} else {};
  }

  lemma StepKeepsAccounted(s: State, e: Event, t: Token)
    requires Accounted(s, t)
    ensures Accounted(Step(s, e), t)
  {
    if e.RefreshDelete? {
      DeleteKeepsAccounted(s, e.c, t);
    } else {
      forall c: CallId ensures SpentIs(Step(s, e), c, t) <==> SpentIs(s, c, t) {
        if Actor(e) == Some(c) { OnlyDeleteSpends(s, e, t); } else { StepMovesOnlyItsActor(s, e, c); }
      }
      assert Winners(Step(s, e), t) == Winners(s, t);
      RowsAccounted(s, e, t);
    }
  }

  lemma {:induction false} ExecKeepsAccounted(s: State, es: seq<Event>, t: Token)
    requires Initial(s)
    ensures Accounted(Exec(s, es), t)
  {
    if es == [] {
      assert Winners(s, t) == {};
    } else {
      ExecKeepsAccounted(s, es[..|es| - 1], t);
      StepKeepsAccounted(Exec(s, es[..|es| - 1]), es[|es| - 1], t);
    }
  }

  /** The event's insert of `t` succeeds. */
  predicate Enters(s: State, e: Event, t: Token) {
    && e.Insert? && e.c in s.calls && s.calls[e.c].Stamped? && s.calls[e.c].next == t
    && t !in s.rows && s.calls[e.c].uid in s.users
  }

  /** That is, the event stores a row for `t` where there was none. */
  lemma {:induction false} EntersIff(s: State, e: Event, t: Token)
    ensures Enters(s, e, t) <==> t !in s.rows && t in Step(s, e).rows
  {
    if e.Insert? {
      assert Step(s, e) == DoInsert(s, e.c);
      hide Step;
    } else if e.RefreshDelete? {
      assert Step(s, e) == DoRefreshDelete(s, e.c);
      hide Step;
    } else {
      if t in Step(s, e).rows { OthersOnlyDropRows(s, e, t); }
      hide Step;
    }
  }

  /** The rows ever inserted for `t` in a run. */
  function Insertions(s: State, es: seq<Event>, t: Token): nat {
    if es == [] then 0
    else
      var init, e := es[..|es| - 1], es[|es| - 1];
      Insertions(s, init, t) + if Enters(Exec(s, init), e, t) then 1 else 0
  }

  lemma {:induction false} LogCountsInsertions(s: State, es: seq<Event>, t: Token)
    ensures Exec(s, es).log[RowInserted(t)] == s.log[RowInserted(t)] + Insertions(s, es, t)
  {
    hide Step, Enters;
    if es != [] {
      var init, e := es[..|es| - 1], es[|es| - 1];
      LogCountsInsertions(s, init, t);
      if e.RefreshDelete? { DeleteEntersNone(Exec(s, init), e.c, t); } else { RowsAccounted(Exec(s, init), e, t); }
    }
  }

  lemma DeleteEntersNone(s: State, c: CallId, t: Token)
    ensures !Enters(s, RefreshDelete(c), t) && Step(s, RefreshDelete(c)).log[RowInserted(t)] == s.log[RowInserted(t)]
  {
    DeleteSpends(s, c, t);
  }

  /** At-most-once rotation: over every interleaving, the refreshes of `t` that
      succeed are at most the rows ever inserted for `t`. */
  lemma {:induction false} AtMostOnceRotation(s: State, es: seq<Event>, t: Token)
    requires Initial(s)
    ensures |Successes(Exec(s, es), t)| <= Insertions(s, es, t)
  {
    ExecKeepsAccounted(s, es, t);
    LogCountsInsertions(s, es, t);
    SubsetSize(Successes(Exec(s, es), t), Winners(Exec(s, es), t));
  }

  /** A token inserted once is redeemed by at most one of any number of
      concurrent refreshes. */
  lemma {:induction false} OneWinner(s: State, es: seq<Event>, t: Token, c: CallId, d: CallId)
    requires Initial(s) && Insertions(s, es, t) <= 1
    requires c in Successes(Exec(s, es), t) && d in Successes(Exec(s, es), t)
    ensures c == d
  {
    AtMostOnceRotation(s, es, t);
    if c != d {
      SubsetSize({c, d}, Successes(Exec(s, es), t));
    }
  }

  // ---- session conservation ----

  ghost function UserRows(s: State, u: UserId): set<Token> {
    set t | t in s.rows && s.rows[t].userId == u
  }

  predicate IsPending(p: Phase, u: UserId) {
    (p.Saving? || p.Stamped?) && p.origin.ByRefresh? && p.uid == u
  }

  /** Rotations that deleted the old row and have not inserted the new one. */
  ghost function Pending(s: State, u: UserId): set<CallId> {
    set c | c in s.calls && PendingIs(s, c, u)
  }

  ghost function Sessions(s: State, u: UserId): nat { |UserRows(s, u)| + |Pending(s, u)| }

  lemma SessionsShrink(s: State, s': State, u: UserId)
    requires forall t | t in s'.rows :: t in s.rows && s'.rows[t] == s.rows[t]
    requires forall c: CallId | PendingIs(s', c, u) :: PendingIs(s, c, u)
    ensures Sessions(s', u) <= Sessions(s, u)
  {
    SubsetSize(UserRows(s', u), UserRows(s, u));
    SubsetSize(Pending(s', u), Pending(s, u));
  }

  lemma DeleteRows(s: State, c: CallId, u: UserId)
    requires c in s.calls && s.calls[c].Signed? && s.calls[c].prior in s.rows
    ensures |UserRows(DoRefreshDelete(s, c), u)|
            == |UserRows(s, u)| - (if s.rows[s.calls[c].prior].userId == u then 1 else 0)
  {
    var prior := s.calls[c].prior;
    if s.rows[prior].userId == u {
      assert UserRows(DoRefreshDelete(s, c), u) == UserRows(s, u) - {prior};
    } else {
      assert UserRows(DoRefreshDelete(s, c), u) == UserRows(s, u);
    }
  }

  lemma DeletePending(s: State, c: CallId, u: UserId)
    requires c in s.calls && s.calls[c].Signed? && s.calls[c].prior in s.rows
    ensures |Pending(DoRefreshDelete(s, c), u)| == |Pending(s, u)| + (if s.calls[c].uid == u then 1 else 0)
  {
    if s.calls[c].uid == u {
      assert Pending(DoRefreshDelete(s, c), u) == Pending(s, u) + {c};
    } else {
      assert Pending(DoRefreshDelete(s, c), u) == Pending(s, u);
    }
  }

  /** A rotation's delete trades a row for a pending call of the same user. */
  lemma DeleteConserves(s: State, c: CallId, u: UserId)
    requires Inv(s)
    ensures Sessions(DoRefreshDelete(s, c), u) <= Sessions(s, u)
  {
    if c in s.calls && s.calls[c].Signed? && s.calls[c].prior in s.rows {
      assert CallOk(s, s.calls[c]) && RowOk(s, s.calls[c].prior);
      DeleteRows(s, c, u);
      DeletePending(s, c, u);
    } else {
      SessionsShrink(s, DoRefreshDelete(s, c), u);
    }
  }

  lemma InsertLog(s: State, c: CallId, u: UserId)
    requires c in s.calls && s.calls[c].Stamped?
    requires s.calls[c].next !in s.rows && s.calls[c].uid in s.users
    ensures DoInsert(s, c).log[LoginInserted(u)]
            == s.log[LoginInserted(u)] + (if s.calls[c].origin.ByLogin? && s.calls[c].uid == u then 1 else 0)
  {
  }

  /** An insert trades a pending call for a row, or is a login's. */
  lemma InsertConserves(s: State, c: CallId, u: UserId)
    ensures Sessions(DoInsert(s, c), u) + s.log[LoginInserted(u)]
            <= Sessions(s, u) + DoInsert(s, c).log[LoginInserted(u)]
  {
    var s' := DoInsert(s, c);
    if c in s.calls && s.calls[c].Stamped? && s.calls[c].next !in s.rows && s.calls[c].uid in s.users {
      InsertLog(s, c, u);
      InsertRows(s, c, u);
      InsertPending(s, c, u);
    } else {
      SessionsShrink(s, s', u);
    }
  }

  lemma InsertRows(s: State, c: CallId, u: UserId)
    requires c in s.calls && s.calls[c].Stamped?
    requires s.calls[c].next !in s.rows && s.calls[c].uid in s.users
    ensures |UserRows(DoInsert(s, c), u)| == |UserRows(s, u)| + (if s.calls[c].uid == u then 1 else 0)
  {
    var p := s.calls[c];
    if p.uid == u {
      assert UserRows(DoInsert(s, c), u) == UserRows(s, u) + {p.next};
    } else {
      assert UserRows(DoInsert(s, c), u) == UserRows(s, u);
    }
  }

  lemma InsertPending(s: State, c: CallId, u: UserId)
    requires c in s.calls && s.calls[c].Stamped?
    requires s.calls[c].next !in s.rows && s.calls[c].uid in s.users
    ensures |Pending(DoInsert(s, c), u)|
            == |Pending(s, u)| - (if s.calls[c].origin.ByRefresh? && s.calls[c].uid == u then 1 else 0)
  {
    var p := s.calls[c];
    if IsPending(p, u) {
      assert Pending(DoInsert(s, c), u) == Pending(s, u) - {c};
    } else {
      assert Pending(DoInsert(s, c), u) == Pending(s, u);
    }
  }

  lemma OthersOnlyDropRows(s: State, e: Event, t: Token)
    requires !e.Insert? && t in Step(s, e).rows
    ensures t in s.rows && Step(s, e).rows[t] == s.rows[t]
  {
  }

  predicate PendingIs(s: State, c: CallId, u: UserId) {
    c in s.calls && IsPending(s.calls[c], u)
  }

  lemma OnlyDeleteMakesPending(s: State, e: Event, u: UserId)
    requires Actor(e).Some? && !e.RefreshDelete? && PendingIs(Step(s, e), Actor(e).value, u)
    ensures PendingIs(s, Actor(e).value, u)
  {
  }

  lemma OtherStepsConserve(s: State, e: Event, u: UserId)
    requires !e.RefreshDelete? && !e.Insert?
    ensures Sessions(Step(s, e), u) <= Sessions(s, u)
    ensures s.log == Step(s, e).log
  {
    var s' := Step(s, e);
    forall t | t in s'.rows ensures t in s.rows && s'.rows[t] == s.rows[t] { OthersOnlyDropRows(s, e, t); }
    forall c: CallId | PendingIs(s', c, u) ensures PendingIs(s, c, u) {
      if Actor(e) == Some(c) { OnlyDeleteMakesPending(s, e, u); } else { StepMovesOnlyItsActor(s, e, c); }
    }
    SessionsShrink(s, s', u);
    OthersOnlyReadTheLog(s, e);
  }

  lemma StepConserves(s: State, e: Event, u: UserId)
    requires Inv(s)
    ensures Sessions(Step(s, e), u) + s.log[LoginInserted(u)] <= Sessions(s, u) + Step(s, e).log[LoginInserted(u)]
  {
    if e.RefreshDelete? {
      DeleteConserves(s, e.c, u);
      assert Step(s, e).log[LoginInserted(u)] == s.log[LoginInserted(u)];
    } else if e.Insert? {
      InsertConserves(s, e.c, u);
    } else {
      OtherStepsConserve(s, e, u);
    }
  }

  /** From any state on, a user's sessions grow by no more than that user's login
      inserts: no interleaving of rotations creates one. */
  lemma {:induction false} SessionsGrowOnlyByLogin(s: State, es: seq<Event>, u: UserId)
    requires Inv(s)
    ensures Sessions(Exec(s, es), u) + s.log[LoginInserted(u)] <= Sessions(s, u) + Exec(s, es).log[LoginInserted(u)]
  {
    if es != [] {
      SessionsGrowOnlyByLogin(s, es[..|es| - 1], u);
      ExecKeepsInv(s, es[..|es| - 1]);
      StepConserves(Exec(s, es[..|es| - 1]), es[|es| - 1], u);
    }
  }

  /** The event completes the insert of a login of `u`. */
  predicate LogsIn(s: State, e: Event, u: UserId) {
    && e.Insert? && e.c in s.calls && s.calls[e.c].Stamped? && s.calls[e.c].origin.ByLogin? && s.calls[e.c].uid == u
    && s.calls[e.c].next !in s.rows && u in s.users
  }

  /** The login inserts of `u` completed in a run. */
  function LoginInserts(s: State, es: seq<Event>, u: UserId): nat {
    if es == [] then 0
    else
      var init, e := es[..|es| - 1], es[|es| - 1];
      LoginInserts(s, init, u) + if LogsIn(Exec(s, init), e, u) then 1 else 0
  }

  lemma StepLogsLogins(s: State, e: Event, u: UserId)
    ensures Step(s, e).log[LoginInserted(u)] == s.log[LoginInserted(u)] + (if LogsIn(s, e, u) then 1 else 0)
  {
    if e.RefreshDelete? {
      assert Step(s, e) == DoRefreshDelete(s, e.c);
    } else if e.Insert? {
      assert Step(s, e) == DoInsert(s, e.c);
    } else {
      OthersOnlyReadTheLog(s, e);
    }
    hide Step;
  }

  lemma {:induction false} LogCountsLogins(s: State, es: seq<Event>, u: UserId)
    ensures Exec(s, es).log[LoginInserted(u)] == s.log[LoginInserted(u)] + LoginInserts(s, es, u)
  {
    hide Step, LogsIn;
    if es != [] {
      LogCountsLogins(s, es[..|es| - 1], u);
      StepLogsLogins(Exec(s, es[..|es| - 1]), es[|es| - 1], u);
    }
  }

  /** Session conservation in every reachable state: a user's stored rows plus
      pending rotations never exceed that user's completed login inserts. */
  lemma {:induction false} SessionConservation(s: State, es: seq<Event>, u: UserId)
    requires Initial(s)
    ensures |UserRows(Exec(s, es), u)| + |Pending(Exec(s, es), u)| <= LoginInserts(s, es, u)
  {
    SessionsGrowOnlyByLogin(s, es, u);
    LogCountsLogins(s, es, u);
    assert UserRows(s, u) == {} && Pending(s, u) == {};
  }

  // ---- logout-all ----

  /** The call holds `prior` and has not yet deleted its row. */
  predicate BeforeDelete(p: Phase, prior: Token) {
    (p.Begun? || p.Found? || p.Signed?) && p.prior == prior
  }

  lemma CutOffStep(s: State, e: Event, c: CallId, prior: Token)
    requires c in s.calls && prior !in s.rows && !Enters(s, e, prior)
    requires BeforeDelete(s.calls[c], prior) || s.calls[c] == Failed(None)
    ensures c in Step(s, e).calls
    ensures BeforeDelete(Step(s, e).calls[c], prior) || Step(s, e).calls[c] == Failed(None)
  {
    if Actor(e) != Some(c) {
      StepMovesOnlyItsActor(s, e, c);
    } else {
      StepFollows(s, e);
      assert e.RefreshDelete? ==> Step(s, e) == DoRefreshDelete(s, c);
      hide Step;
    }
  }

  /** Once a row is gone and until its token is inserted again, no refresh that
      had not yet deleted it gets past the delete. */
  lemma {:induction false} GoneStaysGone(s: State, es: seq<Event>, c: CallId, prior: Token)
    requires c in s.calls && prior !in s.rows && Insertions(s, es, prior) == 0
    requires BeforeDelete(s.calls[c], prior) || s.calls[c] == Failed(None)
    ensures var s' := Exec(s, es);
            c in s'.calls && prior !in s'.rows && (BeforeDelete(s'.calls[c], prior) || s'.calls[c] == Failed(None))
  {
    hide Step, BeforeDelete;
    if es != [] {
      GoneStaysGone(s, es[..|es| - 1], c, prior);
      EntersIff(Exec(s, es[..|es| - 1]), es[|es| - 1], prior);
      CutOffStep(Exec(s, es[..|es| - 1]), es[|es| - 1], c, prior);
    }
  }

  /** Logout-all cuts off pending rotations: a refresh of `u` that had not yet
      deleted its row when the logout committed never succeeds afterwards, as
      long as its token is not inserted again. */
  lemma {:induction false} LogoutAllCutsOff(s: State, es: seq<Event>, u: UserId, c: CallId, prior: Token)
    requires Inv(s) && c in s.calls && BeforeDelete(s.calls[c], prior) && prior.sub == u
    requires Insertions(DoLogout(s, u, None), es, prior) == 0
    ensures
      var s' := Exec(DoLogout(s, u, None), es);
      c in s'.calls && (BeforeDelete(s'.calls[c], prior) || s'.calls[c] == Failed(None))
  {
    if prior in s.rows { assert RowOk(s, prior); }
    GoneStaysGone(DoLogout(s, u, None), es, c, prior);
  }

  /** After logout-all every session of `u` comes from a rotation already past
      its delete, or from a later login. */
  lemma {:induction false} LogoutAllLeavesOnlyPending(s: State, es: seq<Event>, u: UserId)
    requires Inv(s)
    ensures
      var out := DoLogout(s, u, None);
      && UserRows(out, u) == {}
      && |UserRows(Exec(out, es), u)| <= |Pending(s, u)| + LoginInserts(out, es, u)
  {
    var out := DoLogout(s, u, None);
    assert out == Step(s, Logout(u, None));
    StepKeepsInv(s, Logout(u, None));
    assert UserRows(out, u) == {};
    assert Pending(out, u) == Pending(s, u);
    SessionsGrowOnlyByLogin(out, es, u);
    LogCountsLogins(out, es, u);
  }

  // ---- exactly when logout-all is final ----

  /** A rotation of `u` past its delete that can still store a row: it has stamped
      one already, or the configured lifetime parses. */
  predicate CanStore(s: State, c: CallId, u: UserId) {
    PendingIs(s, c, u) && (s.calls[c].Stamped? || RowLifetime(s.cfg).Some?)
  }

  ghost predicate Barren(s: State, u: UserId) {
    && (forall t | t in s.rows :: s.rows[t].userId != u)
    && (forall c: CallId :: !CanStore(s, c, u))
  }

  lemma InsertKeepsBarren(s: State, c: CallId, u: UserId)
    requires Barren(s, u) && !LogsIn(s, Insert(c), u)
    ensures Barren(DoInsert(s, c), u)
  {
    assert Step(s, Insert(c)) == DoInsert(s, c);
    hide RowLifetime, Step;
    assert !CanStore(s, c, u);
    forall d: CallId ensures !CanStore(DoInsert(s, c), d, u) { assert !CanStore(s, d, u); }
  }

  lemma DeleteKeepsBarren(s: State, c: CallId, u: UserId)
    requires Inv(s) && Barren(s, u)
    ensures Barren(DoRefreshDelete(s, c), u)
  {
    hide RowLifetime, JwtLifetime;
    if c in s.calls && s.calls[c].Signed? && s.calls[c].prior in s.rows {
      assert CallOk(s, s.calls[c]) && RowOk(s, s.calls[c].prior);
    }
    forall d: CallId ensures !CanStore(DoRefreshDelete(s, c), d, u) { assert !CanStore(s, d, u); }
  }

  lemma StampKeepsBarren(s: State, c: CallId, u: UserId)
    requires Barren(s, u)
    ensures Barren(DoStamp(s, c), u)
  {
    forall d: CallId ensures !CanStore(DoStamp(s, c), d, u) { assert !CanStore(s, d, u); }
  }

  lemma OthersKeepBarren(s: State, e: Event, u: UserId)
    requires Barren(s, u) && !e.Insert? && !e.RefreshDelete? && !e.Stamp?
    ensures Barren(Step(s, e), u)
  {
    forall t | t in Step(s, e).rows ensures Step(s, e).rows[t].userId != u { OthersOnlyDropRows(s, e, t); }
    forall c: CallId ensures !CanStore(Step(s, e), c, u) {
      assert !CanStore(s, c, u);
      if Actor(e) == Some(c) { OthersKeepPhase(s, e, c, u); } else { StepMovesOnlyItsActor(s, e, c); ConfigStays(s, e); }
    }
  }

  lemma OthersKeepPhase(s: State, e: Event, c: CallId, u: UserId)
    requires Actor(e) == Some(c) && !e.Insert? && !e.RefreshDelete? && !e.Stamp?
    ensures !PendingIs(Step(s, e), c, u) || CallSame(s, Step(s, e), c)
    ensures Step(s, e).cfg == s.cfg
  {
    hide RowLifetime, JwtLifetime, SignFor, JwtInDate;
  }

  lemma ConfigStays(s: State, e: Event)
    ensures Step(s, e).cfg == s.cfg
  {
    hide RowLifetime, JwtLifetime, SignFor, JwtInDate;
  }

  lemma {:induction false} ExecKeepsBarren(s: State, es: seq<Event>, u: UserId)
    requires Inv(s) && Barren(s, u) && LoginInserts(s, es, u) == 0
    ensures Barren(Exec(s, es), u)
  {
    if es != [] {
      hide Step, Inv, Barren;
      var a, e := Exec(s, es[..|es| - 1]), es[|es| - 1];
      ExecKeepsBarren(s, es[..|es| - 1], u);
      ExecKeepsInv(s, es[..|es| - 1]);
      match e {
        case Insert(c) => InsertKeepsBarren(a, c, u); SaveIsStep(a, c);
        case RefreshDelete(c) => DeleteKeepsBarren(a, c, u); SaveIsStep(a, c);
        case Stamp(c) => StampKeepsBarren(a, c, u); SaveIsStep(a, c);
        case _ => OthersKeepBarren(a, e, u);
      }
    }
  }

  lemma SaveIsStep(s: State, c: CallId)
    ensures Step(s, Stamp(c)) == DoStamp(s, c) && Step(s, Insert(c)) == DoInsert(s, c)
    ensures Step(s, RefreshDelete(c)) == DoRefreshDelete(s, c)
  {
  }

  /** A rotation that can still store does so once its user is there, whatever
      logout-all has removed. */
  lemma {:induction false} LogoutAllMissesRotationPastDelete(s: State, c: CallId, u: UserId, user: User)
    requires Inv(s) && CanStore(s, c, u)
    ensures
      var out, es := DoLogout(s, u, None), [PutUser(u, user), Stamp(c), Insert(c)];
      s.calls[c].next in UserRows(Exec(out, es), u) && LoginInserts(out, es, u) == 0
  {
    var out, es := DoLogout(s, u, None), [PutUser(u, user), Stamp(c), Insert(c)];
    var s1 := out.(users := out.users[u := user]);
    SaveStores(s, c, u, user);
    SaveIsStep(s1, c);
    SaveIsStep(DoStamp(s1, c), c);
    assert Step(out, PutUser(u, user)) == s1;
    hide Step, DoLogout, DoStamp, DoInsert, UserRows, Run;
    RunThree(Step, out, PutUser(u, user), Stamp(c), Insert(c));
    RunTwo(Step, out, PutUser(u, user), Stamp(c));
    assert es[..2] == [PutUser(u, user), Stamp(c)];
    assert LoginInserts(out, es[..2][..1], u) == 0;
    assert LoginInserts(out, es[..2], u) == 0;
  }

  lemma NextIsFree(s: State, c: CallId, u: UserId)
    requires Inv(s) && PendingIs(s, c, u)
    ensures s.calls[c].next !in DoLogout(s, u, None).rows
  {
    assert CallOk(s, s.calls[c]);
    if s.calls[c].next in s.rows { assert RowOk(s, s.calls[c].next); }
  }

  lemma SaveStores(s: State, c: CallId, u: UserId, user: User)
    requires Inv(s) && CanStore(s, c, u)
    ensures
      var out := DoLogout(s, u, None);
      var s1 := DoStamp(out.(users := out.users[u := user]), c);
      s.calls[c].next in UserRows(DoInsert(s1, c), u) && c in s1.calls && s1.calls[c].Stamped? && s1.calls[c].origin.ByRefresh?
  {
    NextIsFree(s, c, u);
    LogoutIsStep(s, u);
    hide DoLogout, Inv, JwtLifetime;
  }

  lemma LogoutIsStep(s: State, u: UserId)
    ensures Step(s, Logout(u, None)) == DoLogout(s, u, None)
    ensures DoLogout(s, u, None).calls == s.calls && DoLogout(s, u, None).cfg == s.cfg
  {
  }

  /** Logout-all is final, so that no run without a login of `u` gives `u` a session
      again, exactly when no rotation of `u` past its delete can still store. */
  lemma {:induction false} LogoutAllFinalIff(s: State, u: UserId)
    requires Inv(s)
    ensures
      var out := DoLogout(s, u, None);
      (forall es | LoginInserts(out, es, u) == 0 :: UserRows(Exec(out, es), u) == {}) <==> forall c: CallId :: !CanStore(s, c, u)
  {
    var out := DoLogout(s, u, None);
    if c: CallId :| CanStore(s, c, u) {
      var user := User("", "", true);
      LogoutAllMissesRotationPastDelete(s, c, u, user);
      assert UserRows(Exec(out, [PutUser(u, user), Stamp(c), Insert(c)]), u) != {};
    } else {
      StepKeepsInv(s, Logout(u, None));
      assert Step(s, Logout(u, None)) == out;
      forall c: CallId ensures !CanStore(out, c, u) { assert !CanStore(s, c, u); }
      forall es | LoginInserts(out, es, u) == 0 ensures UserRows(Exec(out, es), u) == {} { ExecKeepsBarren(out, es, u); }
    }
  }

  // ---- what a successful refresh had to pass ----

  ghost predicate VerifiedAt(s: State, es: seq<Event>, c: CallId, t: Token, i: nat) {
    && i < |es| && es[i] == RefreshBegin(c, t)
    && t in Exec(s, es[..i]).signed && JwtInDate(t.exp, Exec(s, es[..i]).clock)
  }

  ghost predicate LookedUpAt(s: State, es: seq<Event>, c: CallId, t: Token, stored: Stored, i: nat) {
    && i < |es| && es[i] == RefreshFind(c)
    && var a := Exec(s, es[..i]);
    && t in a.rows && a.rows[t] == stored.row
    && stored.row.userId in a.users && a.users[stored.row.userId] == stored.user
  }

  ghost predicate ClearedAt(s: State, es: seq<Event>, c: CallId, t: Token, stored: Stored, j: nat) {
    && j < |es| && es[j] == RefreshCheck(c)
    && stored.user.active && Exec(s, es[..j]).clock <= stored.row.expiresAt
  }

  /** The call's begin, lookup and check all happened, and all passed. */
  ghost predicate Authorized(s: State, es: seq<Event>, c: CallId, t: Token) {
    exists i: nat, j: nat, k: nat, stored: Stored ::
      VerifiedAt(s, es, c, t, i) && LookedUpAt(s, es, c, t, stored, j) && ClearedAt(s, es, c, t, stored, k) && i < j < k
  }

  ghost predicate Explained(s: State, es: seq<Event>, c: CallId, p: Phase) {
    match p
    case Begun(prior) => exists i: nat :: VerifiedAt(s, es, c, prior, i)
    case Found(prior, Some(stored)) =>
      exists i: nat, j: nat :: VerifiedAt(s, es, c, prior, i) && LookedUpAt(s, es, c, prior, stored, j) && i < j < |es|
    case Signed(prior, _, _) => Authorized(s, es, c, prior)
    case _ => SpentOf(p).Some? ==> Authorized(s, es, c, SpentOf(p).value)
  }

  /** What was true of a run's events stays true as the run goes on. */
  lemma EventsLater(s: State, es: seq<Event>, e: Event, c: CallId, t: Token)
    ensures forall i: nat | VerifiedAt(s, es, c, t, i) :: VerifiedAt(s, es + [e], c, t, i)
    ensures forall i: nat, st: Stored | LookedUpAt(s, es, c, t, st, i) :: LookedUpAt(s, es + [e], c, t, st, i)
    ensures forall i: nat, st: Stored | ClearedAt(s, es, c, t, st, i) :: ClearedAt(s, es + [e], c, t, st, i)
  {
    assert forall i: nat | i < |es| :: (es + [e])[..i] == es[..i];
  }

  lemma AuthorizedLater(s: State, es: seq<Event>, e: Event, c: CallId, t: Token)
    requires Authorized(s, es, c, t)
    ensures Authorized(s, es + [e], c, t)
  {
    EventsLater(s, es, e, c, t);
    hide VerifiedAt, LookedUpAt, ClearedAt;
  }

  lemma ExplainedLater(s: State, es: seq<Event>, e: Event, c: CallId, p: Phase)
    requires Explained(s, es, c, p)
    ensures Explained(s, es + [e], c, p)
  {
    hide Authorized, VerifiedAt, LookedUpAt;
    match p {
      case Begun(prior) => EventsLater(s, es, e, c, prior);
      case Found(prior, _) => EventsLater(s, es, e, c, prior);
      case Signed(prior, _, _) => AuthorizedLater(s, es, e, c, prior);
      case _ => if t: Token :| SpentOf(p) == Some(t) { AuthorizedLater(s, es, e, c, t); }
    }
  }

  lemma ExplainFind(s: State, es: seq<Event>, c: CallId)
    requires c in Exec(s, es).calls && Exec(s, es).calls[c].Begun?
    requires Explained(s, es, c, Exec(s, es).calls[c])
    ensures Explained(s, es + [RefreshFind(c)], c, DoRefreshFind(Exec(s, es), c).calls[c])
  {
    var es', prior := es + [RefreshFind(c)], Exec(s, es).calls[c].prior;
    var p' := DoRefreshFind(Exec(s, es), c).calls[c];
    assert es'[..|es|] == es;
    EventsLater(s, es, RefreshFind(c), c, prior);
    assert p'.stored.Some? ==> LookedUpAt(s, es', c, prior, p'.stored.value, |es|);
    hide VerifiedAt, LookedUpAt, Run;
  }

  lemma CheckPasses(s: State, c: CallId)
    requires c in s.calls && s.calls[c].Found?
    ensures var p, p' := s.calls[c], DoRefreshCheck(s, c).calls[c];
            && (p' == Failed(None) || p'.Signed?)
            && (p'.Signed? ==> p'.prior == p.prior && p.stored.Some? && p.stored.value.user.active
                               && s.clock <= p.stored.value.row.expiresAt)
  {
  }

  lemma CheckAuthorizes(s: State, es: seq<Event>, c: CallId, t: Token, stored: Stored)
    requires Explained(s, es, c, Found(t, Some(stored)))
    requires stored.user.active && Exec(s, es).clock <= stored.row.expiresAt
    ensures Authorized(s, es + [RefreshCheck(c)], c, t)
  {
    EventsLater(s, es, RefreshCheck(c), c, t);
    assert (es + [RefreshCheck(c)])[..|es|] == es;
    assert ClearedAt(s, es + [RefreshCheck(c)], c, t, stored, |es|);
    hide VerifiedAt, LookedUpAt, ClearedAt;
    var i: nat, j: nat :| VerifiedAt(s, es, c, t, i) && LookedUpAt(s, es, c, t, stored, j) && i < j && j < |es|;
  }

  lemma ExplainCheck(s: State, es: seq<Event>, c: CallId)
    requires c in Exec(s, es).calls && Exec(s, es).calls[c].Found?
    requires Explained(s, es, c, Exec(s, es).calls[c])
    ensures Explained(s, es + [RefreshCheck(c)], c, DoRefreshCheck(Exec(s, es), c).calls[c])
  {
    hide Run, Authorized;
    CheckPasses(Exec(s, es), c);
    var p := Exec(s, es).calls[c];
    hide DoRefreshCheck;
    if DoRefreshCheck(Exec(s, es), c).calls[c].Signed? { CheckAuthorizes(s, es, c, p.prior, p.stored.value); }
  }

  lemma FollowExplains(s: State, es: seq<Event>, c: CallId, p: Phase, p': Phase)
    requires Explained(s, es, c, p) && Follows(p, p') && !p.Begun? && !p.Found?
    ensures Explained(s, es, c, p')
  {
  }

  lemma ExplainOwnStep(s: State, es: seq<Event>, e: Event, c: CallId)
    requires Actor(e) == Some(c) && c in Exec(s, es).calls
    requires Explained(s, es, c, Exec(s, es).calls[c])
    ensures c in Step(Exec(s, es), e).calls
    ensures Explained(s, es + [e], c, Step(Exec(s, es), e).calls[c])
  {
    var a := Exec(s, es);
    var p := a.calls[c];
    StepFollows(a, e);
    ExplainedLater(s, es, e, c, p);
    var p' := Step(a, e).calls[c];
    if p' == p {
    } else if p.Begun? {
      ExplainFind(s, es, c);
    } else if p.Found? {
      ExplainCheck(s, es, c);
    } else {
      FollowExplains(s, es + [e], c, p, p');
    }
  }

  lemma ExplainStep(s: State, es: seq<Event>, e: Event, c: CallId)
    requires c in Exec(s, es).calls ==> Explained(s, es, c, Exec(s, es).calls[c])
    requires c in Step(Exec(s, es), e).calls
    ensures Explained(s, es + [e], c, Step(Exec(s, es), e).calls[c])
  {
    var a := Exec(s, es);
    if Actor(e) != Some(c) {
      StepMovesOnlyItsActor(a, e, c);
      ExplainedLater(s, es, e, c, a.calls[c]);
    } else if c in a.calls {
      ExplainOwnStep(s, es, e, c);
    } else {
      StepStarts(a, e);
      var p', es' := Step(a, e).calls[c], es + [e];
      assert es'[..|es|] == es;
      if p'.Begun? { assert VerifiedAt(s, es', c, p'.prior, |es|); }
    }
  }

  lemma {:induction false} ExecExplains(s: State, es: seq<Event>, c: CallId)
    requires Initial(s) && c in Exec(s, es).calls
    ensures Explained(s, es, c, Exec(s, es).calls[c])
  {
    if es != [] {
      var init := es[..|es| - 1];
      assert init + [es[|es| - 1]] == es;
      if c in Exec(s, init).calls { ExecExplains(s, init, c); }
      ExplainStep(s, init, es[|es| - 1], c);
    }
  }

  /** Every refresh that deletes the row of `t` had `t` verified in date, then
      found its row and its user, then saw the row unexpired and the user
      active, in that order, in the same run. */
  lemma {:induction false} RotationWasAuthorized(s: State, es: seq<Event>, c: CallId, t: Token)
    requires Initial(s) && c in Winners(Exec(s, es), t)
    ensures Authorized(s, es, c, t)
  {
    ExecExplains(s, es, c);
  }
}
