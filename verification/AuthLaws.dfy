/**
 What one undisturbed call does, in plain terms: which token it issues, which row
 it stores and until when, and when it refuses. Nothing here is stated through the
 machine's own helpers.
 */
module AuthLaws {
  import opened Runs
  import opened Wrappers
  import opened Duration
  import opened AuthModel
  import opened AuthService

  predicate IsUnit(letter: char) { letter == 'd' || letter == 'h' || letter == 'm' || letter == 's' }

  function Milliseconds(n: nat, letter: char): nat {
    if letter == 'd' then 86_400_000 * n
    else if letter == 'h' then 3_600_000 * n
    else if letter == 'm' then 60_000 * n
    else 1_000 * n
  }

  /** The configured lifetime is the number followed by the letter. */
  predicate Configured(cfg: Config, n: nat, letter: char) {
    IsUnit(letter) && cfg.expiresIn == Text(PrintNat(n) + [letter])
  }

  lemma LifetimesAgree(cfg: Config, n: nat, letter: char)
    requires Configured(cfg, n, letter)
    ensures RowLifetime(cfg).Some? && 1000 * RowLifetime(cfg).value.InSeconds() == Milliseconds(n, letter)
    ensures JwtLifetime(cfg) == Some(Milliseconds(n, letter) / 1000)
  {
    UnitsAreExact(n);
    assert [letter] == "d" || [letter] == "h" || [letter] == "m" || [letter] == "s";
  }

  /** A refresh token of the user, signed at this instant. */
  function TokenAt(uid: UserId, user: User, now: nat, ms: nat): Token {
    Token(uid, user.email, user.role, now / 1000, now / 1000 + ms / 1000)
  }

  /** The stamp of a call about to save: the lifetime from now. */
  lemma {:induction false} StampLaw(s: State, c: CallId, n: nat, letter: char)
    requires Configured(s.cfg, n, letter) && c in s.calls && s.calls[c].Saving?
    ensures var p := Step(s, Stamp(c)).calls[c];
            p.Stamped? && p.expiresAt == s.clock + Milliseconds(n, letter)
            && p.origin == s.calls[c].origin && p.uid == s.calls[c].uid && p.next == s.calls[c].next
  {
    LifetimesAgree(s.cfg, n, letter);
    assert Step(s, Stamp(c)) == DoStamp(s, c);
    hide Step;
  }

  /** An undisturbed login succeeds exactly when the account exists and is active,
      the password matches, no session has the very same token, and the phone
      decrypts; and it stores one row, for the token it returns, that lasts the
      configured lifetime from the moment it is saved. */
  lemma {:induction false} LoginLaw(s: State, c: CallId, uid: UserId, matches: bool, toSign: nat, toStamp: nat, decrypts: bool,
                                    n: nat, letter: char)
    requires c !in s.calls && Configured(s.cfg, n, letter)
    ensures
      var s', ms := Exec(s, LoginScript(c, uid, matches, toSign, toStamp, decrypts)), Milliseconds(n, letter);
      && c in s'.calls
      && if !(uid in s.users && s.users[uid].active && matches) then s'.rows == s.rows && s'.calls[c].Failed?
         else
           var next := TokenAt(uid, s.users[uid], s.clock + toSign, ms);
           if next in s.rows then s'.rows == s.rows && s'.calls[c].Failed?
           else
             && s'.rows == s.rows[next := Row(uid, s.clock + toSign + toStamp + ms)]
             && (decrypts ==> s'.calls[c] == Done(ByLogin, next))
             && (!decrypts ==> s'.calls[c].Failed?)
  {
    LoginAlone(s, c, uid, matches, toSign, toStamp, decrypts);
    LifetimesAgree(s.cfg, n, letter);
    hide Run, Step, LoginScript, RowLifetime, JwtLifetime;
  }

  /** An undisturbed refresh of `t` gets past its delete exactly when `t` was signed
      here and is in date, its row is unexpired, and its user exists and is active.
      It then stores the new token for the same user with a full lifetime, unless
      another session has that very token, and returns it if the phone decrypts. */
  lemma {:induction false} RefreshLaw(s: State, c: CallId, t: Token, toCheck: nat, toStamp: nat, decrypts: bool,
                                      n: nat, letter: char)
    requires c !in s.calls && Configured(s.cfg, n, letter)
    ensures
      var s', ms := Exec(s, RefreshScript(c, t, toCheck, toStamp, decrypts)), Milliseconds(n, letter);
      && c in s'.calls
      && if !(t in s.signed && s.clock < 1000 * t.exp
              && t in s.rows && s.clock + toCheck <= s.rows[t].expiresAt
              && s.rows[t].userId in s.users && s.users[s.rows[t].userId].active)
         then s'.rows == s.rows && s'.calls[c] == Failed(None)
         else
           var uid, saved := s.rows[t].userId, s.clock + toCheck + toStamp;
           var next := TokenAt(uid, s.users[uid], s.clock + toCheck, ms);
           if next in s.rows && next != t then s'.rows == s.rows - {t} && s'.calls[c].Failed?
           else
             && s'.rows == (s.rows - {t})[next := Row(uid, saved + ms)]
             && (decrypts ==> s'.calls[c] == Done(ByRefresh(t), next))
             && (!decrypts ==> s'.calls[c].Failed?)
  {
    RefreshAlone(s, c, t, toCheck, toStamp, decrypts);
    LifetimesAgree(s.cfg, n, letter);
    InDateIff(t.exp, s.clock);
    hide Run, Step, RefreshScript, RowLifetime, JwtLifetime, JwtInDate;
  }

  /** A lifetime outside the grammar: no login stores anything, and a refresh past
      its guards only deletes. */
  lemma {:induction false} UnparsedLifetimeStoresNothing(s: State, c: CallId, uid: UserId, t: Token, matches: bool,
                                                         toCheck: nat, toStamp: nat, decrypts: bool)
    requires c !in s.calls
    requires !exists digits: string, u: Unit :: digits != [] && AllDigits(digits) && s.cfg.expiresIn == Text(digits + [u.Letter()])
    ensures
      var a, b := Exec(s, LoginScript(c, uid, matches, toCheck, toStamp, decrypts)), Exec(s, RefreshScript(c, t, toCheck, toStamp, decrypts));
      && a.rows == s.rows && c in a.calls && a.calls[c].Failed?
      && (b.rows == s.rows || b.rows == s.rows - {t}) && c in b.calls && b.calls[c].Failed?
  {
    if s.cfg.expiresIn.Text? {
      ParseAcceptsExactly(s.cfg.expiresIn.text);
    }
    assert RowLifetime(s.cfg).None?;
    LoginAlone(s, c, uid, matches, toCheck, toStamp, decrypts);
    RefreshAlone(s, c, t, toCheck, toStamp, decrypts);
    hide Run, Step, LoginScript, RefreshScript, RowLifetime, JwtLifetime, JwtInDate;
  }

  /** A numeric setting is seconds for the token, and no lifetime for the row. */
  lemma NumberIsSeconds(cfg: Config, n: nat)
    requires cfg.expiresIn == Number(n)
    ensures JwtLifetime(cfg) == Some(n) && RowLifetime(cfg).None?
  {
  }

  /** What the bulk deletes leave: the rows of other users, the rows not logged out,
      the rows not expired, each as it was; and only a user's deletion touches the
      users. */
  lemma {:induction false} BulkLaws(s: State, uid: UserId, only: Option<Token>, t: Token)
    ensures var out := Step(s, Logout(uid, only));
            && (t in out.rows <==> t in s.rows && (s.rows[t].userId != uid || (only.Some? && only.value != t)))
            && (t in out.rows ==> out.rows[t] == s.rows[t]) && out.users == s.users && out.calls == s.calls
    ensures var out := Step(s, Cleanup);
            && (t in out.rows <==> t in s.rows && s.clock <= s.rows[t].expiresAt)
            && (t in out.rows ==> out.rows[t] == s.rows[t]) && out.users == s.users && out.calls == s.calls
    ensures var out := Step(s, AuthModel.DeleteUser(uid));
            && (t in out.rows <==> t in s.rows && s.rows[t].userId != uid)
            && (t in out.rows ==> out.rows[t] == s.rows[t]) && out.users == s.users - {uid} && out.calls == s.calls
  {
    assert Step(s, Logout(uid, only)) == DoLogout(s, uid, only);
    assert Step(s, Cleanup) == DoCleanup(s);
    assert Step(s, AuthModel.DeleteUser(uid)) == DoDeleteUser(s, uid);
    hide Step;
  }
}
