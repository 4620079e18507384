/**
 The socket registry and its gauge over every order of connection events. The
 token guard is asynchronous, so an authenticate handler may run after its
 socket's disconnect.
 */
module Websocket {
  import opened Runs
  import opened Wrappers

  type SocketId = nat
  type UserId = string

  /** `registry` is the insertion-ordered map `connectedClients`; `users` is each
      socket's `user` field; `connected` is socket.io's own flag. */
  datatype State = State(
    seen: set<SocketId>,
    connected: set<SocketId>,
    registry: seq<SocketId>,
    users: map<SocketId, UserId>,
    gauge: int
  )

  datatype Event =
    | Connect(c: SocketId)
    | Disconnect(c: SocketId)
    | GuardPasses(c: SocketId, user: UserId)   // any guarded message sets client.user
    | Authenticate(c: SocketId, user: UserId)

  const Start := State({}, {}, [], map[], 0)

  /** The sequence without the members of a set, in order. */
  function Without(s: seq<SocketId>, gone: set<SocketId>): seq<SocketId> {
    if s == [] then []
    else if s[0] in gone then Without(s[1..], gone)
    else [s[0]] + Without(s[1..], gone)
  }

  /** `Map.set`: a new key goes last, a known key keeps its place. */
  function Registered(s: seq<SocketId>, c: SocketId): seq<SocketId> {
    if c in s then s else s + [c]
  }

  function Step(s: State, e: Event): State {
    match e
    case Connect(c) =>
      if c in s.seen then s
      else s.(seen := s.seen + {c}, connected := s.connected + {c}, gauge := s.gauge + 1)
    case Disconnect(c) =>
      if c !in s.connected then s
      else s.(connected := s.connected - {c}, registry := Without(s.registry, {c}), gauge := s.gauge - 1)
    case GuardPasses(c, user) => if c !in s.seen then s else s.(users := s.users[c := user])
    case Authenticate(c, user) =>
      if c !in s.seen then s
      else s.(users := s.users[c := user], registry := Registered(s.registry, c))
  }

  function Exec(es: seq<Event>): State { Run(Step, Start, es) }

  predicate Distinct(s: seq<SocketId>) { forall i, j | 0 <= i < j < |s| :: s[i] != s[j] }

  lemma {:induction false} WithoutIn(s: seq<SocketId>, gone: set<SocketId>, c: SocketId)
    ensures c in Without(s, gone) <==> c in s && c !in gone
  {
    if s != [] { WithoutIn(s[1..], gone, c); }
  }

  lemma {:induction false} WithoutDistinct(s: seq<SocketId>, gone: set<SocketId>)
    requires Distinct(s)
    ensures Distinct(Without(s, gone))
  {
    if s != [] {
      WithoutDistinct(s[1..], gone);
      WithoutIn(s[1..], gone, s[0]);
    }
  }

  lemma {:induction false} WithoutTwice(s: seq<SocketId>, a: set<SocketId>, b: set<SocketId>)
    ensures Without(Without(s, a), b) == Without(s, a + b)
  {
    if s != [] { WithoutTwice(s[1..], a, b); }
  }

  lemma {:induction false} WithoutNone(s: seq<SocketId>, gone: set<SocketId>)
    requires forall c | c in s :: c !in gone
    ensures Without(s, gone) == s
  {
    if s != [] { WithoutNone(s[1..], gone); }
  }

  // ---- what each event does, in plain terms ----

  /** Taking sockets away keeps the others, in their order. */
  lemma {:induction false} WithoutJoin(a: seq<SocketId>, b: seq<SocketId>, gone: set<SocketId>, c: SocketId)
    ensures Without(a + b, gone) == Without(a, gone) + Without(b, gone)
    ensures Without([c], gone) == if c in gone then [] else [c]
  {
    if a == [] {
      assert a + b == b;
    } else {
      assert (a + b)[1..] == a[1..] + b;
      WithoutJoin(a[1..], b, gone, c);
    }
    assert Without([], gone) == [];
  }

  /** A socket opens once; its opening changes only the gauge. */
  lemma {:induction false} ConnectLaw(s: State, c: SocketId)
    ensures c in s.seen ==> Step(s, Connect(c)) == s
    ensures c !in s.seen ==>
              Step(s, Connect(c)) == State(s.seen + {c}, s.connected + {c}, s.registry, s.users, s.gauge + 1)
  {
  }

  /** Closing takes the socket's entry out from between the others; a socket that is
      not connected cannot close. */
  lemma {:induction false} DisconnectLaw(s: State, c: SocketId, a: seq<SocketId>, b: seq<SocketId>)
    requires c !in a && c !in b
    ensures c !in s.connected ==> Step(s, Disconnect(c)) == s
    ensures c in s.connected && s.registry == a + [c] + b ==>
              Step(s, Disconnect(c)) == State(s.seen, s.connected - {c}, a + b, s.users, s.gauge - 1)
    ensures c in s.connected && s.registry == a ==>
              Step(s, Disconnect(c)) == State(s.seen, s.connected - {c}, a, s.users, s.gauge - 1)
  {
    WithoutNone(a, {c});
    WithoutNone(b, {c});
    WithoutJoin(a + [c], b, {c}, c);
    WithoutJoin(a, [c], {c}, c);
  }

  /** Authenticating sets the socket's user, and registers it last unless it is
      registered already; a guarded message only sets the user. */
  lemma {:induction false} AuthenticateLaw(s: State, c: SocketId, user: UserId)
    requires c in s.seen
    ensures Step(s, GuardPasses(c, user)) == State(s.seen, s.connected, s.registry, s.users[c := user], s.gauge)
    ensures c in s.registry ==>
              Step(s, Authenticate(c, user)) == State(s.seen, s.connected, s.registry, s.users[c := user], s.gauge)
    ensures c !in s.registry ==>
              Step(s, Authenticate(c, user)) == State(s.seen, s.connected, s.registry + [c], s.users[c := user], s.gauge)
  {
  }

  // ---- gauge and registry over every run ----

  ghost predicate Inv(s: State) {
    && s.connected <= s.seen
    && (forall c | c in s.registry :: c in s.seen && c in s.users)
    && Distinct(s.registry)
    && s.gauge == |s.connected|
  }

  lemma StepKeepsInv(s: State, e: Event)
    requires Inv(s)
    ensures Inv(Step(s, e))
  {
    if e.Disconnect? {
      WithoutDistinct(s.registry, {e.c});
      forall c | c in Without(s.registry, {e.c}) ensures c in s.registry { WithoutIn(s.registry, {e.c}, c); }
    }
  }

  lemma {:induction false} ExecInv(es: seq<Event>)
    ensures Inv(Exec(es))
  {
    if es != [] {
      ExecInv(es[..|es| - 1]);
      StepKeepsInv(Exec(es[..|es| - 1]), es[|es| - 1]);
    }
  }

  /** Events that opened, and that closed, a socket. */
  function Opens(es: seq<Event>): nat {
    if es == [] then 0
    else
      var s, e := Exec(es[..|es| - 1]), es[|es| - 1];
      Opens(es[..|es| - 1]) + (if e.Connect? && e.c !in s.seen then 1 else 0)
  }

  function Closes(es: seq<Event>): nat {
    if es == [] then 0
    else
      var s, e := Exec(es[..|es| - 1]), es[|es| - 1];
      Closes(es[..|es| - 1]) + (if e.Disconnect? && e.c in s.connected then 1 else 0)
  }

  lemma StepGauges(s: State, e: Event)
    ensures Step(s, e).gauge == s.gauge + (if e.Connect? && e.c !in s.seen then 1 else 0)
                                - (if e.Disconnect? && e.c in s.connected then 1 else 0)
  {
  }

  /** Over all event orders the gauge is opens minus closes, and the number of
      sockets connected. */
  lemma {:induction false} GaugeIsOpensMinusCloses(es: seq<Event>)
    ensures Exec(es).gauge == Opens(es) - Closes(es)
    ensures Exec(es).gauge == |Exec(es).connected|
  {
    ExecInv(es);
    if es != [] {
      GaugeIsOpensMinusCloses(es[..|es| - 1]);
      StepGauges(Exec(es[..|es| - 1]), es[|es| - 1]);
    }
    hide Step;
  }

  /** Event `i` closed the socket. */
  ghost predicate ClosedAt(es: seq<Event>, c: SocketId, i: nat) {
    i < |es| && es[i] == Disconnect(c) && c in Exec(es[..i]).connected
  }

  ghost predicate LateAuthentication(es: seq<Event>, c: SocketId) {
    exists i: nat, j: nat :: i < j < |es| && ClosedAt(es, c, i) && es[j].Authenticate? && es[j].c == c
  }

  ghost predicate WasClosed(es: seq<Event>, c: SocketId) { exists i: nat :: ClosedAt(es, c, i) }

  lemma ClosedStep(s: State, e: Event, c: SocketId)
    requires Inv(s)
    ensures var s' := Step(s, e);
            c in s'.seen && c !in s'.connected <==>
            (c in s.seen && c !in s.connected) || (e == Disconnect(c) && c in s.connected)
  {
  }

  lemma {:induction false} ClosedIff(es: seq<Event>, c: SocketId)
    ensures WasClosed(es, c) <==> c in Exec(es).seen && c !in Exec(es).connected
  {
    if es != [] {
      hide Step, Inv;
      var n := |es| - 1;
      ExecInv(es[..n]);
      ClosedIff(es[..n], c);
      ClosedStep(Exec(es[..n]), es[n], c);
      if ClosedAt(es, c, n) {
        assert WasClosed(es, c);
      } else {
        EarlierIff(es, c);
      }
    }
  }

  lemma EarlierIff(es: seq<Event>, c: SocketId)
    requires es != [] && !ClosedAt(es, c, |es| - 1)
    ensures WasClosed(es, c) <==> WasClosed(es[..|es| - 1], c)
  {
    var init := es[..|es| - 1];
    forall i: nat | i < |init| ensures ClosedAt(init, c, i) <==> ClosedAt(es, c, i) {
      assert init[..i] == es[..i];
    }
    if WasClosed(es, c) {
      var i: nat :| ClosedAt(es, c, i);
      assert ClosedAt(init, c, i);
    }
    if WasClosed(init, c) {
      var i: nat :| ClosedAt(init, c, i);
      assert ClosedAt(es, c, i);
    }
  }

  lemma LateIff(es: seq<Event>, c: SocketId)
    requires es != []
    ensures var init, e := es[..|es| - 1], es[|es| - 1];
            LateAuthentication(es, c) <==>
            LateAuthentication(init, c) || (e.Authenticate? && e.c == c && WasClosed(init, c))
  {
    hide Run, Step;
    var init, n := es[..|es| - 1], |es| - 1;
    forall i: nat | i < n ensures ClosedAt(init, c, i) <==> ClosedAt(es, c, i) { assert init[..i] == es[..i]; }
    if LateAuthentication(es, c) {
      var i: nat, j: nat :| i < j < |es| && ClosedAt(es, c, i) && es[j].Authenticate? && es[j].c == c;
      assert ClosedAt(init, c, i);
      assert j < n ==> init[j] == es[j];
    }
    if LateAuthentication(init, c) {
      var i: nat, j: nat :| i < j < n && ClosedAt(init, c, i) && init[j].Authenticate? && init[j].c == c;
      assert ClosedAt(es, c, i) && es[j] == init[j];
    }
    if es[n].Authenticate? && es[n].c == c && WasClosed(init, c) {
      var i: nat :| ClosedAt(init, c, i);
      assert ClosedAt(es, c, i);
    }
  }

  ghost predicate Stale(s: State, c: SocketId) { c in s.registry && c !in s.connected }

  lemma StaleStep(s: State, e: Event, c: SocketId)
    requires Inv(s)
    ensures Stale(Step(s, e), c) <==>
            Stale(s, c) || (e.Authenticate? && e.c == c && c in s.seen && c !in s.connected)
  {
    if e.Disconnect? { WithoutIn(s.registry, {e.c}, c); }
  }

  /** A closed socket is registered exactly when its authenticate handler ran
      after its disconnect. */
  lemma {:induction false} StaleEntryIff(es: seq<Event>, c: SocketId)
    ensures c in Exec(es).registry && c !in Exec(es).connected <==> LateAuthentication(es, c)
  {
    if es != [] {
      hide Step, LateAuthentication, Inv, WasClosed;
      var init := es[..|es| - 1];
      StaleEntryIff(init, c);
      ClosedIff(init, c);
      ExecInv(init);
      LateIff(es, c);
      StaleStep(Exec(init), es[|es| - 1], c);
    }
  }

  /** What the shutdown loop leaves registered (DisconnectAll) is nothing exactly
      when no socket's authenticate handler ran after its disconnect. */
  lemma {:induction false} ShutdownClearsIff(es: seq<Event>)
    ensures Without(Exec(es).registry, Exec(es).connected) == [] <==> forall c: SocketId :: !LateAuthentication(es, c)
  {
    hide LateAuthentication;
    var s := Exec(es);
    var left := Without(s.registry, s.connected);
    forall c: SocketId ensures c in left <==> LateAuthentication(es, c) {
      WithoutIn(s.registry, s.connected, c);
      StaleEntryIff(es, c);
    }
    if left != [] { assert LateAuthentication(es, left[0]); }
  }

  // ---- the gateway ----

  class WebsocketGateway {
    var connectedClients: seq<SocketId>
    var users: map<SocketId, UserId>
    var gauge: int
    var connected: set<SocketId>
    var seen: set<SocketId>
    var disconnectCalls: seq<SocketId>

    ghost function Abs(): State
      reads this
    {
      State(seen, connected, connectedClients, users, gauge)
    }

    constructor ()
      ensures Abs() == Start && disconnectCalls == []
    {
      connectedClients, users, gauge, connected, seen, disconnectCalls := [], map[], 0, {}, {}, [];
    }

    method HandleConnection(c: SocketId)
      requires c !in seen
      modifies this
      ensures Abs() == Step(old(Abs()), Connect(c)) && disconnectCalls == old(disconnectCalls)
    {
      seen, connected := seen + {c}, connected + {c};
      gauge := gauge + 1;
    }

    /** The handler's own work; the transport has already closed the socket. */
    method HandleDisconnect(c: SocketId) returns (tellsLobby: bool)
      modifies this`connectedClients, this`gauge
      ensures connectedClients == Without(old(connectedClients), {c}) && gauge == old(gauge) - 1
      ensures tellsLobby <==> c in users
    {
      connectedClients := Without(connectedClients, {c});
      gauge := gauge - 1;
      tellsLobby := c in users;
    }

    method HandleAuthenticate(c: SocketId, user: Option<UserId>) returns (ok: bool)
      requires c in seen
      modifies this`users, this`connectedClients
      ensures ok == user.Some?
      ensures Abs() == if ok then Step(old(Abs()), Authenticate(c, user.value)) else old(Abs())
    {
      if user.None? { return false; }
      users := users[c := user.value];
      connectedClients := Registered(connectedClients, c);
      ok := true;
    }

    /** The one client the message goes to: the first registered of that user. */
    method SendToUser(user: UserId) returns (target: Option<SocketId>)
      ensures target.Some? ==>
                exists i :: 0 <= i < |connectedClients| && connectedClients[i] == target.value
                            && target.value in users && users[target.value] == user
                            && forall j | 0 <= j < i :: !(connectedClients[j] in users && users[connectedClients[j]] == user)
      ensures target.None? ==> forall c | c in connectedClients :: !(c in users && users[c] == user)
    {
      for i := 0 to |connectedClients|
        invariant forall j | 0 <= j < i :: !(connectedClients[j] in users && users[connectedClients[j]] == user)
      {
        if connectedClients[i] in users && users[connectedClients[i]] == user {
          return Some(connectedClients[i]);
        }
      }
      target := None;
    }

    /** `client.disconnect(true)`: a socket already closed ignores it and has no
        callback. Otherwise the callback runs now or is left to run later. */
    method DisconnectClient(c: SocketId, now: bool) returns (deferred: bool)
      modifies this
      ensures disconnectCalls == old(disconnectCalls) + [c]
      ensures deferred == (c in old(connected) && !now)
      ensures deferred ==> Abs() == Closed(old(Abs()), c)
      ensures !deferred ==> Abs() == Step(old(Abs()), Disconnect(c))
      ensures c !in old(connected) ==> Abs() == old(Abs())
    {
      disconnectCalls := disconnectCalls + [c];
      deferred := false;
      if c in connected {
        connected := connected - {c};
        if now {
          var _ := HandleDisconnect(c);
        } else {
          deferred := true;
        }
      }
    }

    /** The loop itself: `pending` are the sockets whose callbacks are still to
        run, `ran` those whose callback ran in the middle of the loop. */
    method DisconnectEach(snapshot: seq<SocketId>, now: SocketId -> bool)
      returns (pending: seq<SocketId>, ghost ran: set<SocketId>)
      requires Distinct(snapshot)
      modifies this
      ensures disconnectCalls == old(disconnectCalls) + snapshot
      ensures Progress(old(Abs()), snapshot, pending, ran, Abs())
    {
      ghost var before := Abs();
      pending, ran := [], {};
      ProgressAtStart(before);
      hide Elems, Progress, Distinct, Closed, Step;
      for i := 0 to |snapshot|
        invariant disconnectCalls == old(disconnectCalls) + snapshot[..i]
        invariant Progress(before, snapshot[..i], pending, ran, Abs())
      {
        var c := snapshot[i];
        assert snapshot[..i + 1] == snapshot[..i] + [c];
        NotYet(snapshot, i);
        OneDeferred(before, snapshot[..i], pending, ran, Abs(), c);
        OneRan(before, snapshot[..i], pending, ran, Abs(), c);
        OneClosedBefore(before, snapshot[..i], pending, ran, Abs(), c);
        ghost var open := c in connected;
        var deferred := DisconnectClient(c, now(c));
        if deferred {
          pending := pending + [c];
        } else if open {
          ran := ran + {c};
        }
      }
      assert snapshot[..|snapshot|] == snapshot;
    }

    method RunCallbacks(pending: seq<SocketId>)
      requires Distinct(pending)
      modifies this`connectedClients, this`gauge
      ensures connectedClients == Without(old(connectedClients), Elems(pending))
      ensures gauge == old(gauge) - |pending|
    {
      hide Elems, Without;
      ghost var entries := connectedClients;
      WithoutNone(entries, {});
      ElemsEmpty();
      for i := 0 to |pending|
        invariant connectedClients == Without(entries, Elems(pending[..i])) && gauge == old(gauge) - i
      {
        assert pending[..i + 1] == pending[..i] + [pending[i]];
        ElemsSnoc(pending[..i], pending[i]);
        WithoutTwice(entries, Elems(pending[..i]), {pending[i]});
        var _ := HandleDisconnect(pending[i]);
      }
      assert pending[..|pending|] == pending;
    }

    /** The disconnect loop of gracefulShutdown over a snapshot of the registry,
        while its callbacks delete from the registry: each snapshot client is
        disconnected once, in order, and once the callbacks have run nothing is
        registered but the stale entries of sockets already closed before. */
    method DisconnectAll(now: SocketId -> bool)
      requires Inv(Abs())
      modifies this
      ensures disconnectCalls == old(disconnectCalls) + old(connectedClients)
      ensures connectedClients == Without(old(connectedClients), old(connected))
      ensures connected == StillOpen(old(connected), old(connectedClients))
      ensures Inv(Abs())
    {
      hide Elems, Without;
      ghost var before := Abs();
      var snapshot := connectedClients;
      var pending, ran := DisconnectEach(snapshot, now);
      RunCallbacks(pending);
      WithoutTwice(snapshot, ran, Elems(pending));
      ElemsSize(pending);
      ClosedKeepsInv(before, ran + Elems(pending));
      OpenOnly(snapshot, before.connected);
    }
  }

  function Elems(s: seq<SocketId>): set<SocketId> { set c | c in s }

  lemma ElemsEmpty()
    ensures Elems([]) == {}
  {
  }

  lemma ElemsSnoc(s: seq<SocketId>, c: SocketId)
    ensures Elems(s + [c]) == Elems(s) + {c}
  {
  }

  lemma NotYet(s: seq<SocketId>, i: nat)
    requires Distinct(s) && i < |s|
    ensures s[i] !in Elems(s[..i])
  {
  }

  function StillOpen(open: set<SocketId>, closed: seq<SocketId>): set<SocketId> { open - Elems(closed) }

  /** The transport has closed the socket; its callback has not run. */
  function Closed(s: State, c: SocketId): State { s.(connected := s.connected - {c}) }

  /** Of the open ones among `closed`, the callbacks of `ran` have run and those
      of `pending` have not. */
  ghost predicate Shared(open: set<SocketId>, closed: seq<SocketId>, pending: seq<SocketId>, ran: set<SocketId>) {
    Distinct(pending) && ran !! Elems(pending) && ran + Elems(pending) == open * Elems(closed)
  }

  /** The state once the sockets `closed` were disconnected. */
  ghost predicate Progress(before: State, closed: seq<SocketId>, pending: seq<SocketId>, ran: set<SocketId>, s: State) {
    && Shared(before.connected, closed, pending, ran)
    && s == before.(connected := StillOpen(before.connected, closed),
                    registry := Without(before.registry, ran), gauge := before.gauge - |ran|)
  }

  lemma ProgressAtStart(before: State)
    ensures Progress(before, [], [], {}, before)
  {
    WithoutNone(before.registry, {});
  }

  lemma SharedOnward(open: set<SocketId>, closed: seq<SocketId>, pending: seq<SocketId>, ran: set<SocketId>, c: SocketId)
    requires Shared(open, closed, pending, ran) && c !in Elems(closed)
    ensures c in open ==> c !in ran && Shared(open, closed + [c], pending + [c], ran)
    ensures c in open ==> Shared(open, closed + [c], pending, ran + {c})
    ensures c !in open ==> Shared(open, closed + [c], pending, ran)
  {
  }

  lemma OneDeferred(before: State, closed: seq<SocketId>, pending: seq<SocketId>, ran: set<SocketId>, s: State, c: SocketId)
    requires Progress(before, closed, pending, ran, s) && c !in Elems(closed)
    ensures c in s.connected ==> Progress(before, closed + [c], pending + [c], ran, Closed(s, c))
  {
    SharedOnward(before.connected, closed, pending, ran, c);
    ElemsSnoc(closed, c);
    hide Elems, Shared, Without;
  }

  lemma OneRan(before: State, closed: seq<SocketId>, pending: seq<SocketId>, ran: set<SocketId>, s: State, c: SocketId)
    requires Progress(before, closed, pending, ran, s) && c !in Elems(closed)
    ensures c in s.connected ==> Progress(before, closed + [c], pending, ran + {c}, Step(s, Disconnect(c)))
  {
    SharedOnward(before.connected, closed, pending, ran, c);
    ElemsSnoc(closed, c);
    WithoutTwice(before.registry, ran, {c});
    hide Elems, Without, Shared;
  }

  lemma OneClosedBefore(before: State, closed: seq<SocketId>, pending: seq<SocketId>, ran: set<SocketId>, s: State, c: SocketId)
    requires Progress(before, closed, pending, ran, s) && c !in Elems(closed)
    ensures c !in s.connected ==> Progress(before, closed + [c], pending, ran, s)
  {
  }

  lemma {:induction false} ElemsSize(s: seq<SocketId>)
    requires Distinct(s)
    ensures |Elems(s)| == |s|
  {
    if s != [] {
      var init, c := s[..|s| - 1], s[|s| - 1];
      assert s == init + [c];
      ElemsSize(init);
      ElemsSnoc(init, c);
    }
  }

  lemma OpenOnly(s: seq<SocketId>, open: set<SocketId>)
    ensures Without(s, open * Elems(s)) == Without(s, open)
  {
    SameWithout(s, open * Elems(s), open);
  }

  lemma OpenCount(open: set<SocketId>, part: set<SocketId>)
    ensures |open - part| == |open| - |open * part|
  {
    assert open == open * part + (open - part);
  }

  lemma ClosedKeepsInv(s: State, ran: set<SocketId>)
    requires Inv(s) && ran == s.connected * Elems(s.registry)
    ensures Inv(s.(connected := StillOpen(s.connected, s.registry), registry := Without(s.registry, ran), gauge := s.gauge - |ran|))
  {
    WithoutDistinct(s.registry, ran);
    forall c | c in Without(s.registry, ran) ensures c in s.registry { WithoutIn(s.registry, ran, c); }
    OpenCount(s.connected, Elems(s.registry));
    hide Elems, Without, Distinct;
  }

  lemma {:induction false} SameWithout(s: seq<SocketId>, a: set<SocketId>, b: set<SocketId>)
    requires forall c | c in s :: c in a <==> c in b
    ensures Without(s, a) == Without(s, b)
  {
    if s != [] { SameWithout(s[1..], a, b); }
  }
}
