/** While a row is stored and unexpired, its key replays and runs no handler. */
module IdempotencyWindow {
  import opened Runs
  import opened Wrappers
  import opened Json
  import opened Idempotency

  function KeyOf(p: Phase): Option<string> {
    if p.Unguarded? then None else Some(p.key)
  }

  /** The row a request looked up and may still act on. */
  function SeenBy(p: Phase): Option<Row> {
    match p
    case LookedUp(_, row) => row
    case Deleting(_, row) => row
    case _ => None
  }

  predicate SawOther(p: Phase, key: string, row: Row) {
    KeyOf(p) == Some(key) && SeenBy(p).Some? && SeenBy(p) != Some(row)
  }

  /** The key's row is stored, and no request in flight is acting on another row
      of the key. Any state with no request in flight for the key will do. */
  ghost predicate Clear(s: State, key: string) {
    key in s.rows && forall r | r in s.reqs :: !SawOther(s.reqs[r], key, s.rows[key])
  }

  lemma StepKeepsClear(s: State, e: Event, key: string)
    requires Clear(s, key) && DeletesExpired(s) && Step(s, e).clock <= s.rows[key].expiresAt
    ensures Clear(Step(s, e), key) && Step(s, e).rows[key] == s.rows[key]
  {
  }

  /** What a request that looks up inside the window can be doing. */
  predicate OnlyReplays(p: Phase, key: string, row: Row) {
    KeyOf(p) == Some(key) ==> p == Waiting(key) || p == LookedUp(key, Some(row)) || p == Replay(key, row)
  }

  lemma StepOnlyReplays(s: State, e: Event, key: string, r: RequestId)
    requires Clear(s, key) && Step(s, e).clock <= s.rows[key].expiresAt
    requires r in s.reqs ==> OnlyReplays(s.reqs[r], key, s.rows[key])
    ensures r in Step(s, e).reqs ==> OnlyReplays(Step(s, e).reqs[r], key, s.rows[key])
  {
  }

  lemma ClockGrows(s: State, e: Event)
    ensures s.clock <= Step(s, e).clock
  {
  }

  lemma {:induction false} RowWindow(s: State, es: seq<Event>, key: string)
    requires Clear(s, key) && DeletesExpired(s)
    requires Exec(s, es).clock <= s.rows[key].expiresAt
    ensures Clear(Exec(s, es), key) && Exec(s, es).rows[key] == s.rows[key]
  {
    if es != [] {
      hide Step, Clear, DeletesExpired;
      var init, e := es[..|es| - 1], es[|es| - 1];
      ClockGrows(Exec(s, init), e);
      RowWindow(s, init, key);
      ExecKeepsDeletes(s, init);
      StepKeepsClear(Exec(s, init), e, key);
    }
  }

  /** Replay window, under every interleaving: until the clock passes the row's
      expiry the row stays as it is, and every request of the key that had not
      yet looked it up replays it instead of running the handler. */
  lemma {:induction false} ReplayWindow(s: State, es: seq<Event>, key: string, r: RequestId)
    requires Clear(s, key) && DeletesExpired(s)
    requires Exec(s, es).clock <= s.rows[key].expiresAt
    requires r in s.reqs ==> OnlyReplays(s.reqs[r], key, s.rows[key])
    ensures key in Exec(s, es).rows && Exec(s, es).rows[key] == s.rows[key]
    ensures r in Exec(s, es).reqs ==> OnlyReplays(Exec(s, es).reqs[r], key, s.rows[key])
  {
    RowWindow(s, es, key);
    if es != [] {
      hide Step, Clear, OnlyReplays, DeletesExpired;
      var init, e := es[..|es| - 1], es[|es| - 1];
      ClockGrows(Exec(s, init), e);
      RowWindow(s, init, key);
      ReplayWindow(s, init, key, r);
      StepOnlyReplays(Exec(s, init), e, key, r);
    }
  }

  // ---- exactly when a row can vanish early ----

  /** A request that can delete the key's row before its expiry: it is about to
      delete, or it looked up a row that expires sooner. */
  ghost predicate Threatens(s: State, key: string, r: RequestId)
    requires key in s.rows
  {
    && r in s.reqs
    && match s.reqs[r]
       case Deleting(k, _) => k == key
       case LookedUp(k, Some(row)) => k == key && row.expiresAt < s.rows[key].expiresAt
       case _ => false
  }

  ghost predicate Safe(s: State, key: string) { key in s.rows && forall r: RequestId :: !Threatens(s, key, r) }

  lemma StepKeepsSafe(s: State, e: Event, key: string)
    requires Safe(s, key) && Step(s, e).clock <= s.rows[key].expiresAt
    ensures Safe(Step(s, e), key) && Step(s, e).rows[key] == s.rows[key]
  {
    assert e.DeleteExpired? ==> !Threatens(s, key, e.r);
    assert e.Decide? ==> !Threatens(s, key, e.r);
    forall r: RequestId ensures key in Step(s, e).rows ==> !Threatens(Step(s, e), key, r) { assert !Threatens(s, key, r); }
  }

  lemma {:induction false} SafeRowStays(s: State, es: seq<Event>, key: string)
    requires Safe(s, key) && Exec(s, es).clock <= s.rows[key].expiresAt
    ensures Safe(Exec(s, es), key) && Exec(s, es).rows[key] == s.rows[key]
  {
    if es != [] {
      hide Step, Safe;
      var init, e := es[..|es| - 1], es[|es| - 1];
      ClockGrows(Exec(s, init), e);
      SafeRowStays(s, init, key);
      StepKeepsSafe(Exec(s, init), e, key);
    }
  }

  lemma ThreatIsReal(s: State, key: string, r: RequestId) returns (es: seq<Event>)
    requires key in s.rows && s.clock <= s.rows[key].expiresAt && Threatens(s, key, r)
    ensures Exec(s, es).clock <= s.rows[key].expiresAt && key !in Exec(s, es).rows
  {
    hide Run;
    if s.reqs[r].Deleting? {
      es := [DeleteExpired(r)];
      RunOne(Step, s, DeleteExpired(r));
    } else {
      es := [Tick(s.rows[key].expiresAt - s.clock), Decide(r), DeleteExpired(r)];
      RunThree(Step, s, es[0], es[1], es[2]);
    }
  }

  /** A stored, unexpired row can vanish before its expiry in some continuation
      exactly when some request in flight is about to delete by its key, or looked
      up a row of the key that expires sooner. */
  lemma {:induction false} VanishesEarlyIff(s: State, key: string)
    requires key in s.rows && s.clock <= s.rows[key].expiresAt
    ensures (exists es :: Exec(s, es).clock <= s.rows[key].expiresAt && key !in Exec(s, es).rows)
       <==> exists r :: Threatens(s, key, r)
  {
    hide Run;
    if r :| Threatens(s, key, r) {
      var es := ThreatIsReal(s, key, r);
    } else {
      forall es | Exec(s, es).clock <= s.rows[key].expiresAt ensures key in Exec(s, es).rows { SafeRowStays(s, es, key); }
    }
  }

  // ---- such a run exists ----

  const OK := Sent(200, Structured(JBool(true)))

  function Handles(r: RequestId): seq<Event> { [Respond(r, OK), Finish(r), Store(r)] }

  /** Request 0 stores a row, and requests 1 and 2 begin once it has expired. */
  function Setup(key: string): seq<Event> {
    [Begin(0, "POST", key), Lookup(0), Decide(0)] + Handles(0) + [Tick(TTL + 1), Begin(1, "POST", key), Begin(2, "POST", key)]
  }

  /** Both look the row up and decide to delete it; request 1 does, and stores its
      own. */
  function Race(): seq<Event> {
    [Lookup(1), Lookup(2), Decide(1)] + [Decide(2), DeleteExpired(1)] + Handles(1)
  }

  ghost predicate At(s: State, r: RequestId, p: Phase) { r in s.reqs && s.reqs[r] == p }

  /** Everything but the requests named. */
  ghost predicate Elsewhere(s: State, s': State, rs: set<RequestId>) {
    forall r: RequestId | r !in rs :: (r in s'.reqs <==> r in s.reqs) && (r in s.reqs ==> s'.reqs[r] == s.reqs[r])
  }

  lemma HandledAlone(s: State, r: RequestId, key: string)
    requires At(s, r, Handling(key, true)) && key !in s.rows
    ensures var s' := Run(Step, s, Handles(r));
            s'.clock == s.clock && s'.rows == s.rows[key := Row(200, JBool(true), s.clock + TTL)] && Elsewhere(s, s', {r})
  {
    RunThree(Step, s, Respond(r, OK), Finish(r), Store(r));
    RespondedAlone(s, r, key);
    StoredAlone(Step(Step(s, Respond(r, OK)), Finish(r)), r, key, s.clock + TTL);
    hide Run, Step;
  }

  lemma RespondedAlone(s: State, r: RequestId, key: string)
    requires At(s, r, Handling(key, true))
    ensures var s' := Step(Step(s, Respond(r, OK)), Finish(r));
            s'.clock == s.clock && s'.rows == s.rows && At(s', r, Storing(key, OK, s.clock + TTL)) && Elsewhere(s, s', {r})
  {
  }

  lemma StoredAlone(s: State, r: RequestId, key: string, expiresAt: nat)
    requires At(s, r, Storing(key, OK, expiresAt)) && key !in s.rows
    ensures var s' := Step(s, Store(r));
            s'.clock == s.clock && s'.rows == s.rows[key := Row(200, JBool(true), expiresAt)] && Elsewhere(s, s', {r})
  {
  }

  lemma AdmittedAlone(s: State, r: RequestId, key: string)
    requires key != "" && r !in s.reqs && key !in s.rows
    ensures var s' := Run(Step, s, [Begin(r, "POST", key), Lookup(r), Decide(r)]);
            s'.clock == s.clock && s'.rows == s.rows && At(s', r, Handling(key, true)) && Elsewhere(s, s', {r})
  {
    RunThree(Step, s, Begin(r, "POST", key), Lookup(r), Decide(r));
    hide Run;
  }

  lemma BothBegin(s: State, key: string)
    requires key != "" && 1 !in s.reqs && 2 !in s.reqs
    ensures var s' := Run(Step, s, [Tick(TTL + 1), Begin(1, "POST", key), Begin(2, "POST", key)]);
            s'.clock == s.clock + TTL + 1 && s'.rows == s.rows && At(s', 1, Waiting(key)) && At(s', 2, Waiting(key))
  {
    RunThree(Step, s, Tick(TTL + 1), Begin(1, "POST", key), Begin(2, "POST", key));
    hide Run;
  }

  lemma BothLookUp(s: State, key: string)
    requires key in s.rows && s.rows[key].expiresAt < s.clock && At(s, 1, Waiting(key)) && At(s, 2, Waiting(key))
    ensures var s', row := Run(Step, s, [Lookup(1), Lookup(2), Decide(1)]), Some(s.rows[key]);
            s'.clock == s.clock && s'.rows == s.rows && At(s', 1, Deleting(key, row)) && At(s', 2, LookedUp(key, row))
  {
    RunThree(Step, s, Lookup(1), Lookup(2), Decide(1));
    hide Run;
  }

  lemma OneDeletes(s: State, key: string)
    requires key in s.rows && s.rows[key].expiresAt < s.clock
    requires At(s, 1, Deleting(key, Some(s.rows[key]))) && At(s, 2, LookedUp(key, Some(s.rows[key])))
    ensures var s' := Run(Step, s, [Decide(2), DeleteExpired(1)]);
            && s'.clock == s.clock && s'.rows == s.rows - {key}
            && At(s', 1, Handling(key, true)) && At(s', 2, Deleting(key, Some(s.rows[key])))
  {
    RunTwo(Step, s, Decide(2), DeleteExpired(1));
    hide Run;
  }

  lemma SetsUp(key: string)
    requires key != ""
    ensures var s' := Exec(State(0, map[], map[], multiset{}), Setup(key));
            && s'.clock == TTL + 1 && s'.rows == map[key := Row(200, JBool(true), TTL)]
            && At(s', 1, Waiting(key)) && At(s', 2, Waiting(key))
  {
    var s := State(0, map[], map[], multiset{});
    var e1, e2 := [Begin(0, "POST", key), Lookup(0), Decide(0)], Handles(0);
    hide Run, Handles, Step;
    AdmittedAlone(s, 0, key);
    var s1 := Run(Step, s, e1);
    RunConcat(Step, s, e1, e2);
    HandledAlone(s1, 0, key);
    assert 1 !in Run(Step, s1, e2).reqs && 2 !in Run(Step, s1, e2).reqs;
    hide Elsewhere;
    RunConcat(Step, s, e1 + e2, [Tick(TTL + 1), Begin(1, "POST", key), Begin(2, "POST", key)]);
    BothBegin(Run(Step, s1, e2), key);
  }

  lemma Races(s: State, key: string)
    requires key in s.rows && s.rows[key].expiresAt < s.clock && At(s, 1, Waiting(key)) && At(s, 2, Waiting(key))
    ensures var s' := Run(Step, s, Race());
            && s'.clock == s.clock && key in s'.rows && s'.rows[key].expiresAt == s.clock + TTL
            && At(s', 2, Deleting(key, Some(s.rows[key])))
  {
    var e4, e5 := [Lookup(1), Lookup(2), Decide(1)], [Decide(2), DeleteExpired(1)];
    hide Run, Handles, Step;
    BothLookUp(s, key);
    var s4 := Run(Step, s, e4);
    RunConcat(Step, s, e4, e5);
    OneDeletes(s4, key);
    RunConcat(Step, s, e4 + e5, Handles(1));
    HandledAlone(Run(Step, s4, e5), 1, key);
  }

  /** The limit is real: a run from the empty store in which a late deleter takes
      away a row stored in the same instant, 24 hours before its expiry. */
  lemma {:induction false} LateDeleterCutsShort(key: string)
    requires key != ""
    ensures
      var s, es := State(0, map[], map[], multiset{}), Setup(key) + Race();
      var a, b := Exec(s, es), Exec(s, es + [DeleteExpired(2)]);
      Initial(s) && key in a.rows && a.rows[key].expiresAt == a.clock + 86_400_000 && b.clock == a.clock && key !in b.rows
  {
    hide Run, Setup, Race, Step;
    var s := State(0, map[], map[], multiset{});
    SetsUp(key);
    var s3 := Exec(s, Setup(key));
    RunConcat(Step, s, Setup(key), Race());
    Races(s3, key);
    RunSnoc(Step, s, Setup(key) + Race(), DeleteExpired(2));
    LastDelete(Run(Step, s3, Race()), key, s3.rows[key]);
  }

  lemma LastDelete(s: State, key: string, row: Row)
    requires key in s.rows && At(s, 2, Deleting(key, Some(row)))
    ensures key !in Step(s, DeleteExpired(2)).rows && Step(s, DeleteExpired(2)).clock == s.clock
  {
  }

  // ---- the first row of a key ----

  /** Before the first store nobody has seen a row; after it, while it is the only
      one, nobody has seen another. */
  ghost predicate FirstOnly(s: State, key: string) {
    && (s.stores[key] == 0 ==> key !in s.rows && forall r | r in s.reqs && KeyOf(s.reqs[r]) == Some(key) :: SeenBy(s.reqs[r]).None?)
    && (s.stores[key] == 1 && key in s.rows ==> Clear(s, key))
  }

  lemma LookupKeepsFirst(s: State, e: Event, key: string)
    requires FirstOnly(s, key) && !e.Store?
    ensures FirstOnly(Step(s, e), key)
  {
  }

  lemma StoreKeepsFirst(s: State, r: RequestId, key: string)
    requires FirstOnly(s, key)
    ensures FirstOnly(DoStore(s, r), key)
  {
  }

  lemma {:induction false} ExecKeepsFirst(s: State, es: seq<Event>, key: string)
    requires Initial(s)
    ensures FirstOnly(Exec(s, es), key) && DeletesExpired(Exec(s, es))
  {
    ExecKeepsDeletes(s, es);
    if es != [] {
      hide Step, FirstOnly;
      var init, e := es[..|es| - 1], es[|es| - 1];
      ExecKeepsFirst(s, init, key);
      if e.Store? {
        StoreIsStep(Exec(s, init), e.r);
        StoreKeepsFirst(Exec(s, init), e.r, key);
      } else {
        LookupKeepsFirst(Exec(s, init), e, key);
      }
    }
  }

  lemma StoreIsStep(s: State, r: RequestId)
    ensures Step(s, Store(r)) == DoStore(s, r)
  {
  }

  /** Requests of the key whose handler has been started. */
  ghost function HandlerRuns(s: State, key: string): set<RequestId> {
    set r | r in s.reqs && KeyOf(s.reqs[r]) == Some(key) && (s.reqs[r].Handling? || ResponseOf(s.reqs[r]).Some?)
  }

  /** Requests of the key that have done their lookup. */
  ghost function PastLookup(s: State, key: string): set<RequestId> {
    set r | r in s.reqs && KeyOf(s.reqs[r]) == Some(key) && !s.reqs[r].Waiting?
  }

  /** Idempotency under interleaving: from the first store of a key until that row
      expires, the row stays and no handler runs for the key except those of
      requests whose lookup preceded the store. */
  lemma {:induction false} FirstRowShields(s: State, es: seq<Event>, fs: seq<Event>, key: string)
    requires Initial(s)
    requires Exec(s, es).stores[key] == 1 && key in Exec(s, es).rows
    requires Exec(Exec(s, es), fs).clock <= Exec(s, es).rows[key].expiresAt
    ensures
      var a, b := Exec(s, es), Exec(Exec(s, es), fs);
      && key in b.rows && b.rows[key] == a.rows[key]
      && HandlerRuns(b, key) <= PastLookup(a, key)
      && |HandlerRuns(b, key)| <= |PastLookup(a, key)|
  {
    hide Run, Step;
    ExecKeepsFirst(s, es, key);
    var a, b := Exec(s, es), Exec(Exec(s, es), fs);
    RowWindow(a, fs, key);
    forall r | r in HandlerRuns(b, key) ensures r in PastLookup(a, key) {
      if r !in a.reqs || OnlyReplays(a.reqs[r], key, a.rows[key]) {
        ReplayWindow(a, fs, key, r);
      } else {
        assert KeyOf(a.reqs[r]) == Some(key);
      }
    }
    var h, p := HandlerRuns(b, key), PastLookup(a, key);
    assert p == h + (p - h);
  }

  // ---- replay fidelity ----

  /** A replay repeats the stored response's status and body exactly when the body
      was JSON text: other text comes back as a JSON string. */
  lemma ReplayFaithfulIff(key: string, row: Row, response: Response)
    requires Holds(row, response)
    ensures Replay(key, row) == Replayed(key, response.status, response.body) <==> response.body.Structured?
    ensures response.body.Raw? ==> Replay(key, row) == Replayed(key, response.status, Structured(JStr(response.body.text)))
  {
  }

  /** Replay fidelity: in every run, while a row of the key is stored, unexpired
      and unchallenged, requests that begin under the key get back the response
      of the handler that stored it. */
  lemma {:induction false} ReplaysTheHandler(s: State, es: seq<Event>, fs: seq<Event>, key: string, r: RequestId)
    requires Initial(s) && Clear(Exec(s, es), key) && r !in Exec(s, es).reqs
    requires Exec(Exec(s, es), fs).clock <= Exec(s, es).rows[key].expiresAt
    requires r in Exec(Exec(s, es), fs).reqs && Exec(Exec(s, es), fs).reqs[r].Replayed? && Exec(Exec(s, es), fs).reqs[r].key == key
    ensures exists q :: q in Exec(s, es).reqs && RanUnder(Exec(s, es).reqs[q], key)
                        && var response := ResponseOf(Exec(s, es).reqs[q]).value;
                           && response.Sent? && Successful(response.status) && Storable(response.body)
                           && Exec(Exec(s, es), fs).reqs[r] == Replayed(key, response.status, Structured(Parsed(response.body)))
  {
    hide Run, Step;
    ExecKeepsDeletes(s, es);
    var a := Exec(s, es);
    ReplayWindow(a, fs, key, r);
    RowIsAHandlersResponse(s, es, key);
    var q :| q in a.reqs && RanUnder(a.reqs[q], key) && Holds(a.rows[key], ResponseOf(a.reqs[q]).value);
  }
}
