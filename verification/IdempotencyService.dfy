/**
 The middleware as written, one request at a time, and the cleanup of expired
 keys between requests.
 */
module IdempotencyService {
  import opened Runs
  import opened Wrappers
  import opened Json
  import opened Idempotency

  /** One request and what its handler will send; times are how long the lookup
      and the handler take. */
  datatype Request = Request(httpMethod: string, key: string, toDecide: nat, response: Response, handlerTime: nat)

  datatype Reply = Ran(response: Response) | Repeated(status: nat, body: Body)

  type Rows = map<string, Row>

  // ---- one request in one piece ----

  predicate Replays(rows: Rows, now: nat, q: Request) {
    Guarded(q.httpMethod, q.key) && q.key in rows && now + q.toDecide <= rows[q.key].expiresAt
  }

  predicate Stores(q: Request) {
    q.response.Sent? && Successful(q.response.status) && Storable(q.response.body)
  }

  function Serve(rows: Rows, now: nat, q: Request): (Rows, Reply) {
    if !Guarded(q.httpMethod, q.key) then (rows, Ran(q.response))
    else if Replays(rows, now, q) then
      var p := Replay(q.key, rows[q.key]);
      (rows, Repeated(p.status, p.body))
    else if Stores(q) then
      ((rows - {q.key})[q.key := Row(q.response.status, Parsed(q.response.body), now + q.toDecide + q.handlerTime + TTL)], Ran(q.response))
    else (rows - {q.key}, Ran(q.response))
  }

  // ---- the same request as a script of the machine ----

  function Front(r: RequestId, q: Request): seq<Event> {
    [Begin(r, q.httpMethod, q.key), Lookup(r)] + [Tick(q.toDecide), Decide(r)]
  }

  function Back(r: RequestId, q: Request): seq<Event> {
    [DeleteExpired(r), Respond(r, q.response)] + [Tick(q.handlerTime), Finish(r)] + [Store(r)]
  }

  ghost predicate At(s: State, r: RequestId, p: Phase) { r in s.reqs && s.reqs[r] == p }

  lemma FrontAlone(s: State, r: RequestId, q: Request)
    requires r !in s.reqs && Guarded(q.httpMethod, q.key)
    ensures
      var s' := Exec(s, Front(r, q));
      && s'.rows == s.rows && s'.clock == s.clock + q.toDecide
      && At(s', r, if Replays(s.rows, s.clock, q) then Replay(q.key, s.rows[q.key])
                   else if q.key in s.rows then Deleting(q.key, Some(s.rows[q.key])) else Handling(q.key, true))
  {
    hide Run;
    RunConcat(Step, s, [Begin(r, q.httpMethod, q.key), Lookup(r)], [Tick(q.toDecide), Decide(r)]);
    RunTwo(Step, s, Begin(r, q.httpMethod, q.key), Lookup(r));
    var s2 := Exec(s, [Begin(r, q.httpMethod, q.key), Lookup(r)]);
    assert At(s2, r, LookedUp(q.key, if q.key in s.rows then Some(s.rows[q.key]) else None));
    assert s2.rows == s.rows && s2.clock == s.clock;
    RunTwo(Step, s2, Tick(q.toDecide), Decide(r));
  }

  lemma HandlerAlone(s: State, r: RequestId, q: Request)
    requires r in s.reqs && (s.reqs[r].Deleting? ==> s.reqs[r].key in s.rows)
    requires s.reqs[r].Deleting? || s.reqs[r].Replayed? || (s.reqs[r].Handling? && s.reqs[r].captured && s.reqs[r].key !in s.rows)
    ensures
      var s', p := Exec(s, [DeleteExpired(r), Respond(r, q.response)]), s.reqs[r];
      && s'.clock == s.clock
      && (if p.Replayed? then s'.rows == s.rows && At(s', r, p)
          else s'.rows == s.rows - {p.key} && At(s', r, Responded(p.key, true, q.response)))
  {
    hide Run;
    RunTwo(Step, s, DeleteExpired(r), Respond(r, q.response));
  }

  lemma FinishAlone(s: State, r: RequestId, q: Request)
    requires r in s.reqs && (s.reqs[r].Replayed? || (s.reqs[r].Responded? && s.reqs[r].captured && s.reqs[r].response == q.response && s.reqs[r].key !in s.rows))
    ensures
      var s', p := Exec(s, [Tick(q.handlerTime), Finish(r)] + [Store(r)]), s.reqs[r];
      && s'.clock == s.clock + q.handlerTime
      && (if p.Replayed? then s'.rows == s.rows && At(s', r, p)
          else
            && At(s', r, Served(p.key, q.response))
            && s'.rows == if Stores(q)
                          then s.rows[p.key := Row(q.response.status, Parsed(q.response.body), s.clock + q.handlerTime + TTL)]
                          else s.rows)
  {
    hide Run;
    RunConcat(Step, s, [Tick(q.handlerTime), Finish(r)], [Store(r)]);
    RunTwo(Step, s, Tick(q.handlerTime), Finish(r));
    var s2 := Exec(s, [Tick(q.handlerTime), Finish(r)]);
    RunOne(Step, s2, Store(r));
  }

  function ReplyOf(p: Phase): Option<Reply> {
    match p
    case Served(_, response) => Some(Ran(response))
    case Replayed(_, status, body) => Some(Repeated(status, body))
    case _ => None
  }

  /** Run alone, a guarded request's events come to its one-piece form. */
  lemma ServedAlone(s: State, r: RequestId, q: Request)
    requires r !in s.reqs && Guarded(q.httpMethod, q.key)
    ensures
      var s' := Exec(s, Front(r, q) + Back(r, q));
      && s'.rows == Serve(s.rows, s.clock, q).0
      && r in s'.reqs && ReplyOf(s'.reqs[r]) == Some(Serve(s.rows, s.clock, q).1)
      && s'.clock == s.clock + q.toDecide + q.handlerTime
  {
    hide Run, Step;
    FrontAlone(s, r, q);
    var s1 := Exec(s, Front(r, q));
    var a, b := [DeleteExpired(r), Respond(r, q.response)], [Tick(q.handlerTime), Finish(r)] + [Store(r)];
    assert Back(r, q) == a + b;
    RunConcat(Step, s, Front(r, q), Back(r, q));
    RunConcat(Step, s1, a, b);
    HandlerAlone(s1, r, q);
    FinishAlone(Exec(s1, a), r, q);
  }

  // ---- what one request means to a caller ----

  /** The middleware acts on POST, PUT and PATCH with a nonempty key. */
  predicate Applies(q: Request) {
    (q.httpMethod == "POST" || q.httpMethod == "PUT" || q.httpMethod == "PATCH") && |q.key| > 0
  }

  /** Any 2xx response sent with a body that is not a JSON null. */
  predicate Keeps(q: Request) {
    match q.response
    case Unsent => false
    case Sent(status, Missing) => false
    case Sent(status, Raw(_)) => 200 <= status <= 299
    case Sent(status, Structured(v)) => 200 <= status <= 299 && v != JNull
  }

  function TextOrValue(b: Body): Json
    requires !b.Missing?
  {
    match b
    case Structured(v) => v
    case Raw(text) => JStr(text)
  }

  /** What a request leaves and answers: it repeats a row not expired when looked
      at, as 200 if the row has status 0, and otherwise runs the handler, after which
      its key holds a row exactly when the response is kept, for 24 hours from then. */
  ghost predicate Means(rows: Rows, now: nat, q: Request, rows': Rows, reply: Reply) {
    && rows' - {q.key} == rows - {q.key}
    && if !Applies(q) then rows' == rows && reply == Ran(q.response)
       else if q.key in rows && now + q.toDecide <= rows[q.key].expiresAt then
         && rows' == rows
         && reply == Repeated(if rows[q.key].status == 0 then 200 else rows[q.key].status, Structured(rows[q.key].response))
       else
         && reply == Ran(q.response)
         && (q.key in rows' <==> Keeps(q))
         && (Keeps(q) ==>
               rows'[q.key] == Row(q.response.status, TextOrValue(q.response.body),
                                   now + q.toDecide + q.handlerTime + 86_400_000))
  }

  lemma {:induction false} ServeLaw(rows: Rows, now: nat, q: Request)
    ensures Means(rows, now, q, Serve(rows, now, q).0, Serve(rows, now, q).1)
  {
    assert Guarded(q.httpMethod, q.key) == Applies(q);
    assert Stores(q) == Keeps(q);
    hide Guarded, Applies, Stores, Keeps;
  }

  /** The same of the machine: a request run alone leaves and answers this. */
  lemma {:induction false} AloneLaw(s: State, r: RequestId, q: Request)
    requires r !in s.reqs
    ensures
      var s' := Exec(s, Front(r, q) + Back(r, q));
      && r in s'.reqs
      && (Applies(q) ==> ReplyOf(s'.reqs[r]).Some? && Means(s.rows, s.clock, q, s'.rows, ReplyOf(s'.reqs[r]).value))
      && (!Applies(q) ==> s'.reqs[r] == Unguarded && s'.rows == s.rows)
  {
    assert Guarded(q.httpMethod, q.key) == Applies(q);
    if Applies(q) {
      ServedAlone(s, r, q);
      ServeLaw(s.rows, s.clock, q);
    } else {
      PassesBy(s, r, q);
    }
    hide Run, Means, Serve, Front, Back, Guarded;
  }

  lemma PassesBy(s: State, r: RequestId, q: Request)
    requires r !in s.reqs && !Guarded(q.httpMethod, q.key)
    ensures At(Exec(s, Front(r, q) + Back(r, q)), r, Unguarded) && Exec(s, Front(r, q) + Back(r, q)).rows == s.rows
  {
    var es := (Front(r, q) + Back(r, q))[1..];
    assert Front(r, q) + Back(r, q) == [Begin(r, q.httpMethod, q.key)] + es;
    RunCons(Step, s, Begin(r, q.httpMethod, q.key), es);
    StaysUnguarded(Step(s, Begin(r, q.httpMethod, q.key)), es, r);
    hide Run;
  }

  /** An unguarded request's own events do nothing. */
  lemma {:induction false} StaysUnguarded(s: State, es: seq<Event>, r: RequestId)
    requires At(s, r, Unguarded)
    requires forall i | 0 <= i < |es| :: es[i].Tick? || (!es[i].Cleanup? && es[i].r == r)
    ensures At(Exec(s, es), r, Unguarded) && Exec(s, es).rows == s.rows
  {
    if es != [] { StaysUnguarded(s, es[..|es| - 1], r); }
  }

  /** A request whose delete finds the row gone runs its handler, but stores
      nothing, whatever the handler sends. */
  lemma {:induction false} LostDeleteStoresNothing(s: State, r: RequestId, key: string, response: Response)
    requires r in s.reqs && s.reqs[r].Deleting? && s.reqs[r].key == key && key !in s.rows
    ensures
      var s' := Exec(s, [DeleteExpired(r), Respond(r, response)] + [Finish(r), Store(r)]);
      s'.rows == s.rows && r in s'.reqs && s'.reqs[r] == Served(key, response)
  {
    RunConcat(Step, s, [DeleteExpired(r), Respond(r, response)], [Finish(r), Store(r)]);
    RunTwo(Step, s, DeleteExpired(r), Respond(r, response));
    RunTwo(Step, Exec(s, [DeleteExpired(r), Respond(r, response)]), Finish(r), Store(r));
    hide Run;
  }

  /** A sweep keeps exactly the rows not yet expired, as they were. */
  lemma {:induction false} SweepLaw(s: State, key: string)
    ensures var s' := Step(s, Cleanup);
            && s'.reqs == s.reqs && s'.clock == s.clock
            && (key in s'.rows <==> key in s.rows && s.clock <= s.rows[key].expiresAt)
            && (key in s'.rows ==> s'.rows[key] == s.rows[key])
            && s'.rows == Swept(s.rows, s.clock)
  {
  }

  class IdempotencyMiddleware {
    var rows: Rows

    constructor ()
      ensures rows == map[]
    {
      rows := map[];
    }

    /** `use`, alone: the captured status and body are locals the send override
        assigns, and the finish callback stores them. */
    method Use(q: Request, now: nat) returns (reply: Reply)
      modifies this
      ensures (rows, reply) == Serve(old(rows), now, q)
      ensures Means(old(rows), now, q, rows, reply)
    {
      ServeLaw(rows, now, q);
      hide Means;
      if !(q.httpMethod in {"POST", "PUT", "PATCH"}) { return Ran(q.response); }
      if q.key == "" { return Ran(q.response); }
      assert q.key !in rows ==> rows - {q.key} == rows;
      if q.key in rows {
        var existing := rows[q.key];
        if existing.expiresAt < now + q.toDecide {
          rows := rows - {q.key};
        } else {
          return Repeated(if existing.status != 0 then existing.status else 200, Structured(existing.response));
        }
      }
      var statusCode, responseBody := None, Missing;
      if q.response.Sent? {
        responseBody, statusCode := q.response.body, Some(q.response.status);
      }
      if statusCode.Some? && 200 <= statusCode.value < 300 {
        var expiresAt := now + q.toDecide + q.handlerTime + TTL;
        if Storable(responseBody) && q.key !in rows {
          rows := rows[q.key := Row(statusCode.value, Parsed(responseBody), expiresAt)];
        }
      }
      reply := Ran(q.response);
    }

    /** The hourly cleanup task. */
    method CleanupExpired(now: nat)
      modifies this
      ensures rows == Swept(old(rows), now)
    {
      rows := map k | k in rows && rows[k].expiresAt >= now :: rows[k];
    }
  }

  // ---- whole runs of requests, waits and sweeps ----

  function Swept(rows: Rows, now: nat): Rows { map k | k in rows && rows[k].expiresAt >= now :: rows[k] }

  datatype Op = Ask(q: Request) | Wait(elapsed: nat) | Sweep

  /** The replies of a run of non-overlapping operations. */
  function Replies(rows: Rows, now: nat, ops: seq<Op>): seq<Reply>
    decreases |ops|
  {
    if ops == [] then []
    else
      match ops[0]
      case Ask(q) =>
        var (rows', reply) := Serve(rows, now, q);
        [reply] + Replies(rows', now + q.toDecide + q.handlerTime, ops[1..])
      case Wait(elapsed) => Replies(rows, now + elapsed, ops[1..])
      case Sweep => Replies(Swept(rows, now), now, ops[1..])
  }

  function Unswept(ops: seq<Op>): seq<Op> {
    if ops == [] then []
    else if ops[0].Sweep? then Unswept(ops[1..])
    else [ops[0]] + Unswept(ops[1..])
  }

  /** The swept store lacks only rows that have expired. */
  ghost predicate Sim(unswept: Rows, swept: Rows, now: nat) {
    && (forall k | k in swept :: k in unswept && unswept[k] == swept[k])
    && (forall k | k in unswept && k !in swept :: unswept[k].expiresAt < now)
  }

  lemma ServeKeepsSim(a: Rows, b: Rows, now: nat, q: Request)
    requires Sim(a, b, now)
    ensures Serve(a, now, q).1 == Serve(b, now, q).1
    ensures Sim(Serve(a, now, q).0, Serve(b, now, q).0, now + q.toDecide + q.handlerTime)
  {
  }

  lemma {:induction false} SimReplies(a: Rows, b: Rows, now: nat, ops: seq<Op>)
    requires Sim(a, b, now)
    ensures Replies(a, now, Unswept(ops)) == Replies(b, now, ops)
    decreases |ops|
  {
    if ops != [] {
      hide Serve, Sim;
      var rest := ops[1..];
      match ops[0] {
        case Ask(q) =>
          ServeKeepsSim(a, b, now, q);
          SimReplies(Serve(a, now, q).0, Serve(b, now, q).0, now + q.toDecide + q.handlerTime, rest);
          assert Unswept(ops)[1..] == Unswept(rest);
        case Wait(elapsed) =>
          SimLater(a, b, now, elapsed);
          SimReplies(a, b, now + elapsed, rest);
          assert Unswept(ops)[1..] == Unswept(rest);
        case Sweep =>
          SimSweeps(a, b, now);
          SimReplies(a, Swept(b, now), now, rest);
      }
    }
  }

  lemma SimLater(a: Rows, b: Rows, now: nat, elapsed: nat)
    requires Sim(a, b, now)
    ensures Sim(a, b, now + elapsed)
  {
  }

  lemma SimSweeps(a: Rows, b: Rows, now: nat)
    requires Sim(a, b, now)
    ensures Sim(a, Swept(b, now), now)
  {
  }

  /** Cleanup is unobservable: sweeps at any points between non-overlapping
      requests change no reply, so neither what is replayed nor which handlers
      run. */
  lemma SweepsAreHidden(rows: Rows, now: nat, ops: seq<Op>)
    ensures Replies(rows, now, ops) == Replies(rows, now, Unswept(ops))
  {
    SimReplies(rows, rows, now, ops);
  }

  // ---- at most one 2xx run a window ----

  /** The replies to the key's requests in a run all repeat this row. */
  ghost predicate AllRepeat(rows: Rows, now: nat, ops: seq<Op>, key: string, row: Row)
    decreases |ops|
  {
    ops == [] ||
    match ops[0]
    case Ask(q) =>
      && (Guarded(q.httpMethod, q.key) && q.key == key ==>
            Serve(rows, now, q).1 == Repeated(Replay(key, row).status, Structured(row.response)))
      && AllRepeat(Serve(rows, now, q).0, now + q.toDecide + q.handlerTime, ops[1..], key, row)
    case Wait(elapsed) => AllRepeat(rows, now + elapsed, ops[1..], key, row)
    case Sweep => AllRepeat(Swept(rows, now), now, ops[1..], key, row)
  }

  function EndOf(now: nat, ops: seq<Op>): (end: nat)
    ensures end >= now
    decreases |ops|
  {
    if ops == [] then now
    else
      match ops[0]
      case Ask(q) => EndOf(now + q.toDecide + q.handlerTime, ops[1..])
      case Wait(elapsed) => EndOf(now + elapsed, ops[1..])
      case Sweep => EndOf(now, ops[1..])
  }

  lemma {:induction false} StoredRowRepeats(rows: Rows, now: nat, ops: seq<Op>, key: string)
    requires key in rows && EndOf(now, ops) <= rows[key].expiresAt
    ensures AllRepeat(rows, now, ops, key, rows[key])
    decreases |ops|
  {
    if ops != [] {
      match ops[0] {
        case Ask(q) =>
          assert now + q.toDecide + q.handlerTime <= EndOf(now, ops);
          StoredRowRepeats(Serve(rows, now, q).0, now + q.toDecide + q.handlerTime, ops[1..], key);
        case Wait(elapsed) => StoredRowRepeats(rows, now + elapsed, ops[1..], key);
        case Sweep =>
          assert now <= EndOf(now, ops);
          StoredRowRepeats(Swept(rows, now), now, ops[1..], key);
      }
    }
  }

  /** Replay fidelity: after a request whose handler ran and whose JSON 2xx
      response was stored, every non-overlapping request of the key up to 24
      hours later gets that same status and body, and runs no handler. */
  lemma {:induction false} ReplaysFor24Hours(rows: Rows, now: nat, q: Request, ops: seq<Op>)
    requires Applies(q) && Keeps(q) && !(q.key in rows && now + q.toDecide <= rows[q.key].expiresAt)
    requires
      var done := now + q.toDecide + q.handlerTime;
      EndOf(done, ops) <= done + 86_400_000
    ensures
      var done, rows' := now + q.toDecide + q.handlerTime, Serve(rows, now, q).0;
      && q.key in rows' && AllRepeat(rows', done, ops, q.key, rows'[q.key])
      && Replay(q.key, rows'[q.key]).status == q.response.status
      && (q.response.body.Structured? <==> Structured(rows'[q.key].response) == q.response.body)
  {
    ServeLaw(rows, now, q);
    StoredRowRepeats(Serve(rows, now, q).0, now + q.toDecide + q.handlerTime, ops, q.key);
  }
}
