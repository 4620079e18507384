/**
 The idempotency middleware as a machine over concurrent requests: lookup,
 decision, delete of an expired row, handler response, `finish` callback and
 store are separate events, and so is the cleanup task.
 */
module Idempotency {
  import opened Runs
  import opened Wrappers
  import opened Json

  const TTL: nat := 24 * 60 * 60 * 1000

  type RequestId = nat

  /** A response body: text that is the JSON of a value, other text, or none. */
  datatype Body = Structured(value: Json) | Raw(text: string) | Missing

  /** What the handler sent through `res.send`, if it used it at all. */
  datatype Response = Sent(status: nat, body: Body) | Unsent

  datatype Row = Row(status: nat, response: Json, expiresAt: nat)

  datatype Phase =
    | Unguarded
    | Waiting(key: string)
    | LookedUp(key: string, row: Option<Row>)
    | Deleting(key: string, row: Option<Row>)
    | Handling(key: string, captured: bool)
    | Responded(key: string, captured: bool, response: Response)
    | Storing(key: string, response: Response, expiresAt: nat)
    | Served(key: string, response: Response)
    | Replayed(key: string, status: nat, body: Body)

  datatype State = State(clock: nat, rows: map<string, Row>, reqs: map<RequestId, Phase>, stores: multiset<string>)

  datatype Event =
    | Tick(elapsed: nat)
    | Cleanup
    | Begin(r: RequestId, httpMethod: string, key: string)
    | Lookup(r: RequestId)
    | Decide(r: RequestId)
    | DeleteExpired(r: RequestId)
    | Respond(r: RequestId, response: Response)
    | Finish(r: RequestId)
    | Store(r: RequestId)

  function Move(s: State, r: RequestId, p: Phase): State { s.(reqs := s.reqs[r := p]) }

  predicate Guarded(httpMethod: string, key: string) {
    httpMethod in {"POST", "PUT", "PATCH"} && key != ""
  }

  predicate Successful(status: nat) { 200 <= status < 300 }

  /** `JSON.parse` of a string body, kept as the string when it does not parse. */
  function Parsed(b: Body): Json
    requires !b.Missing?
  {
    if b.Structured? then b.value else JStr(b.text)
  }

  /** The store refuses a missing body, and a JSON null in a required column. */
  predicate Storable(b: Body) { !b.Missing? && !Parsed(b).JNull? }

  /** `status(row.statusCode || 200).json(row.response)`. */
  function Replay(key: string, row: Row): Phase {
    Replayed(key, if row.status == 0 then 200 else row.status, Structured(row.response))
  }

  function DoLookup(s: State, r: RequestId): State {
    if r !in s.reqs || !s.reqs[r].Waiting? then s
    else
      var key := s.reqs[r].key;
      Move(s, r, LookedUp(key, if key in s.rows then Some(s.rows[key]) else None))
  }

  function DoDecide(s: State, r: RequestId): State {
    if r !in s.reqs || !s.reqs[r].LookedUp? then s
    else
      var p := s.reqs[r];
      if p.row.None? then Move(s, r, Handling(p.key, true))
      else if p.row.value.expiresAt < s.clock then Move(s, r, Deleting(p.key, p.row))
      else Move(s, r, Replay(p.key, p.row.value))
  }

  /** Deletes by key, whatever row is there; when there is none the middleware
      error path runs the handler without capturing its response. */
  function DoDelete(s: State, r: RequestId): State {
    if r !in s.reqs || !s.reqs[r].Deleting? then s
    else
      var key := s.reqs[r].key;
      if key in s.rows then Move(s, r, Handling(key, true)).(rows := s.rows - {key})
      else Move(s, r, Handling(key, false))
  }

  function DoRespond(s: State, r: RequestId, response: Response): State {
    if r !in s.reqs || !s.reqs[r].Handling? then s
    else Move(s, r, Responded(s.reqs[r].key, s.reqs[r].captured, response))
  }

  function DoFinish(s: State, r: RequestId): State {
    if r !in s.reqs || !s.reqs[r].Responded? then s
    else
      var p := s.reqs[r];
      if p.captured && p.response.Sent? && Successful(p.response.status) then
        Move(s, r, Storing(p.key, p.response, s.clock + TTL))
      else Move(s, r, Served(p.key, p.response))
  }

  /** `create` fails on a duplicate key; the failure is logged and dropped. */
  function DoStore(s: State, r: RequestId): State {
    if r !in s.reqs || !s.reqs[r].Storing? then s
    else
      var p := s.reqs[r];
      if p.response.Sent? && Storable(p.response.body) && p.key !in s.rows then
        Move(s, r, Served(p.key, p.response)).(
          rows := s.rows[p.key := Row(p.response.status, Parsed(p.response.body), p.expiresAt)],
          stores := s.stores + multiset{p.key})
      else Move(s, r, Served(p.key, p.response))
  }

  function Step(s: State, e: Event): State {
    match e
    case Tick(elapsed) => s.(clock := s.clock + elapsed)
    case Cleanup => s.(rows := map k | k in s.rows && s.rows[k].expiresAt >= s.clock :: s.rows[k])
    case Begin(r, httpMethod, key) =>
      if r in s.reqs then s else Move(s, r, if Guarded(httpMethod, key) then Waiting(key) else Unguarded)
    case Lookup(r) => DoLookup(s, r)
    case Decide(r) => DoDecide(s, r)
    case DeleteExpired(r) => DoDelete(s, r)
    case Respond(r, response) => DoRespond(s, r, response)
    case Finish(r) => DoFinish(s, r)
    case Store(r) => DoStore(s, r)
  }

  function Exec(s: State, es: seq<Event>): State { Run(Step, s, es) }

  predicate Initial(s: State) { s.rows == map[] && s.reqs == map[] && s.stores == multiset{} }

  // ---- rows are never overwritten, and vanish early for one reason only ----

  /** A row a request is about to delete had expired when it was looked up. */
  ghost predicate DeletesExpired(s: State) {
    forall r | r in s.reqs && s.reqs[r].Deleting? :: s.reqs[r].row.Some? && s.reqs[r].row.value.expiresAt < s.clock
  }

  lemma StepKeepsDeletes(s: State, e: Event)
    requires DeletesExpired(s)
    ensures DeletesExpired(Step(s, e))
  {
  }

  lemma {:induction false} ExecKeepsDeletes(s: State, es: seq<Event>)
    requires DeletesExpired(s)
    ensures DeletesExpired(Exec(s, es))
  {
    hide Step, DeletesExpired;
    if es != [] {
      ExecKeepsDeletes(s, es[..|es| - 1]);
      StepKeepsDeletes(Exec(s, es[..|es| - 1]), es[|es| - 1]);
    }
  }

  lemma StepNeverReplaces(s: State, e: Event, key: string)
    requires key in s.rows && key in Step(s, e).rows
    ensures Step(s, e).rows[key] == s.rows[key]
  {
  }

  /** A stored row is never overwritten: over any stretch of a run in which the
      key keeps a row, it is the same row. */
  lemma {:induction false} NeverOverwritten(s: State, es: seq<Event>, key: string)
    requires forall n | 0 <= n <= |es| :: key in Exec(s, es[..n]).rows
    ensures key in s.rows && key in Exec(s, es).rows && Exec(s, es).rows[key] == s.rows[key]
  {
    assert es[..0] == [] && es[..|es|] == es;
    assert key in Exec(s, es[..0]).rows && key in Exec(s, es[..|es|]).rows;
    if es != [] {
      hide Step;
      var init := es[..|es| - 1];
      forall n | 0 <= n <= |init| ensures key in Exec(s, init[..n]).rows { assert init[..n] == es[..n]; }
      NeverOverwritten(s, init, key);
      StepNeverReplaces(Exec(s, init), es[|es| - 1], key);
    }
  }

  /** A row that vanishes before its expiry was deleted by a request that had
      looked up an earlier row of the key, expired by then. */
  lemma {:induction false} EarlyVanishing(s: State, es: seq<Event>, e: Event, key: string)
    requires Initial(s)
    requires key in Exec(s, es).rows && key !in Exec(s, es + [e]).rows
    requires Exec(s, es).rows[key].expiresAt >= Exec(s, es).clock
    ensures
      var a := Exec(s, es);
      && e.DeleteExpired? && e.r in a.reqs && a.reqs[e.r].Deleting? && a.reqs[e.r].key == key
      && a.reqs[e.r].row.Some?
      && a.reqs[e.r].row.value.expiresAt < a.clock <= a.rows[key].expiresAt
  {
    assert (es + [e])[..|es|] == es;
    ExecKeepsDeletes(s, es);
  }

  // ---- a stored row is a handler's response ----

  function ResponseOf(p: Phase): Option<Response> {
    match p
    case Responded(_, _, response) => Some(response)
    case Storing(_, response, _) => Some(response)
    case Served(_, response) => Some(response)
    case _ => None
  }

  predicate RanUnder(p: Phase, key: string) { ResponseOf(p).Some? && p.key == key }

  predicate Holds(row: Row, response: Response) {
    && response.Sent? && Successful(response.status) && Storable(response.body)
    && row.status == response.status && row.response == Parsed(response.body)
  }

  /** Some request made under the key ran its handler and got this response. */
  ghost predicate FromHandler(s: State, key: string) {
    key in s.rows ==>
      exists r :: r in s.reqs && RanUnder(s.reqs[r], key) && Holds(s.rows[key], ResponseOf(s.reqs[r]).value)
  }

  ghost predicate StoringOk(s: State) {
    forall r | r in s.reqs && s.reqs[r].Storing? :: s.reqs[r].response.Sent? && Successful(s.reqs[r].response.status)
  }

  lemma ResponseStays(s: State, e: Event, r: RequestId)
    requires r in s.reqs && ResponseOf(s.reqs[r]).Some?
    ensures r in Step(s, e).reqs
    ensures ResponseOf(Step(s, e).reqs[r]) == ResponseOf(s.reqs[r]) && Step(s, e).reqs[r].key == s.reqs[r].key
  {
  }

  lemma StepKeepsSource(s: State, e: Event, key: string)
    requires FromHandler(s, key) && StoringOk(s)
    ensures FromHandler(Step(s, e), key) && StoringOk(Step(s, e))
  {
    var s' := Step(s, e);
    if key in s'.rows {
      if key in s.rows {
        var r :| r in s.reqs && RanUnder(s.reqs[r], key) && Holds(s.rows[key], ResponseOf(s.reqs[r]).value);
        ResponseStays(s, e, r);
        assert RanUnder(s'.reqs[r], key);
      } else {
        assert RanUnder(s'.reqs[e.r], key) && Holds(s'.rows[key], ResponseOf(s'.reqs[e.r]).value);
      }
    }
  }

  /** In every reachable state a stored row holds the 2xx response of a handler
      run made under its key. */
  lemma {:induction false} RowIsAHandlersResponse(s: State, es: seq<Event>, key: string)
    requires Initial(s)
    ensures FromHandler(Exec(s, es), key) && StoringOk(Exec(s, es))
  {
    if es != [] {
      hide Step, FromHandler, StoringOk;
      RowIsAHandlersResponse(s, es[..|es| - 1], key);
      StepKeepsSource(Exec(s, es[..|es| - 1]), es[|es| - 1], key);
    }
  }
}
