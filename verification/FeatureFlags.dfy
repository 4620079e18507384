/**
 The read-through flag cache against the bare table, one operation at a time.
 */
module FeatureFlags {
  import opened Wrappers
  import opened SharedCache

  const CACHE_TTL: nat := 300000

  datatype FlagRow = FlagRow(name: string, description: Option<string>, enabled: bool)

  type Table = map<string, FlagRow>

  datatype Op =
    | IsEnabled(key: string)
    | Enable(key: string)
    | Disable(key: string)
    | Toggle(key: string)
    | Create(key: string, row: FlagRow)
    | Delete(key: string)
    | FindOne(key: string)
    | Wait(elapsed: nat)

  datatype Reply = Answer(enabled: bool) | Row(row: Option<FlagRow>) | Done | Failed

  function Value(t: Table, key: string): bool { key in t && t[key].enabled }

  // ---- the service with no cache ----

  function Upserted(t: Table, key: string, enabled: bool): Table {
    t[key := if key in t then t[key].(enabled := enabled) else FlagRow(key, Some("Feature flag for " + key), enabled)]
  }

  function PlainStep(t: Table, op: Op): (r: (Table, Reply)) {
    match op
    case IsEnabled(key) => (t, Answer(Value(t, key)))
    case Enable(key) => (Upserted(t, key, true), Done)
    case Disable(key) => if key in t then (t[key := t[key].(enabled := false)], Done) else (t, Failed)
    case Toggle(key) =>
      if key in t then (t[key := t[key].(enabled := !t[key].enabled)], Answer(!t[key].enabled)) else (t, Failed)
    case Create(key, row) => if key in t then (t, Failed) else (t[key := row], Row(Some(row)))
    case Delete(key) => if key in t then (t - {key}, Done) else (t, Failed)
    case FindOne(key) => (t, Row(if key in t then Some(t[key]) else None))
    case Wait(_) => (t, Done)
  }

  // ---- the service as written ----

  datatype State = State(table: Table, cache: map<string, Entry<bool>>, clock: nat)

  /** Every write but `create` deletes the key's entry, and only once the
      database call has succeeded. */
  function CachedStep(s: State, op: Op): (State, Reply) {
    var (t, reply) := PlainStep(s.table, op);
    match op
    case IsEnabled(key) =>
      if Live(s.cache, key, s.clock) then (s, Answer(s.cache[key].value))
      else (s.(cache := s.cache[key := Entry(Value(s.table, key), s.clock + CACHE_TTL)]), Answer(Value(s.table, key)))
    case FindOne(_) => (s, reply)
    case Wait(elapsed) => (s.(clock := s.clock + elapsed), reply)
    case Create(_, _) => (s.(table := t), reply)
    case _ => if reply.Failed? then (s, reply) else (s.(table := t, cache := s.cache - {op.key}), reply)
  }

  /** Every live entry tells the table's value. */
  ghost predicate Coherent(s: State) {
    forall k | Live(s.cache, k, s.clock) :: s.cache[k].value == Value(s.table, k)
  }

  /** The one bad write: creating an enabled flag over a live negative entry. */
  predicate StaleCreate(s: State, op: Op) {
    && op.Create? && op.key !in s.table && op.row.enabled
    && Live(s.cache, op.key, s.clock) && !s.cache[op.key].value
  }

  /** In a coherent state each operation replies and writes as if there were no
      cache, and keeps the cache coherent unless it is the bad create. */
  lemma StepRefines(s: State, op: Op)
    requires Coherent(s)
    ensures CachedStep(s, op).1 == PlainStep(s.table, op).1
    ensures CachedStep(s, op).0.table == PlainStep(s.table, op).0
    ensures Coherent(CachedStep(s, op).0) <==> !StaleCreate(s, op)
  {
  }

  function CachedRun(s: State, ops: seq<Op>): (State, seq<Reply>) {
    if ops == [] then (s, [])
    else
      var (s', replies) := CachedRun(s, ops[..|ops| - 1]);
      var (s'', reply) := CachedStep(s', ops[|ops| - 1]);
      (s'', replies + [reply])
  }

  function PlainRun(t: Table, ops: seq<Op>): (Table, seq<Reply>) {
    if ops == [] then (t, [])
    else
      var (t', replies) := PlainRun(t, ops[..|ops| - 1]);
      var (t'', reply) := PlainStep(t', ops[|ops| - 1]);
      (t'', replies + [reply])
  }

  /** No operation of the run is the bad create where it happens. */
  ghost predicate NoStaleCreate(s: State, ops: seq<Op>) {
    forall i | 0 <= i < |ops| :: !StaleCreate(CachedRun(s, ops[..i]).0, ops[i])
  }

  /** Cached flags refine uncached flags: over every sequence of operations and
      clock advances without a bad create, every reply and the table itself are
      those of the service with no cache. */
  lemma {:induction false} CachedRefinesPlain(s: State, ops: seq<Op>)
    requires Coherent(s) && NoStaleCreate(s, ops)
    ensures CachedRun(s, ops).1 == PlainRun(s.table, ops).1
    ensures CachedRun(s, ops).0.table == PlainRun(s.table, ops).0
    ensures Coherent(CachedRun(s, ops).0)
  {
    if ops != [] {
      var n := |ops| - 1;
      assert forall i | 0 <= i < n :: ops[..n][..i] == ops[..i];
      CachedRefinesPlain(s, ops[..n]);
      StepRefines(CachedRun(s, ops[..n]).0, ops[n]);
    }
  }

  /** The condition is exact: right after a bad create the service says "off"
      where the table says "on". */
  lemma StaleCreateShows(s: State, op: Op)
    requires Coherent(s) && StaleCreate(s, op)
    ensures var s' := CachedStep(s, op).0;
            CachedStep(s', IsEnabled(op.key)).1 == Answer(false) && PlainStep(s'.table, IsEnabled(op.key)).1 == Answer(true)
  {
  }

  /** So a next answer can differ from the bare table exactly after a bad create. */
  lemma DiffersIffStaleCreate(s: State, op: Op)
    requires Coherent(s)
    ensures StaleCreate(s, op) <==>
            exists k :: CachedStep(CachedStep(s, op).0, IsEnabled(k)).1 != Answer(Value(PlainStep(s.table, op).0, k))
  {
    StepRefines(s, op);
    if StaleCreate(s, op) {
      StaleCreateShows(s, op);
      assert CachedStep(CachedStep(s, op).0, IsEnabled(op.key)).1 != Answer(Value(PlainStep(s.table, op).0, op.key));
    } else {
      forall k ensures CachedStep(CachedStep(s, op).0, IsEnabled(k)).1 == Answer(Value(PlainStep(s.table, op).0, k)) {
        StepRefines(CachedStep(s, op).0, IsEnabled(k));
      }
    }
  }

  /** Reading the key after the first `n` operations tells what the bare table,
      had there been no cache, would. */
  ghost predicate ReadsAgree(s: State, ops: seq<Op>, n: nat, k: string)
    requires n <= |ops|
  {
    CachedStep(CachedRun(s, ops[..n]).0, IsEnabled(k)).1 == Answer(Value(PlainRun(s.table, ops[..n]).0, k))
  }

  lemma {:induction false} FirstStaleCreate(s: State, ops: seq<Op>) returns (n: nat)
    requires !NoStaleCreate(s, ops)
    ensures n < |ops| && StaleCreate(CachedRun(s, ops[..n]).0, ops[n]) && NoStaleCreate(s, ops[..n])
  {
    hide CachedRun, StaleCreate;
    n := 0;
    while !StaleCreate(CachedRun(s, ops[..n]).0, ops[n])
      invariant n < |ops|
      invariant forall i | 0 <= i < n :: !StaleCreate(CachedRun(s, ops[..i]).0, ops[i])
      invariant exists i | n <= i < |ops| :: StaleCreate(CachedRun(s, ops[..i]).0, ops[i])
      decreases |ops| - n
    {
      n := n + 1;
    }
    assert forall i | 0 <= i < n :: ops[..n][..i] == ops[..i];
  }

  /** Over a run of non-overlapping operations every read at every point of it would
      tell what a service with no cache tells, if and only if no operation of the
      run is the bad create. */
  lemma {:induction false} ReadsAgreeIff(s: State, ops: seq<Op>)
    requires Coherent(s)
    ensures NoStaleCreate(s, ops) <==> forall n, k | 0 <= n <= |ops| :: ReadsAgree(s, ops, n, k)
  {
    hide CachedRun, PlainRun, StaleCreate, CachedStep, PlainStep, Coherent;
    if NoStaleCreate(s, ops) {
      forall n, k | 0 <= n <= |ops| ensures ReadsAgree(s, ops, n, k) {
        assert forall i | 0 <= i < n :: ops[..n][..i] == ops[..i];
        CachedRefinesPlain(s, ops[..n]);
        ReadTells(CachedRun(s, ops[..n]).0, k);
      }
    } else {
      var n := FirstStaleCreate(s, ops);
      CachedRefinesPlain(s, ops[..n]);
      var a := CachedRun(s, ops[..n]).0;
      DiffersIffStaleCreate(a, ops[n]);
      OneMore(s, ops, n);
      var k :| CachedStep(CachedStep(a, ops[n]).0, IsEnabled(k)).1 != Answer(Value(PlainStep(a.table, ops[n]).0, k));
      assert !ReadsAgree(s, ops, n + 1, k);
    }
  }

  lemma ReadTells(s: State, k: string)
    requires Coherent(s)
    ensures CachedStep(s, IsEnabled(k)).1 == Answer(Value(s.table, k))
  {
  }

  lemma OneMore(s: State, ops: seq<Op>, n: nat)
    requires n < |ops|
    ensures CachedRun(s, ops[..n + 1]).0 == CachedStep(CachedRun(s, ops[..n]).0, ops[n]).0
    ensures PlainRun(s.table, ops[..n + 1]).0 == PlainStep(PlainRun(s.table, ops[..n]).0, ops[n]).0
  {
    assert ops[..n + 1][..n] == ops[..n];
  }

  // ---- what each operation means to a caller ----

  /** Nothing but the key's row and entry differs. */
  ghost predicate OnlyKey(s: State, s': State, key: string) {
    s'.clock == s.clock && s'.table - {key} == s.table - {key} && s'.cache - {key} == s.cache - {key}
  }

  function NextAnswer(s: State, key: string): Reply { CachedStep(s, IsEnabled(key)).1 }

  /** A live entry answers and nothing changes; otherwise the table answers, a
      missing flag counting as off, and the answer is kept for five minutes. */
  lemma {:induction false} IsEnabledLaw(s: State, key: string)
    ensures
      var (s', r) := CachedStep(s, IsEnabled(key));
      && (key in s.cache && s.clock < s.cache[key].expiresAt ==> s' == s && r == Answer(s.cache[key].value))
      && (!(key in s.cache && s.clock < s.cache[key].expiresAt) ==>
            var on := key in s.table && s.table[key].enabled;
            && r == Answer(on) && s'.table == s.table && OnlyKey(s, s', key)
            && key in s'.cache && s'.cache[key] == Entry(on, s.clock + 300_000))
  {
  }

  /** Toggling replies with the new state, which the next read answers, and which
      differs from the state before; a missing flag fails and changes nothing. */
  lemma {:induction false} ToggleLaw(s: State, key: string)
    ensures
      var (s', r) := CachedStep(s, Toggle(key));
      if key in s.table then
        && r.Answer? && NextAnswer(s', key) == r && r.enabled != s.table[key].enabled
        && OnlyKey(s, s', key) && key in s'.table
        && s'.table[key].enabled == r.enabled
        && s'.table[key].name == s.table[key].name && s'.table[key].description == s.table[key].description
      else r == Failed && s' == s
  {
  }

  /** Enabling makes the next read answer "on"; a missing flag is created, named
      by its key. */
  lemma {:induction false} EnableLaw(s: State, key: string)
    ensures
      var (s', r) := CachedStep(s, Enable(key));
      && r == Done && NextAnswer(s', key) == Answer(true) && OnlyKey(s, s', key)
      && key in s'.table && s'.table[key].enabled
      && (key in s.table ==> s'.table[key].name == s.table[key].name && s'.table[key].description == s.table[key].description)
      && (key !in s.table ==> s'.table[key].name == key && s'.table[key].description == Some("Feature flag for " + key))
  {
  }

  /** Disabling makes the next read answer "off"; a missing flag fails. */
  lemma {:induction false} DisableLaw(s: State, key: string)
    ensures
      var (s', r) := CachedStep(s, Disable(key));
      if key in s.table then
        && r == Done && NextAnswer(s', key) == Answer(false) && OnlyKey(s, s', key)
        && key in s'.table && !s'.table[key].enabled
        && s'.table[key].name == s.table[key].name && s'.table[key].description == s.table[key].description
      else r == Failed && s' == s
  {
  }

  /** Creating stores and returns the row, which the next read answers unless an
      entry of the key is live; a stored key fails. */
  lemma {:induction false} CreateLaw(s: State, key: string, row: FlagRow)
    ensures
      var (s', r) := CachedStep(s, Create(key, row));
      if key in s.table then r == Failed && s' == s
      else
        && r == Row(Some(row)) && OnlyKey(s, s', key) && key in s'.table && s'.table[key] == row && s'.cache == s.cache
        && (!(key in s.cache && s.clock < s.cache[key].expiresAt) ==> NextAnswer(s', key) == Answer(row.enabled))
  {
  }

  /** Deleting makes the next read answer "off" and the flag unknown; a missing flag
      fails. */
  lemma {:induction false} DeleteLaw(s: State, key: string)
    ensures
      var (s', r) := CachedStep(s, Delete(key));
      if key in s.table then
        r == Done && NextAnswer(s', key) == Answer(false) && OnlyKey(s, s', key) && key !in s'.table
        && CachedStep(s', FindOne(key)).1 == Row(None)
      else r == Failed && s' == s
  {
  }

  /** Looking a flag up and waiting change nothing else. */
  lemma {:induction false} FindAndWaitLaw(s: State, key: string, elapsed: nat)
    ensures CachedStep(s, FindOne(key)) == (s, Row(if key in s.table then Some(s.table[key]) else None))
    ensures CachedStep(s, Wait(elapsed)) == (s.(clock := s.clock + elapsed), Done)
  {
  }

  // ---- the classes ----

  /** The feature_flags table, with a unique key. */
  class FeatureFlagRepository {
    var rows: Table

    constructor ()
      ensures rows == map[]
    {
      rows := map[];
    }

    method FindByKey(key: string) returns (row: Option<FlagRow>)
      ensures row == if key in rows then Some(rows[key]) else None
    {
      row := if key in rows then Some(rows[key]) else None;
    }

    method Create(key: string, row: FlagRow) returns (ok: bool)
      modifies this
      ensures ok == (key !in old(rows))
      ensures rows == if ok then old(rows)[key := row] else old(rows)
    {
      ok := key !in rows;
      if ok { rows := rows[key := row]; }
    }

    method UpsertEnabled(key: string, enabled: bool)
      modifies this
      ensures rows == Upserted(old(rows), key, enabled)
    {
      if key in rows {
        rows := rows[key := rows[key].(enabled := enabled)];
      } else {
        rows := rows[key := FlagRow(key, Some("Feature flag for " + key), enabled)];
      }
    }

    /** Rejects when there is no such row. */
    method UpdateEnabled(key: string, enabled: bool) returns (ok: bool)
      modifies this
      ensures ok == (key in old(rows))
      ensures rows == if ok then old(rows)[key := old(rows)[key].(enabled := enabled)] else old(rows)
    {
      ok := key in rows;
      if ok { rows := rows[key := rows[key].(enabled := enabled)]; }
    }

    /** Rejects when there is no such row. */
    method DeleteByKey(key: string) returns (ok: bool)
      modifies this
      ensures ok == (key in old(rows))
      ensures rows == old(rows) - {key}
    {
      ok := key in rows;
      rows := rows - {key};
    }
  }

  class FeatureFlagService {
    const repo: FeatureFlagRepository
    const flagCache: FeatureFlagCache

    constructor (repo: FeatureFlagRepository, flagCache: FeatureFlagCache)
      ensures this.repo == repo && this.flagCache == flagCache
    {
      this.repo, this.flagCache := repo, flagCache;
    }

    /** The tables this service reads hold the abstract state. */
    ghost predicate Is(s: State)
      reads this, repo, flagCache, flagCache.cache
    {
      repo.rows == s.table && Holds(flagCache.cache.entries, s.cache)
    }

    method IsEnabled(key: string, ghost s: State, now: nat) returns (b: bool)
      requires Is(s) && s.clock == now
      modifies flagCache.cache
      ensures Is(CachedStep(s, Op.IsEnabled(key)).0)
      ensures CachedStep(s, Op.IsEnabled(key)).1 == Answer(b)
    {
      hide Holds, Live;
      var cached := flagCache.Get(key, now, s.cache);
      if cached.Some? { return cached.value; }
      var feature := repo.FindByKey(key);
      if feature.None? {
        flagCache.Set(key, false, CACHE_TTL, now, s.cache);
        return false;
      }
      flagCache.Set(key, feature.value.enabled, CACHE_TTL, now, s.cache);
      b := feature.value.enabled;
    }

    method Enable(key: string, ghost s: State)
      requires Is(s)
      modifies repo, flagCache.cache
      ensures Is(CachedStep(s, Op.Enable(key)).0)
    {
      repo.UpsertEnabled(key, true);
      flagCache.Del(key, s.cache);
    }

    method Disable(key: string, ghost s: State) returns (r: Reply)
      requires Is(s)
      modifies repo, flagCache.cache
      ensures Is(CachedStep(s, Op.Disable(key)).0)
      ensures r == CachedStep(s, Op.Disable(key)).1
    {
      var ok := repo.UpdateEnabled(key, false);
      if !ok { return Failed; }
      flagCache.Del(key, s.cache);
      r := Done;
    }

    method Toggle(key: string, ghost s: State) returns (r: Reply)
      requires Is(s)
      modifies repo, flagCache.cache
      ensures Is(CachedStep(s, Op.Toggle(key)).0)
      ensures r == CachedStep(s, Op.Toggle(key)).1
    {
      var feature := repo.FindByKey(key);
      if feature.None? { return Failed; }
      var newState := !feature.value.enabled;
      var ok := repo.UpdateEnabled(key, newState);
      if !ok { return Failed; }
      flagCache.Del(key, s.cache);
      r := Answer(newState);
    }

    method Create(key: string, name: string, description: Option<string>, enabled: bool, ghost s: State) returns (r: Reply)
      requires Is(s)
      modifies repo
      ensures Is(CachedStep(s, Op.Create(key, FlagRow(name, description, enabled))).0)
      ensures r == CachedStep(s, Op.Create(key, FlagRow(name, description, enabled))).1
    {
      var row := FlagRow(name, description, enabled);
      var ok := repo.Create(key, row);
      r := if ok then Row(Some(row)) else Failed;
    }

    method Delete(key: string, ghost s: State) returns (r: Reply)
      requires Is(s)
      modifies repo, flagCache.cache
      ensures Is(CachedStep(s, Op.Delete(key)).0)
      ensures r == CachedStep(s, Op.Delete(key)).1
    {
      var ok := repo.DeleteByKey(key);
      if !ok { return Failed; }
      flagCache.Del(key, s.cache);
      r := Done;
    }
  }
}
