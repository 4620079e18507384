/**
 The flag cache under interleaving: every cache call and every database call is
 one event, and a run is any sequence of events.
 */
module FlagRaces {
  import opened Runs
  import opened Wrappers
  import opened SharedCache
  import FeatureFlags

  const TTL: nat := FeatureFlags.CACHE_TTL

  type CallId = nat

  /** The database half of a writer, before its invalidation. */
  datatype Write = Upsert | Update(enabled: bool) | Remove

  datatype Phase =
    | Reading(key: string, lookedAt: nat)               // missed; findByKey pending
    | Filling(key: string, value: bool, lookedAt: nat)  // found; cache set pending
    | Answered(key: string, value: bool, lookedAt: nat)
    | Toggling(key: string, newState: bool)             // found; update pending
    | Invalidating(key: string)                         // written; cache delete pending
    | Finished

  datatype State = State(table: map<string, bool>, cache: map<string, Entry<bool>>, clock: nat, calls: map<CallId, Phase>)

  datatype Event =
    | Tick(elapsed: nat)
    | Lookup(c: CallId, key: string)
    | Find(c: CallId)
    | Fill(c: CallId)
    | WriteRow(c: CallId, key: string, write: Write)
    | CreateRow(c: CallId, key: string, enabled: bool)
    | ToggleFind(c: CallId, key: string)
    | ToggleWrite(c: CallId)
    | Invalidate(c: CallId)

  function Tells(table: map<string, bool>, key: string): bool { key in table && table[key] }

  function Move(s: State, c: CallId, p: Phase): State { s.(calls := s.calls[c := p]) }

  function DoLookup(s: State, c: CallId, key: string): State {
    if c in s.calls then s
    else if Live(s.cache, key, s.clock) then Move(s, c, Answered(key, s.cache[key].value, s.clock))
    else Move(s, c, Reading(key, s.clock))
  }

  function DoFind(s: State, c: CallId): State {
    if c !in s.calls || !s.calls[c].Reading? then s
    else Move(s, c, Filling(s.calls[c].key, Tells(s.table, s.calls[c].key), s.calls[c].lookedAt))
  }

  function DoFill(s: State, c: CallId): State {
    if c !in s.calls || !s.calls[c].Filling? then s
    else
      var p := s.calls[c];
      Move(s, c, Answered(p.key, p.value, p.lookedAt)).(cache := s.cache[p.key := Entry(p.value, s.clock + TTL)])
  }

  function DoWrite(s: State, c: CallId, key: string, w: Write): State {
    if w.Upsert? then Move(s, c, Invalidating(key)).(table := s.table[key := true])
    else if key !in s.table then Move(s, c, Finished)
    else if w.Update? then Move(s, c, Invalidating(key)).(table := s.table[key := w.enabled])
    else Move(s, c, Invalidating(key)).(table := s.table - {key})
  }

  function DoCreate(s: State, c: CallId, key: string, enabled: bool): State {
    if c in s.calls then s
    else if key in s.table then Move(s, c, Finished)
    else Move(s, c, Finished).(table := s.table[key := enabled])
  }

  function DoToggleFind(s: State, c: CallId, key: string): State {
    if c in s.calls then s
    else Move(s, c, if key in s.table then Toggling(key, !s.table[key]) else Finished)
  }

  function DoInvalidate(s: State, c: CallId): State {
    if c !in s.calls || !s.calls[c].Invalidating? then s
    else Move(s, c, Finished).(cache := s.cache - {s.calls[c].key})
  }

  function Step(s: State, e: Event): State {
    match e
    case Tick(elapsed) => s.(clock := s.clock + elapsed)
    case Lookup(c, key) => DoLookup(s, c, key)
    case Find(c) => DoFind(s, c)
    case Fill(c) => DoFill(s, c)
    case WriteRow(c, key, w) => if c in s.calls then s else DoWrite(s, c, key, w)
    case CreateRow(c, key, enabled) => DoCreate(s, c, key, enabled)
    case ToggleFind(c, key) => DoToggleFind(s, c, key)
    case ToggleWrite(c) =>
      if c !in s.calls || !s.calls[c].Toggling? then s
      else DoWrite(s, c, s.calls[c].key, Update(s.calls[c].newState))
    case Invalidate(c) => DoInvalidate(s, c)
  }

  function Exec(s: State, es: seq<Event>): State { Run(Step, s, es) }

  predicate Initial(s: State) { s.cache == map[] && s.calls == map[] }

  // ---- where an answer comes from ----

  /** Event `i` is call `c`'s cache lookup of `key`, at time `at`. */
  ghost predicate LookedUp(s: State, es: seq<Event>, c: CallId, key: string, at: nat, i: nat) {
    i < |es| && es[i] == Lookup(c, key) && Exec(s, es[..i]).clock == at
  }

  /** Event `i` is call `c`'s `findByKey`, which read `value` from the table. */
  ghost predicate ReadRow(s: State, es: seq<Event>, c: CallId, key: string, value: bool, i: nat) {
    i < |es| && es[i] == Find(c) && Tells(Exec(s, es[..i]).table, key) == value
  }

  /** Event `j` is call `c`'s cache set, made good until `until`. */
  ghost predicate Filled(s: State, es: seq<Event>, c: CallId, until: nat, j: nat) {
    j < |es| && es[j] == Fill(c) && until == Exec(s, es[..j]).clock + TTL
  }

  /** The entry was set by a call that had read its value from the table. */
  ghost predicate EntrySource(s: State, es: seq<Event>, key: string, entry: Entry<bool>) {
    exists d: CallId, i: nat, j: nat ::
      i < j && ReadRow(s, es, d, key, entry.value, i) && Filled(s, es, d, entry.expiresAt, j)
  }

  ghost predicate MissSource(s: State, es: seq<Event>, c: CallId, key: string, value: bool, at: nat) {
    exists l: nat, i: nat :: l < i && LookedUp(s, es, c, key, at, l) && ReadRow(s, es, c, key, value, i)
  }

  /** A set before event `l`, good until `until`, carried a value read before it. */
  ghost predicate FilledBefore(s: State, es: seq<Event>, key: string, value: bool, until: nat, l: nat) {
    exists d: CallId, i: nat, j: nat :: i < j < l && ReadRow(s, es, d, key, value, i) && Filled(s, es, d, until, j)
  }

  ghost predicate HitSource(s: State, es: seq<Event>, c: CallId, key: string, value: bool, at: nat) {
    exists l: nat, until: nat :: at < until && FilledBefore(s, es, key, value, until, l) && LookedUp(s, es, c, key, at, l)
  }

  ghost predicate Explained(s: State, es: seq<Event>, c: CallId, p: Phase) {
    match p
    case Reading(key, at) => exists l: nat :: LookedUp(s, es, c, key, at, l)
    case Filling(key, value, at) => MissSource(s, es, c, key, value, at)
    case Answered(key, value, at) => MissSource(s, es, c, key, value, at) || HitSource(s, es, c, key, value, at)
    case _ => true
  }

  ghost predicate Sourced(s: State, es: seq<Event>, key: string) {
    key in Exec(s, es).cache ==> EntrySource(s, es, key, Exec(s, es).cache[key])
  }

  // ---- facts about a run stay true as it grows ----

  lemma EventsLater(s: State, es: seq<Event>, e: Event, key: string)
    ensures forall c: CallId, at: nat, i: nat | LookedUp(s, es, c, key, at, i) :: LookedUp(s, es + [e], c, key, at, i)
    ensures forall c: CallId, v: bool, i: nat | ReadRow(s, es, c, key, v, i) :: ReadRow(s, es + [e], c, key, v, i)
    ensures forall c: CallId, until: nat, i: nat | Filled(s, es, c, until, i) :: Filled(s, es + [e], c, until, i)
  {
    hide Run;
    assert forall i: nat | i < |es| :: (es + [e])[..i] == es[..i];
  }

  lemma EntryLater(s: State, es: seq<Event>, e: Event, key: string, entry: Entry<bool>)
    requires EntrySource(s, es, key, entry)
    ensures EntrySource(s, es + [e], key, entry)
  {
    EventsLater(s, es, e, key);
    hide ReadRow, Filled;
  }

  lemma MissLater(s: State, es: seq<Event>, e: Event, c: CallId, key: string, value: bool, at: nat)
    requires MissSource(s, es, c, key, value, at)
    ensures MissSource(s, es + [e], c, key, value, at)
  {
    EventsLater(s, es, e, key);
    hide LookedUp, ReadRow;
  }

  lemma FilledLater(s: State, es: seq<Event>, e: Event, key: string, value: bool, until: nat, l: nat)
    requires FilledBefore(s, es, key, value, until, l)
    ensures FilledBefore(s, es + [e], key, value, until, l)
  {
    EventsLater(s, es, e, key);
    hide ReadRow, Filled;
  }

  lemma HitLater(s: State, es: seq<Event>, e: Event, c: CallId, key: string, value: bool, at: nat)
    requires HitSource(s, es, c, key, value, at)
    ensures HitSource(s, es + [e], c, key, value, at)
  {
    hide LookedUp, FilledBefore;
    var l: nat, until: nat :| at < until && FilledBefore(s, es, key, value, until, l) && LookedUp(s, es, c, key, at, l);
    EventsLater(s, es, e, key);
    FilledLater(s, es, e, key, value, until, l);
  }

  lemma LookLater(s: State, es: seq<Event>, e: Event, c: CallId, key: string, at: nat, l: nat)
    requires LookedUp(s, es, c, key, at, l)
    ensures LookedUp(s, es + [e], c, key, at, l)
  {
    assert (es + [e])[..l] == es[..l];
  }

  lemma ExplainedLater(s: State, es: seq<Event>, e: Event, c: CallId, p: Phase)
    requires Explained(s, es, c, p)
    ensures Explained(s, es + [e], c, p)
  {
    hide Run, HitSource, MissSource;
    match p {
      case Reading(key, at) =>
        var l: nat :| LookedUp(s, es, c, key, at, l);
        LookLater(s, es, e, c, key, at, l);
      case Filling(key, value, at) => MissLater(s, es, e, c, key, value, at);
      case Answered(key, value, at) =>
        if MissSource(s, es, c, key, value, at) { MissLater(s, es, e, c, key, value, at); }
        else { HitLater(s, es, e, c, key, value, at); }
      case _ =>
    }
  }

  // ---- each event keeps them ----

  predicate Owns(e: Event, c: CallId) { !e.Tick? && e.c == c }

  lemma OthersUntouched(s: State, e: Event, c: CallId)
    requires !Owns(e, c)
    ensures c in Step(s, e).calls <==> c in s.calls
    ensures c in s.calls ==> Step(s, e).calls[c] == s.calls[c]
  {
  }

  lemma LookupExplains(s: State, es: seq<Event>, c: CallId, key: string)
    requires c !in Exec(s, es).calls && Sourced(s, es, key)
    ensures Explained(s, es + [Lookup(c, key)], c, DoLookup(Exec(s, es), c, key).calls[c])
  {
    hide Run;
    var a, es' := Exec(s, es), es + [Lookup(c, key)];
    assert es'[..|es|] == es;
    assert LookedUp(s, es', c, key, a.clock, |es|);
    if Live(a.cache, key, a.clock) {
      var entry := a.cache[key];
      var d: CallId, i: nat, j: nat :| i < j && ReadRow(s, es, d, key, entry.value, i) && Filled(s, es, d, entry.expiresAt, j);
      assert es'[..i] == es[..i] && es'[..j] == es[..j];
      assert ReadRow(s, es', d, key, entry.value, i) && Filled(s, es', d, entry.expiresAt, j);
      assert FilledBefore(s, es', key, entry.value, entry.expiresAt, |es|);
    }
  }

  lemma FindExplains(s: State, es: seq<Event>, c: CallId)
    requires c in Exec(s, es).calls && Exec(s, es).calls[c].Reading?
    requires Explained(s, es, c, Exec(s, es).calls[c])
    ensures Explained(s, es + [Find(c)], c, DoFind(Exec(s, es), c).calls[c])
  {
    hide Run;
    var p, es' := Exec(s, es).calls[c], es + [Find(c)];
    assert es'[..|es|] == es;
    var l: nat :| LookedUp(s, es, c, p.key, p.lookedAt, l);
    LookLater(s, es, Find(c), c, p.key, p.lookedAt, l);
    assert ReadRow(s, es', c, p.key, Tells(Exec(s, es).table, p.key), |es|);
  }

  /** A phase other than a lookup's or a find's result was already explained. */
  lemma OwnStepKinds(s: State, e: Event, c: CallId)
    requires Owns(e, c) && c in Step(s, e).calls && (c in s.calls ==> Step(s, e).calls[c] != s.calls[c])
    ensures var p' := Step(s, e).calls[c];
            || (c !in s.calls && e == Lookup(c, e.key) && p' == DoLookup(s, c, e.key).calls[c])
            || (c in s.calls && s.calls[c].Reading? && e == Find(c) && p' == DoFind(s, c).calls[c])
            || (c in s.calls && s.calls[c].Filling? && p' == Answered(s.calls[c].key, s.calls[c].value, s.calls[c].lookedAt))
            || p'.Toggling? || p'.Invalidating? || p'.Finished?
  {
  }

  lemma StepExplains(s: State, es: seq<Event>, e: Event, c: CallId)
    requires c in Exec(s, es).calls ==> Explained(s, es, c, Exec(s, es).calls[c])
    requires forall key :: Sourced(s, es, key)
    requires c in Step(Exec(s, es), e).calls
    ensures Explained(s, es + [e], c, Step(Exec(s, es), e).calls[c])
  {
    hide Run, Step, Sourced;
    var a := Exec(s, es);
    if !Owns(e, c) || (c in a.calls && Step(a, e).calls[c] == a.calls[c]) {
      if !Owns(e, c) { OthersUntouched(a, e, c); }
      ExplainedLater(s, es, e, c, a.calls[c]);
    } else {
      OwnStepKinds(a, e, c);
      if c !in a.calls {
        if e.Lookup? { LookupExplains(s, es, c, e.key); }
      } else if a.calls[c].Reading? {
        if e.Find? { FindExplains(s, es, c); }
      } else {
        ExplainedLater(s, es, e, c, a.calls[c]);
      }
    }
  }

  lemma StepSources(s: State, es: seq<Event>, e: Event, key: string)
    requires forall c | c in Exec(s, es).calls :: Explained(s, es, c, Exec(s, es).calls[c])
    requires Sourced(s, es, key)
    ensures Sourced(s, es + [e], key)
  {
    hide Step, EntrySource, Explained;
    var a, es' := Exec(s, es), es + [e];
    assert es'[..|es|] == es;
    if key in Step(a, e).cache {
      if key in a.cache && Step(a, e).cache[key] == a.cache[key] {
        EntryLater(s, es, e, key, a.cache[key]);
      } else {
        OnlyFillsSet(a, e, key);
        MissIsSource(s, es, e.c, a.calls[e.c]);
      }
    }
  }

  lemma OnlyFillsSet(s: State, e: Event, key: string)
    requires key in Step(s, e).cache && !(key in s.cache && Step(s, e).cache[key] == s.cache[key])
    ensures e.Fill? && e.c in s.calls && s.calls[e.c].Filling? && s.calls[e.c].key == key
    ensures Step(s, e).cache[key] == Entry(s.calls[e.c].value, s.clock + TTL)
  {
  }

  lemma MissIsSource(s: State, es: seq<Event>, c: CallId, p: Phase)
    requires p.Filling? && Explained(s, es, c, p)
    ensures EntrySource(s, es + [Fill(c)], p.key, Entry(p.value, Exec(s, es).clock + TTL))
  {
    hide Run;
    var es' := es + [Fill(c)];
    var l: nat, i: nat :| l < i && LookedUp(s, es, c, p.key, p.lookedAt, l) && ReadRow(s, es, c, p.key, p.value, i);
    assert es'[..|es|] == es && es'[..i] == es[..i];
    assert ReadRow(s, es', c, p.key, p.value, i) && Filled(s, es', c, Exec(s, es).clock + TTL, |es|);
  }

  lemma {:induction false} ExecExplains(s: State, es: seq<Event>)
    requires Initial(s)
    ensures forall c | c in Exec(s, es).calls :: Explained(s, es, c, Exec(s, es).calls[c])
    ensures forall key :: Sourced(s, es, key)
  {
    hide Step, Explained;
    if es == [] {
      assert Exec(s, es) == s;
    } else {
      var init, e := es[..|es| - 1], es[|es| - 1];
      assert init + [e] == es;
      ExecExplains(s, init);
      forall c | c in Exec(s, es).calls ensures Explained(s, es, c, Exec(s, es).calls[c]) {
        StepExplains(s, init, e, c);
      }
      forall key ensures Sourced(s, es, key) { StepSources(s, init, e, key); }
    }
  }

  lemma {:induction false} ClockGrows(s: State, es: seq<Event>, i: nat, j: nat)
    requires i <= j <= |es|
    ensures Exec(s, es[..i]).clock <= Exec(s, es[..j]).clock
    decreases j
  {
    if i < j {
      assert es[..j][..j - 1] == es[..j - 1];
      ClockGrows(s, es, i, j - 1);
    }
  }

  /** The table told `value` at instant `i`, and `i` is recent: either no earlier
      than `at`, or the find of a call whose set at `j` was less than five minutes
      before `at`. */
  ghost predicate Recent(s: State, es: seq<Event>, key: string, value: bool, at: nat, i: nat, j: nat) {
    && i <= j <= |es|
    && Tells(Exec(s, es[..i]).table, key) == value
    && var found, filled := Exec(s, es[..i]).clock, Exec(s, es[..j]).clock;
    && found <= filled && at < found + 300_000 + (filled - found)
    && (i < j ==> exists d: CallId :: ReadRow(s, es, d, key, value, i) && Filled(s, es, d, filled + TTL, j))
    && (i == j ==> at <= found)
  }

  /** Bounded staleness, under every interleaving of readers and writers: the
      answer was the table's value at an instant no earlier than the lookup minus
      the TTL minus the gap between the filling call's find and set. */
  lemma {:induction false} BoundedStaleness(s: State, es: seq<Event>, c: CallId, key: string, value: bool, at: nat)
    requires Initial(s)
    requires c in Exec(s, es).calls && Exec(s, es).calls[c] == Answered(key, value, at)
    ensures exists i: nat, j: nat :: Recent(s, es, key, value, at, i, j)
  {
    ExecExplains(s, es);
    hide Run, Recent, MissSource, HitSource;
    assert Explained(s, es, c, Answered(key, value, at));
    if MissSource(s, es, c, key, value, at) {
      MissIsRecent(s, es, c, key, value, at);
    } else {
      HitIsRecent(s, es, c, key, value, at);
    }
  }

  lemma MissIsRecent(s: State, es: seq<Event>, c: CallId, key: string, value: bool, at: nat)
    requires MissSource(s, es, c, key, value, at)
    ensures exists i: nat, j: nat :: Recent(s, es, key, value, at, i, j)
  {
    hide Run;
    var l: nat, i: nat :| l < i && LookedUp(s, es, c, key, at, l) && ReadRow(s, es, c, key, value, i);
    ClockGrows(s, es, l, i);
    assert Recent(s, es, key, value, at, i, i);
  }

  lemma FillIsRecent(s: State, es: seq<Event>, key: string, value: bool, at: nat, until: nat, l: nat)
    requires at < until && FilledBefore(s, es, key, value, until, l)
    ensures exists i: nat, j: nat :: Recent(s, es, key, value, at, i, j)
  {
    hide Run;
    var d: CallId, i: nat, j: nat :| i < j < l && ReadRow(s, es, d, key, value, i) && Filled(s, es, d, until, j);
    ClockGrows(s, es, i, j);
    assert Recent(s, es, key, value, at, i, j);
  }

  lemma HitIsRecent(s: State, es: seq<Event>, c: CallId, key: string, value: bool, at: nat)
    requires HitSource(s, es, c, key, value, at)
    ensures exists i: nat, j: nat :: Recent(s, es, key, value, at, i, j)
  {
    hide FilledBefore, LookedUp, Recent;
    var l: nat, until: nat :| at < until && FilledBefore(s, es, key, value, until, l) && LookedUp(s, es, c, key, at, l);
    FillIsRecent(s, es, key, value, at, until, l);
  }

  // ---- run alone, each call is the sequential operation ----

  /** The events of one operation, in source order. */
  function Script(c: CallId, op: FeatureFlags.Op): seq<Event> {
    match op
    case IsEnabled(key) => [Lookup(c, key), Find(c), Fill(c)]
    case Enable(key) => [WriteRow(c, key, Upsert), Invalidate(c)]
    case Disable(key) => [WriteRow(c, key, Update(false)), Invalidate(c)]
    case Toggle(key) => [ToggleFind(c, key), ToggleWrite(c), Invalidate(c)]
    case Create(key, row) => [CreateRow(c, key, row.enabled)]
    case Delete(key) => [WriteRow(c, key, Remove), Invalidate(c)]
    case FindOne(_) => []
    case Wait(elapsed) => [Tick(elapsed)]
  }

  /** The same cache, clock and flags; the machine keeps of a row its flag. */
  ghost predicate Matches(s: State, t: FeatureFlags.State) {
    && s.cache == t.cache && s.clock == t.clock
    && s.table.Keys == t.table.Keys && forall k | k in s.table :: s.table[k] == t.table[k].enabled
  }

  /** Nothing interleaved, a reader's events come to the sequential read, with
      its answer. */
  lemma ReaderAlone(s: State, t: FeatureFlags.State, c: CallId, key: string)
    requires Matches(s, t) && c !in s.calls
    ensures var s', r := Exec(s, Script(c, FeatureFlags.IsEnabled(key))), FeatureFlags.CachedStep(t, FeatureFlags.IsEnabled(key));
            && Matches(s', r.0)
            && c in s'.calls && s'.calls[c].Answered? && r.1 == FeatureFlags.Answer(s'.calls[c].value)
  {
    hide Run;
    RunThree(Step, s, Lookup(c, key), Find(c), Fill(c));
  }

  lemma TogglerAlone(s: State, t: FeatureFlags.State, c: CallId, key: string)
    requires Matches(s, t) && c !in s.calls
    ensures Matches(Exec(s, Script(c, FeatureFlags.Toggle(key))), FeatureFlags.CachedStep(t, FeatureFlags.Toggle(key)).0)
  {
    hide Run;
    RunThree(Step, s, ToggleFind(c, key), ToggleWrite(c), Invalidate(c));
  }

  /** The new state a toggle is about to write is its sequential reply. */
  lemma TogglerAnswers(s: State, t: FeatureFlags.State, c: CallId, key: string)
    requires Matches(s, t) && c !in s.calls && key in t.table
    ensures var p := Step(s, ToggleFind(c, key)).calls[c];
            p.Toggling? && FeatureFlags.CachedStep(t, FeatureFlags.Toggle(key)).1 == FeatureFlags.Answer(p.newState)
  {
  }

  function WriteOf(op: FeatureFlags.Op): Write
    requires op.Enable? || op.Disable? || op.Delete?
  {
    match op
    case Enable(_) => Upsert
    case Disable(_) => Update(false)
    case Delete(_) => Remove
  }

  /** The write matches the sequential table, and the invalidation its cache. */
  lemma WriteMatches(s: State, t: FeatureFlags.State, c: CallId, op: FeatureFlags.Op)
    requires Matches(s, t) && c !in s.calls && (op.Enable? || op.Disable? || op.Delete?)
    ensures var a, u := DoWrite(s, c, op.key, WriteOf(op)), FeatureFlags.PlainStep(t.table, op);
            && a.clock == s.clock && a.cache == s.cache
            && a.table.Keys == u.0.Keys && (forall k | k in a.table :: a.table[k] == u.0[k].enabled)
            && c in a.calls && a.calls[c] == if u.1.Failed? then Finished else Invalidating(op.key)
    ensures FeatureFlags.PlainStep(t.table, op).1.Failed? ==> FeatureFlags.PlainStep(t.table, op).0 == t.table
  {
  }

  lemma WriterAlone(s: State, t: FeatureFlags.State, c: CallId, op: FeatureFlags.Op)
    requires Matches(s, t) && c !in s.calls && (op.Enable? || op.Disable? || op.Delete?)
    ensures Matches(Exec(s, Script(c, op)), FeatureFlags.CachedStep(t, op).0)
  {
    hide Run, DoWrite, FeatureFlags.PlainStep;
    RunTwo(Step, s, Script(c, op)[0], Script(c, op)[1]);
    WriteMatches(s, t, c, op);
    assert Step(s, Script(c, op)[0]) == DoWrite(s, c, op.key, WriteOf(op));
  }

  /** Nothing interleaved, every operation's events come to the sequential
      operation of the cached service. */
  lemma {:induction false} OperationAlone(s: State, t: FeatureFlags.State, c: CallId, op: FeatureFlags.Op)
    requires Matches(s, t) && c !in s.calls
    ensures Matches(Exec(s, Script(c, op)), FeatureFlags.CachedStep(t, op).0)
  {
    match op {
      case IsEnabled(key) => ReaderAlone(s, t, c, key);
      case Toggle(key) => TogglerAlone(s, t, c, key);
      case Create(key, row) => RunCons(Step, s, CreateRow(c, key, row.enabled), []);
      case FindOne(_) =>
      case Wait(elapsed) => RunCons(Step, s, Tick(elapsed), []);
      case _ => WriterAlone(s, t, c, op);
    }
  }
}
