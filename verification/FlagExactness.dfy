/**
 When the flag cache is exact: the events after which, with no writer of the key
 left to invalidate, a live entry tells another value than the table.
 */
module FlagExactness {
  import opened Runs
  import opened Wrappers
  import opened SharedCache
  import opened FlagRaces

  /** A writer of the key is between its database call and its invalidation. */
  ghost predicate PendingFor(s: State, key: string) {
    exists c :: c in s.calls && s.calls[c] == Invalidating(key)
  }

  /** A live entry tells the table's value, or its invalidation is to come. */
  ghost predicate Settled(s: State, key: string) {
    Live(s.cache, key, s.clock) ==> s.cache[key].value == Tells(s.table, key) || PendingFor(s, key)
  }

  // ---- one event ----

  /** The event sets the key's entry to another value than the table's. */
  predicate WrongFill(s: State, e: Event, key: string) {
    e.Fill? && e.c in s.calls && s.calls[e.c].Filling? && s.calls[e.c].key == key && s.calls[e.c].value != Tells(s.table, key)
  }

  /** The event creates the key enabled while an entry of it is live. */
  predicate CreatesOverEntry(s: State, e: Event, key: string) {
    e.CreateRow? && e.c !in s.calls && e.key == key && key !in s.table && e.enabled && Live(s.cache, key, s.clock)
  }

  lemma PendingStays(s: State, e: Event, key: string)
    requires PendingFor(s, key)
    ensures PendingFor(Step(s, e), key) || key !in Step(s, e).cache
  {
    var c :| c in s.calls && s.calls[c] == Invalidating(key);
    if e != Invalidate(c) { assert Step(s, e).calls[c] == Invalidating(key); }
  }

  lemma WrongEntryHasWriter(s: State, e: Event, key: string)
    requires Live(s.cache, key, s.clock) ==> s.cache[key].value == Tells(s.table, key)
    requires Live(Step(s, e).cache, key, Step(s, e).clock) && Step(s, e).cache[key].value != Tells(Step(s, e).table, key)
    requires !WrongFill(s, e, key) && !CreatesOverEntry(s, e, key)
    ensures PendingFor(Step(s, e), key)
  {
    assert !e.Tick? && e.c in Step(s, e).calls && Step(s, e).calls[e.c] == Invalidating(key);
  }

  lemma WrongEntryHasNone(s: State, e: Event, key: string)
    requires Settled(s, key) && !PendingFor(s, key)
    requires WrongFill(s, e, key) || CreatesOverEntry(s, e, key)
    ensures Live(Step(s, e).cache, key, Step(s, e).clock) && Step(s, e).cache[key].value != Tells(Step(s, e).table, key)
    ensures !PendingFor(Step(s, e), key)
  {
    forall c | c in Step(s, e).calls ensures Step(s, e).calls[c] != Invalidating(key) {
      if c in s.calls { assert s.calls[c] != Invalidating(key); }
    }
  }

  /** An event unsettles a settled key exactly when it is one of the two and no
      writer of the key is still to invalidate. */
  lemma UnsettlesIff(s: State, e: Event, key: string)
    requires Settled(s, key)
    ensures !Settled(Step(s, e), key) <==>
            !PendingFor(s, key) && (WrongFill(s, e, key) || CreatesOverEntry(s, e, key))
  {
    hide Step, WrongFill, CreatesOverEntry;
    if PendingFor(s, key) {
      PendingStays(s, e, key);
    } else if WrongFill(s, e, key) || CreatesOverEntry(s, e, key) {
      WrongEntryHasNone(s, e, key);
    } else if !Settled(Step(s, e), key) {
      WrongEntryHasWriter(s, e, key);
    }
  }

  // ---- a wrong fill, told by the writes between its find and its set ----

  /** Event `i` was the `findByKey` of the call's read of the key. */
  ghost predicate FoundAt(s: State, es: seq<Event>, c: CallId, key: string, i: nat) {
    && i < |es| && es[i] == Find(c)
    && var a := Exec(s, es[..i]);
    && c in a.calls && a.calls[c].Reading? && a.calls[c].key == key
  }

  /** The writes from event `i` on that change what the flag tells. */
  ghost function Flips(s: State, es: seq<Event>, key: string, i: nat): nat {
    if |es| <= i then 0
    else
      var a := Exec(s, es[..|es| - 1]);
      Flips(s, es[..|es| - 1], key, i) + if Tells(Step(a, es[|es| - 1]).table, key) != Tells(a.table, key) then 1 else 0
  }

  lemma {:induction false} FlipsTell(s: State, es: seq<Event>, key: string, i: nat)
    requires i <= |es|
    ensures Tells(Exec(s, es).table, key) != Tells(Exec(s, es[..i]).table, key) <==> Flips(s, es, key, i) % 2 == 1
  {
    hide Step;
    if i == |es| {
      assert es[..i] == es;
    } else {
      assert es[..|es| - 1][..i] == es[..i];
      FlipsTell(s, es[..|es| - 1], key, i);
    }
  }

  /** The reader's phases after its find. */
  predicate HasFound(s: State, c: CallId, key: string, value: bool) {
    c in s.calls && (s.calls[c].Answered? || (s.calls[c].Filling? && s.calls[c].key == key && s.calls[c].value == value))
  }

  lemma HasFoundStays(s: State, e: Event, c: CallId, key: string, value: bool)
    requires HasFound(s, c, key, value)
    ensures HasFound(Step(s, e), c, key, value)
  {
    if !Owns(e, c) { OthersUntouched(s, e, c); }
  }

  lemma {:induction false} FoundAtTellsValue(s: State, es: seq<Event>, c: CallId, key: string, i: nat)
    requires FoundAt(s, es, c, key, i)
    ensures HasFound(Exec(s, es), c, key, Tells(Exec(s, es[..i]).table, key))
  {
    var init := es[..|es| - 1];
    if i == |es| - 1 {
      assert Exec(s, es) == DoFind(Exec(s, init), c);
    } else {
      assert init[..i] == es[..i];
      FoundAtTellsValue(s, init, c, key, i);
      HasFoundStays(Exec(s, init), es[|es| - 1], c, key, Tells(Exec(s, es[..i]).table, key));
    }
  }

  lemma FillingComesFrom(s: State, e: Event, c: CallId)
    requires c in Step(s, e).calls && Step(s, e).calls[c].Filling?
    ensures c in s.calls && (s.calls[c] == Step(s, e).calls[c] ||
                             (e == Find(c) && s.calls[c].Reading? && s.calls[c].key == Step(s, e).calls[c].key))
  {
  }

  lemma {:induction false} FillingWasFound(s: State, es: seq<Event>, c: CallId)
    requires Initial(s) && c in Exec(s, es).calls && Exec(s, es).calls[c].Filling?
    ensures exists i: nat :: FoundAt(s, es, c, Exec(s, es).calls[c].key, i)
  {
    if es != [] {
      hide Step;
      var init, e := es[..|es| - 1], es[|es| - 1];
      var a, key := Exec(s, init), Exec(s, es).calls[c].key;
      FillingComesFrom(a, e, c);
      if a.calls[c].Filling? {
        FillingWasFound(s, init, c);
        var i: nat :| FoundAt(s, init, c, key, i);
        assert init[..i] == es[..i];
        assert FoundAt(s, es, c, key, i);
      } else {
        assert FoundAt(s, es, c, key, |es| - 1);
      }
    }
  }

  /** The event sets the entry of a read that was overtaken: an odd number of
      writes changed the flag between the call's find and this set. */
  ghost predicate OvertakenFill(s: State, es: seq<Event>, e: Event, key: string) {
    && e.Fill? && e.c in Exec(s, es).calls && Exec(s, es).calls[e.c].Filling?
    && exists i: nat :: FoundAt(s, es, e.c, key, i) && Flips(s, es, key, i) % 2 == 1
  }

  lemma OvertakenIff(s: State, es: seq<Event>, e: Event, key: string)
    requires Initial(s)
    ensures OvertakenFill(s, es, e, key) <==> WrongFill(Exec(s, es), e, key)
  {
    hide Step, Run;
    if e.Fill? && e.c in Exec(s, es).calls && Exec(s, es).calls[e.c].Filling? {
      forall i: nat | FoundAt(s, es, e.c, key, i)
        ensures Exec(s, es).calls[e.c].key == key
        ensures Flips(s, es, key, i) % 2 == 1 <==> Exec(s, es).calls[e.c].value != Tells(Exec(s, es).table, key)
      {
        FoundAtTellsValue(s, es, e.c, key, i);
        FlipsTell(s, es, key, i);
      }
      if Exec(s, es).calls[e.c].key == key { FillingWasFound(s, es, e.c); }
    }
  }

  // ---- whole runs ----

  /** After the run `es`, with no writer of the key still to invalidate, the event
      sets an overtaken read or creates the key enabled over a live entry. */
  ghost predicate Spoils(s: State, es: seq<Event>, e: Event, key: string) {
    !PendingFor(Exec(s, es), key) && (OvertakenFill(s, es, e, key) || CreatesOverEntry(Exec(s, es), e, key))
  }

  /** Exactness, over every run: every live entry of the key tells the table's
      value whenever no writer of the key is still to invalidate, throughout the
      run, if and only if no event of the run spoils the key. */
  lemma {:induction false} ExactBetweenWriters(s: State, es: seq<Event>, key: string)
    requires Initial(s)
    ensures (forall n | 0 <= n <= |es| :: Settled(Exec(s, es[..n]), key))
       <==> (forall n | 0 <= n < |es| :: !Spoils(s, es[..n], es[n], key))
  {
    hide Step, Run, Settled, Spoils;
    if forall n | 0 <= n <= |es| :: Settled(Exec(s, es[..n]), key) {
      forall n | 0 <= n < |es| ensures !Spoils(s, es[..n], es[n], key) {
        assert Settled(Exec(s, es[..n + 1]), key);
        NextSettledIff(s, es, key, n);
      }
    }
    if forall n | 0 <= n < |es| :: !Spoils(s, es[..n], es[n], key) {
      forall n | 0 <= n <= |es| ensures Settled(Exec(s, es[..n]), key) { Unspoilt(s, es, key, n); }
    }
  }

  lemma NextSettledIff(s: State, es: seq<Event>, key: string, n: nat)
    requires Initial(s) && n < |es| && Settled(Exec(s, es[..n]), key)
    ensures Settled(Exec(s, es[..n + 1]), key) <==> !Spoils(s, es[..n], es[n], key)
  {
    hide Step, Settled, PendingFor, OvertakenFill, WrongFill, CreatesOverEntry;
    assert es[..n + 1][..n] == es[..n];
    UnsettlesIff(Exec(s, es[..n]), es[n], key);
    OvertakenIff(s, es[..n], es[n], key);
  }

  lemma {:induction false} Unspoilt(s: State, es: seq<Event>, key: string, n: nat)
    requires Initial(s) && n <= |es|
    requires forall m | 0 <= m < |es| :: !Spoils(s, es[..m], es[m], key)
    ensures Settled(Exec(s, es[..n]), key)
    decreases n
  {
    hide Step, Spoils;
    if n > 0 {
      Unspoilt(s, es, key, n - 1);
      hide Settled;
      NextSettledIff(s, es, key, n - 1);
    }
  }

  /** Without that condition it fails: a reader that found "off", stalled across
      a whole enable, and then filled, leaves "off" cached with no writer left. */
  lemma OvertakenFillSticks(key: string)
    ensures
      var s := State(map[], map[], 0, map[]);
      var s' := Exec(s, [Lookup(0, key), Find(0), WriteRow(1, key, Upsert)] + [Invalidate(1), Fill(0)]);
      && Initial(s) && !PendingFor(s', key)
      && Live(s'.cache, key, s'.clock) && s'.cache[key].value == false && Tells(s'.table, key)
  {
    hide Run;
    var s := State(map[], map[], 0, map[]);
    RunConcat(Step, s, [Lookup(0, key), Find(0), WriteRow(1, key, Upsert)], [Invalidate(1), Fill(0)]);
    RunThree(Step, s, Lookup(0, key), Find(0), WriteRow(1, key, Upsert));
    Stalled(key);
    var s1 := State(map[key := true], map[], 0, map[0 := Filling(key, false, 0), 1 := Invalidating(key)]);
    RunTwo(Step, s1, Invalidate(1), Fill(0));
  }

  lemma Stalled(key: string)
    ensures Step(Step(Step(State(map[], map[], 0, map[]), Lookup(0, key)), Find(0)), WriteRow(1, key, Upsert))
            == State(map[key := true], map[], 0, map[0 := Filling(key, false, 0), 1 := Invalidating(key)])
  {
  }
}
