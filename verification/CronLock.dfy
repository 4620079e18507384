/**
 The distributed cron lock as a machine over any number of instances. Getting the
 entry, setting it, running the body and deleting the entry are separate events;
 the `finally` delete also runs after a skip and after an error.
 */
module CronLock {
  import opened FiniteSets
  import opened Runs
  import opened Wrappers
  import opened SharedCache

  type RunId = nat

  datatype Phase = Free | Skipped | Failing | Running | Releasing | Over

  /** The stored value is only a timestamp; `owner` names the run whose set it was. */
  datatype Lock = Lock(owner: RunId, expiresAt: nat)

  datatype State = State(ttl: nat, clock: nat, lock: Option<Lock>, runs: map<RunId, Phase>)

  datatype Event =
    | Tick(elapsed: nat)
    | Get(r: RunId)
    | GetFails(r: RunId)
    | Set(r: RunId)
    | SetFails(r: RunId)
    | Finish(r: RunId)      // the body returns or throws
    | Del(r: RunId)
    | DelFails(r: RunId)

  predicate At(s: State, r: RunId, p: Phase) { r in s.runs && s.runs[r] == p }

  predicate Locked(s: State) { s.lock.Some? && s.clock < s.lock.value.expiresAt }

  function Move(s: State, r: RunId, p: Phase): State { s.(runs := s.runs[r := p]) }

  function Step(s: State, e: Event): State {
    match e
    case Tick(elapsed) => s.(clock := s.clock + elapsed)
    case Get(r) => if r in s.runs then s else Move(s, r, if Locked(s) then Skipped else Free)
    case GetFails(r) => if r in s.runs then s else Move(s, r, Failing)
    case Set(r) => if At(s, r, Free) then Move(s, r, Running).(lock := Some(Lock(r, s.clock + s.ttl))) else s
    case SetFails(r) => if At(s, r, Free) then Move(s, r, Failing) else s
    case Finish(r) => if At(s, r, Running) then Move(s, r, Releasing) else s
    case Del(r) =>
      if At(s, r, Skipped) || At(s, r, Failing) || At(s, r, Releasing) then Move(s, r, Over).(lock := None) else s
    case DelFails(r) =>
      if At(s, r, Skipped) || At(s, r, Failing) || At(s, r, Releasing) then Move(s, r, Over) else s
  }

  function Exec(s: State, es: seq<Event>): State { Run(Step, s, es) }

  predicate Initial(s: State) { s.lock.None? && s.runs == map[] }

  ghost function Bodies(s: State): set<RunId> { set r | r in s.runs && s.runs[r] == Running }

  // ---- what each event does, in plain terms ----

  /** A new run skips exactly when an entry is there that has not expired yet. */
  lemma {:induction false} GetLaw(s: State, r: RunId)
    requires r !in s.runs
    ensures var s' := Step(s, Get(r));
            && s'.lock == s.lock && s'.clock == s.clock && s'.ttl == s.ttl
            && s'.runs == s.runs[r := if s.lock.Some? && s.clock < s.lock.value.expiresAt then Skipped else Free]
  {
  }

  /** Setting takes the entry over for a whole TTL, whoever's it was. */
  lemma {:induction false} SetLaw(s: State, r: RunId)
    requires r in s.runs && s.runs[r] == Free
    ensures Step(s, Set(r)) == State(s.ttl, s.clock, Some(Lock(r, s.clock + s.ttl)), s.runs[r := Running])
  {
  }

  /** The finally deletes the entry after a skip, a failure and a body alike,
      whoever's it is. */
  lemma {:induction false} DelLaw(s: State, r: RunId)
    requires r in s.runs
    ensures s.runs[r] == Skipped || s.runs[r] == Failing || s.runs[r] == Releasing ==>
              Step(s, Del(r)) == State(s.ttl, s.clock, None, s.runs[r := Over])
    ensures s.runs[r] == Running ==> Step(s, Finish(r)) == State(s.ttl, s.clock, s.lock, s.runs[r := Releasing])
  {
  }

  // ---- losses ----

  /** The run whose own set is the live entry, while its body still runs. */
  function Holder(s: State): Option<RunId> {
    if Locked(s) && At(s, s.lock.value.owner, Running) then Some(s.lock.value.owner) else None
  }

  /** The event takes the entry from a holder whose body goes on running. */
  predicate Loses(s: State, e: Event) {
    && Holder(s).Some?
    && Holder(Step(s, e)) != Holder(s)
    && At(Step(s, e), Holder(s).value, Running)
  }

  function Losses(s: State, es: seq<Event>): nat {
    if es == [] then 0
    else Losses(s, es[..|es| - 1]) + (if Loses(Exec(s, es[..|es| - 1]), es[|es| - 1]) then 1 else 0)
  }

  /** A holder loses its entry in three ways only: a rival overwrites it, a
      skipper, a failed run or another runner deletes it, or it expires. */
  lemma LossCauses(s: State, e: Event)
    requires Loses(s, e)
    ensures
      || (e.Set? && e.r != Holder(s).value && At(s, e.r, Free))
      || (e.Del? && e.r != Holder(s).value && (At(s, e.r, Skipped) || At(s, e.r, Failing) || At(s, e.r, Releasing)))
      || (e.Tick? && s.clock + e.elapsed >= s.lock.value.expiresAt)
  {
  }

  // ---- the overlap bound ----

  function Held(s: State): nat { if Holder(s).Some? then 1 else 0 }

  lemma SetBound(s: State, r: RunId, losses: nat)
    requires s.ttl > 0 && At(s, r, Free) && |Bodies(s)| <= losses + Held(s)
    ensures |Bodies(Step(s, Set(r)))| <= losses + (if Loses(s, Set(r)) then 1 else 0) + 1
  {
    assert Bodies(Step(s, Set(r))) == Bodies(s) + {r};
    SetTakesOver(s, r);
  }

  lemma OtherBound(s: State, e: Event, losses: nat)
    requires !e.Set? && |Bodies(s)| <= losses + Held(s)
    ensures |Bodies(Step(s, e))| <= losses + (if Loses(s, e) then 1 else 0) + Held(Step(s, e))
  {
    if e.Finish? && At(s, e.r, Running) {
      assert Bodies(Step(s, e)) == Bodies(s) - {e.r};
    } else {
      assert Bodies(Step(s, e)) == Bodies(s);
    }
  }

  lemma StepBound(s: State, e: Event, losses: nat)
    requires s.ttl > 0 && |Bodies(s)| <= losses + Held(s)
    ensures Step(s, e).ttl == s.ttl
    ensures |Bodies(Step(s, e))| <= losses + (if Loses(s, e) then 1 else 0) + Held(Step(s, e))
  {
    if e.Set? && At(s, e.r, Free) {
      SetBound(s, e.r, losses);
      SetTakesOver(s, e.r);
    } else if !e.Set? {
      OtherBound(s, e, losses);
    }
  }

  lemma SetTakesOver(s: State, r: RunId)
    requires At(s, r, Free)
    ensures Holder(s).Some? ==> Loses(s, Set(r))
    ensures s.ttl > 0 ==> Holder(Step(s, Set(r))) == Some(r)
  {
  }

  /** The bodies running at once never exceed one plus the number of times a
      still-running holder had lost its entry, in every run of any number of
      instances. */
  lemma {:induction false} OverlapBound(s: State, es: seq<Event>)
    requires Initial(s) && s.ttl > 0
    ensures |Bodies(Exec(s, es))| <= Held(Exec(s, es)) + Losses(s, es) <= 1 + Losses(s, es)
    ensures Exec(s, es).ttl == s.ttl
  {
    hide Step;
    if es == [] {
      assert Bodies(s) == {};
    } else {
      OverlapBound(s, es[..|es| - 1]);
      StepBound(Exec(s, es[..|es| - 1]), es[|es| - 1], Losses(s, es[..|es| - 1]));
    }
  }

  lemma {:induction false} LossesGrow(s: State, es: seq<Event>, n: nat)
    requires n <= |es|
    ensures Losses(s, es[..n]) <= Losses(s, es)
    decreases |es|
  {
    hide Run, Step;
    if n < |es| {
      assert es[..|es| - 1][..n] == es[..n];
      LossesGrow(s, es[..|es| - 1], n);
    } else {
      assert es[..n] == es;
    }
  }

  /** Mutual exclusion holds throughout every run in which no holder loses its
      entry. */
  lemma {:induction false} ExclusiveWithoutLoss(s: State, es: seq<Event>, n: nat, q: RunId, r: RunId)
    requires Initial(s) && s.ttl > 0 && Losses(s, es) == 0 && n <= |es|
    requires q in Bodies(Exec(s, es[..n])) && r in Bodies(Exec(s, es[..n]))
    ensures q == r
  {
    hide Run, Step;
    LossesGrow(s, es, n);
    OverlapBound(s, es[..n]);
    if q != r {
      SubsetSize({q, r}, Bodies(Exec(s, es[..n])));
    }
  }

  // ---- the bound is reached, and every loss matters ----

  /** After any loss, a run that starts afresh overlaps the dispossessed body. */
  lemma LossOpensOverlap(s: State, e: Event, r: RunId)
    requires Loses(s, e) && r !in Step(s, e).runs
    ensures
      var s' := Exec(Step(s, e), if e.Set? then [] else [Get(r), Set(r)]);
      && Holder(s).value in Bodies(s')
      && (if e.Set? then e.r else r) in Bodies(s') && (if e.Set? then e.r else r) != Holder(s).value
  {
    LossCauses(s, e);
    var s1 := Step(s, e);
    if !e.Set? {
      RunConcat(Step, s1, [Get(r)], [Set(r)]);
      assert [Get(r)] + [Set(r)] == [Get(r), Set(r)];
      RunOne(Step, s1, Get(r));
      RunOne(Step, Step(s1, Get(r)), Set(r));
    }
  }

  /** Some run has not begun yet. */
  lemma FreshRun(runs: set<RunId>) returns (r: RunId)
    ensures r !in runs
  {
    r := 0;
    var left := runs;
    while r in runs
      invariant forall q | q in runs && q >= r :: q in left
      decreases |left|
    {
      left := left - {r};
      r := r + 1;
    }
  }

  /** The bodies left running if, after the run, one more instance tries. */
  ghost function BodiesAfterOneMore(s: State, es: seq<Event>, r: RunId): set<RunId> {
    Bodies(Exec(Exec(s, es), [Get(r), Set(r)]))
  }

  lemma OneMoreLosesNothing(s: State, r: RunId)
    requires r !in s.runs && s.ttl > 0 && |Bodies(s)| <= Held(s)
    ensures |Bodies(Exec(s, [Get(r), Set(r)]))| <= 1
  {
    RunTwo(Step, s, Get(r), Set(r));
    var s1 := Step(s, Get(r));
    assert Bodies(s1) == Bodies(s);
    if Locked(s) {
      assert Step(s1, Set(r)) == s1;
    } else {
      assert Bodies(s) == {};
      assert Bodies(Step(s1, Set(r))) == {r};
    }
    hide Run;
  }

  lemma OthersRunOn(s: State, q: RunId, r: RunId)
    requires q in Bodies(s) && r !in s.runs
    ensures q in Bodies(Exec(s, [Get(r), Set(r)]))
  {
    RunTwo(Step, s, Get(r), Set(r));
    hide Run;
  }

  lemma LossShows(s: State, e: Event, r: RunId)
    requires Loses(s, e) && r !in Step(s, e).runs
    ensures |Bodies(Exec(Step(s, e), [Get(r), Set(r)]))| >= 2
  {
    var s1, q := Step(s, e), Holder(s).value;
    LossOpensOverlap(s, e, r);
    OthersRunOn(s1, q, r);
    if e.Set? { OthersRunOn(s1, e.r, r); }
    SubsetSize({q, if e.Set? then e.r else r}, Bodies(Exec(s1, [Get(r), Set(r)])));
  }

  lemma {:induction false} LossHappens(s: State, es: seq<Event>) returns (n: nat)
    requires Losses(s, es) > 0
    ensures n < |es| && Loses(Exec(s, es[..n]), es[n])
  {
    hide Step, Loses, Run;
    var init := es[..|es| - 1];
    if Loses(Exec(s, init), es[|es| - 1]) {
      n := |es| - 1;
    } else {
      n := LossHappens(s, init);
      assert init[..n] == es[..n];
    }
  }

  /** Mutual exclusion, exactly: throughout a run, and for any one instance more
      that tries at any point of it, at most one body runs, if and only if no holder
      loses its entry in the run. */
  lemma {:induction false} ExclusiveIff(s: State, es: seq<Event>)
    requires Initial(s) && s.ttl > 0
    ensures Losses(s, es) == 0 <==>
            forall n, r: RunId | 0 <= n <= |es| && r !in Exec(s, es[..n]).runs :: |BodiesAfterOneMore(s, es[..n], r)| <= 1
  {
    hide Step, Loses, Run;
    if Losses(s, es) == 0 {
      forall n, r: RunId | 0 <= n <= |es| && r !in Exec(s, es[..n]).runs ensures |BodiesAfterOneMore(s, es[..n], r)| <= 1 {
        LossesGrow(s, es, n);
        OverlapBound(s, es[..n]);
        OneMoreLosesNothing(Exec(s, es[..n]), r);
      }
    } else {
      var n := LossHappens(s, es);
      assert es[..n + 1] == es[..n] + [es[n]];
      RunSnoc(Step, s, es[..n], es[n]);
      var r := FreshRun(Exec(s, es[..n + 1]).runs.Keys);
      LossShows(Exec(s, es[..n]), es[n], r);
      assert |BodiesAfterOneMore(s, es[..n + 1], r)| >= 2;
    }
  }

  /** Skipping is itself such a loss: while one instance runs, a second skips and
      its `finally` unlocks, and a third runs beside the first. No two of them
      race, and no entry expires. */
  lemma SkipperLetsTheNextIn(s: State, q: RunId, r: RunId)
    requires Holder(s).Some? && q !in s.runs && r !in s.runs && q != r
    ensures
      var s' := Exec(s, [Get(q), Del(q)] + [Get(r), Set(r)]);
      Holder(s).value in Bodies(s') && r in Bodies(s') && r != Holder(s).value
  {
    var s1 := Step(s, Get(q));
    RunConcat(Step, s, [Get(q), Del(q)], [Get(r), Set(r)]);
    RunConcat(Step, s, [Get(q)], [Del(q)]);
    assert [Get(q)] + [Del(q)] == [Get(q), Del(q)];
    RunOne(Step, s, Get(q));
    RunOne(Step, s1, Del(q));
    assert Loses(s1, Del(q));
    LossOpensOverlap(s1, Del(q), r);
  }

  function Gets(n: nat): seq<Event> { if n == 0 then [] else Gets(n - 1) + [Get(n - 1)] }

  function Sets(n: nat): seq<Event> { if n == 0 then [] else Sets(n - 1) + [Set(n - 1)] }

  /** Runs 0 to n - 1 have got the lock's entry, and those below k have set it. */
  ghost predicate Raced(s: State, s': State, n: nat, k: nat) {
    && s'.clock == s.clock && s'.ttl == s.ttl
    && (forall r: RunId :: r in s'.runs <==> r < n)
    && (forall r: RunId | r < n :: s'.runs[r] == if r < k then Running else Free)
    && s'.lock == if k == 0 then None else Some(Lock(k - 1, s.clock + s.ttl))
  }

  lemma {:induction false} AllGet(s: State, n: nat)
    requires Initial(s)
    ensures Raced(s, Exec(s, Gets(n)), n, 0) && Losses(s, Gets(n)) == 0
  {
    hide Step, Loses;
    if n > 0 {
      hide Run, Losses, Raced;
      AllGet(s, n - 1);
      ExecSnoc(s, Gets(n - 1), Get(n - 1));
      GetRaces(s, Exec(s, Gets(n - 1)), n);
    }
  }

  lemma GetRaces(s: State, s1: State, n: nat)
    requires n > 0 && Raced(s, s1, n - 1, 0)
    ensures Raced(s, Step(s1, Get(n - 1)), n, 0) && !Loses(s1, Get(n - 1))
  {
  }

  lemma SetRaces(s: State, s1: State, n: nat, k: nat)
    requires s.ttl > 0 && 0 < k <= n && Raced(s, s1, n, k - 1)
    ensures Raced(s, Step(s1, Set(k - 1)), n, k) && (Loses(s1, Set(k - 1)) <==> k > 1)
  {
  }

  lemma {:induction false} AllSet(s: State, n: nat, k: nat)
    requires Initial(s) && s.ttl > 0 && k <= n
    ensures Raced(s, Exec(s, Gets(n) + Sets(k)), n, k)
    ensures Losses(s, Gets(n) + Sets(k)) == if k == 0 then 0 else k - 1
  {
    hide Run, Losses, Step, Loses, Raced, Gets;
    if k == 0 {
      AllGet(s, n);
      assert Gets(n) + Sets(0) == Gets(n);
    } else {
      var prior := Gets(n) + Sets(k - 1);
      AllSet(s, n, k - 1);
      assert Gets(n) + Sets(k) == prior + [Set(k - 1)];
      ExecSnoc(s, prior, Set(k - 1));
      SetRaces(s, Exec(s, prior), n, k);
    }
  }

  lemma ExecSnoc(s: State, es: seq<Event>, e: Event)
    ensures Exec(s, es + [e]) == Step(Exec(s, es), e)
    ensures Losses(s, es + [e]) == Losses(s, es) + (if Loses(Exec(s, es), e) then 1 else 0)
  {
  }

  /** The bound is tight: n + 1 instances that all get before any sets run n + 1
      bodies at once, with exactly n losses. */
  lemma BoundIsReached(s: State, n: nat)
    requires Initial(s) && s.ttl > 0
    ensures |Bodies(Exec(s, Gets(n + 1) + Sets(n + 1)))| == n + 1
    ensures Losses(s, Gets(n + 1) + Sets(n + 1)) == n
  {
    hide Run;
    AllSet(s, n + 1, n + 1);
    assert Bodies(Exec(s, Gets(n + 1) + Sets(n + 1))) == Below(n + 1);
  }

  ghost function Below(n: nat): (b: set<RunId>)
    ensures |b| == n && forall r: RunId :: r in b <==> r < n
  {
    if n == 0 then {} else Below(n - 1) + {n - 1}
  }

  // ---- the wrapper as written ----

  /** Which cache calls of an invocation fail. */
  datatype Faults = Faults(onGet: bool, onSet: bool, onDel: bool)

  function Acquire(r: RunId, toSet: nat, f: Faults): seq<Event> {
    [if f.onGet then GetFails(r) else Get(r), Tick(toSet), if f.onSet then SetFails(r) else Set(r)]
  }

  function Release(r: RunId, bodyTime: nat, f: Faults): seq<Event> {
    [Tick(bodyTime), Finish(r), if f.onDel then DelFails(r) else Del(r)]
  }

  /** The shared cache's entry for this lock is the machine's lock. */
  ghost predicate Shows(entries: map<string, Entry<Value>>, key: string, s: State) {
    && (key in entries <==> s.lock.Some?)
    && (key in entries ==> entries[key].expiresAt == s.lock.value.expiresAt)
  }

  /** The body runs when nothing failed before it and the lock was free. */
  predicate Enters(s: State, f: Faults) { !f.onGet && !f.onSet && !Locked(s) }

  lemma AcquireAlone(s: State, r: RunId, toSet: nat, f: Faults)
    requires r !in s.runs
    ensures var s' := Exec(s, Acquire(r, toSet, f));
            && s'.clock == s.clock + toSet && r in s'.runs && (r in Bodies(s') <==> Enters(s, f))
            && s'.runs[r] == (if Enters(s, f) then Running else if f.onGet || !Locked(s) then Failing else Skipped)
            && s'.lock == if Enters(s, f) then Some(Lock(r, s.clock + toSet + s.ttl)) else s.lock
  {
    var a := Acquire(r, toSet, f);
    RunThree(Step, s, a[0], a[1], a[2]);
    hide Run;
  }

  lemma ReleaseAlone(s: State, r: RunId, bodyTime: nat, f: Faults)
    requires r in s.runs && s.runs[r] in {Running, Failing, Skipped}
    ensures var s' := Exec(s, Release(r, bodyTime, f));
            s'.clock == s.clock + bodyTime && At(s', r, Over) && s'.lock == if f.onDel then s.lock else None
  {
    var a := Release(r, bodyTime, f);
    RunThree(Step, s, a[0], a[1], a[2]);
    hide Run;
  }

  /** Every live entry of the cache is another job's lock, a flag's or the health
      check's. */
  ghost predicate OthersOnly(entries: map<string, Entry<Value>>, lockKey: string, now: nat) {
    forall k | Live(entries, k, now) ::
      k == "health-check" || (exists job :: job != lockKey && k == ToLockKey(job)) || exists flag :: k == ToCacheKey(flag)
  }

  ghost predicate SameLock(before: map<string, Entry<Value>>, after: map<string, Entry<Value>>, job: string) {
    && (ToLockKey(job) in after <==> ToLockKey(job) in before)
    && (ToLockKey(job) in after ==> after[ToLockKey(job)] == before[ToLockKey(job)])
  }

  /** Other entries do not lock the job. */
  lemma NoLockOfOurs(entries: map<string, Entry<Value>>, lockKey: string, now: nat)
    requires OthersOnly(entries, lockKey, now)
    ensures !Live(entries, ToLockKey(lockKey), now)
  {
    if k :| k == ToLockKey(lockKey) && Live(entries, k, now) {
      LockKeysAreTheirOwn(lockKey, lockKey);
      if flag :| k == ToCacheKey(flag) {
        FlagKeysAreTheirOwn(flag, lockKey);
      } else {
        var job :| job != lockKey && k == ToLockKey(job);
        LockKeysAreTheirOwn(job, lockKey);
      }
    }
  }

  lemma OthersUntouched(before: map<string, Entry<Value>>, after: map<string, Entry<Value>>, lockKey: string)
    requires before - {ToLockKey(lockKey)} == after - {ToLockKey(lockKey)}
    ensures forall job | job != lockKey :: SameLock(before, after, job)
  {
    forall job | job != lockKey ensures SameLock(before, after, job) {
      LockKeysAreTheirOwn(job, lockKey);
      assert ToLockKey(job) in before <==> ToLockKey(job) in before - {ToLockKey(lockKey)};
      assert ToLockKey(job) in after <==> ToLockKey(job) in after - {ToLockKey(lockKey)};
    }
  }

  class DistributedCron {
    const cache: Cache

    constructor (cache: Cache)
      ensures this.cache == cache
    {
      this.cache := cache;
    }

    /** One invocation of the wrapped method, with nothing interleaved. The body
        runs exactly when no call failed before it and no live entry was there; an
        error of the cache or of the body is passed on; and unless the delete
        itself fails the entry is gone afterwards on every path: after a skip too,
        when it was another instance's. */
    method Invoke(lockKey: string, ttl: nat, now: nat, toSet: nat, bodyTime: nat, bodyThrows: bool, f: Faults,
                  ghost s: State, ghost r: RunId)
      returns (ran: bool, threw: bool)
      requires s.ttl == ttl && s.clock == now && r !in s.runs && Shows(cache.entries, ToLockKey(lockKey), s)
      modifies cache
      ensures ran <==> r in Bodies(Exec(s, Acquire(r, toSet, f)))
      ensures ran <==> !f.onGet && !f.onSet && !Live(old(cache.entries), ToLockKey(lockKey), now)
      ensures threw <==> f.onGet || (f.onSet && !Live(old(cache.entries), ToLockKey(lockKey), now)) || (ran && bodyThrows) || f.onDel
      ensures Shows(cache.entries, ToLockKey(lockKey), Exec(s, Acquire(r, toSet, f) + Release(r, bodyTime, f)))
      ensures !f.onDel ==> cache.entries == old(cache.entries) - {ToLockKey(lockKey)}
      ensures ran && f.onDel ==>
                cache.entries == old(cache.entries)[ToLockKey(lockKey) := Entry(Instant(now + toSet), now + toSet + ttl)]
      ensures !ran && f.onDel ==> cache.entries == old(cache.entries)
      // Other jobs: their locks neither keep this one from running nor change.
      ensures !f.onGet && !f.onSet && OthersOnly(old(cache.entries), lockKey, now) ==> ran
      ensures forall job | job != lockKey :: SameLock(old(cache.entries), cache.entries, job)
    {
      ghost var before := cache.entries;
      AcquireAlone(s, r, toSet, f);
      ReleaseAlone(Exec(s, Acquire(r, toSet, f)), r, bodyTime, f);
      RunConcat(Step, s, Acquire(r, toSet, f), Release(r, bodyTime, f));
      if OthersOnly(before, lockKey, now) { NoLockOfOurs(before, lockKey, now); }
      hide Run, Step, Acquire, Release, ToLockKey, OthersOnly, SameLock;
      ran, threw := Attempt(ToLockKey(lockKey), ttl, now, toSet, bodyThrows, f);
      OthersUntouched(before, cache.entries, lockKey);
    }

    /** The try, the catch and the finally. */
    method Attempt(lockValue: string, ttl: nat, now: nat, toSet: nat, bodyThrows: bool, f: Faults) returns (ran: bool, threw: bool)
      modifies cache
      ensures ran <==> !f.onGet && !f.onSet && !Live(old(cache.entries), lockValue, now)
      ensures threw <==> f.onGet || (f.onSet && !Live(old(cache.entries), lockValue, now)) || (ran && bodyThrows) || f.onDel
      ensures !f.onDel ==> cache.entries == old(cache.entries) - {lockValue}
      ensures ran && f.onDel ==> cache.entries == old(cache.entries)[lockValue := Entry(Instant(now + toSet), now + toSet + ttl)]
      ensures !ran && f.onDel ==> cache.entries == old(cache.entries)
    {
      ran, threw := false, false;
      if f.onGet {
        threw := true;
      } else {
        var existing := cache.Get(lockValue, now);
        if existing.None? {
          if f.onSet {
            threw := true;
          } else {
            cache.Set(lockValue, Instant(now + toSet), ttl, now + toSet);
            ran, threw := true, bodyThrows;
          }
        }
      }
      if f.onDel {
        threw := true;
      } else {
        cache.Del(lockValue);
      }
    }
  }
}
