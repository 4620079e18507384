/** The service: its flag, its four steps and the loops of the scheduler step. */
module ShutdownService {
  import opened Wrappers
  import opened Shutdown

  datatype Task = CronJob(name: string) | Interval(name: string) | Timeout(name: string)

  datatype Registry = Registry(cronJobs: seq<Task>, intervals: seq<Task>, timeouts: seq<Task>)

  function AllTasks(r: Registry): seq<Task> { r.cronJobs + r.intervals + r.timeouts }

  /** Exactly the tasks before the first one whose stop throws. */
  ghost predicate UpToFirstFailure(all: seq<Task>, broken: set<Task>, stopped: seq<Task>) {
    && stopped <= all
    && (forall t | t in stopped :: t !in broken)
    && (|stopped| < |all| ==> all[|stopped|] in broken)
  }

  lemma {:induction false} UpToFirstFailureIff(all: seq<Task>, broken: set<Task>, stopped: seq<Task>)
    ensures UpToFirstFailure(all, broken, stopped) <==>
            exists n :: 0 <= n <= |all| && stopped == all[..n] && (forall i | 0 <= i < n :: all[i] !in broken)
                        && (n == |all| || all[n] in broken)
  {
    if UpToFirstFailure(all, broken, stopped) {
      assert stopped == all[..|stopped|];
      assert forall i | 0 <= i < |stopped| :: all[i] in stopped;
    }
  }

  /** How an awaited step comes back: normally, with an exception, or not at all,
      because the timer has exited the process meanwhile. */
  datatype Result = Returns | Throws | Gone

  /** `value || fallback`: 0 counts as missing. */
  function Setting(value: Option<nat>, fallback: nat): (n: nat)
    ensures value.Some? && value.value > 0 ==> n == value.value
    ensures value.None? || value.value == 0 ==> n == fallback
  {
    if value.Some? && value.value > 0 then value.value else fallback
  }

  class ShutdownService {
    const shutdownTimeout: nat
    const websocketCloseTimeout: nat
    const gateway: Option<Work>
    const schedulerRegistry: Option<Registry>
    const cacheManager: Option<Work>
    const broken: set<Task>      // tasks whose stop throws
    var isShuttingDown: bool
    var clock: nat
    var trail: seq<Entry>
    var stopped: seq<Task>
    var exit: Option<Phase>

    ghost function Cfg(): Config {
      var tasks := if schedulerRegistry.None? then None
                   else Some(forall t | t in AllTasks(schedulerRegistry.value) :: t !in broken);
      Config(shutdownTimeout, websocketCloseTimeout, gateway, tasks, true, cacheManager, SOURCE_CATCHES)
    }

    ghost predicate Valid()
      reads this
    {
      !isShuttingDown ==> trail == [] && stopped == [] && exit == None
    }

    ghost predicate TasksStopped()
      reads this
    {
      if schedulerRegistry.None? then stopped == []
      else
        var r := schedulerRegistry.value;
        UpToFirstFailure(r.cronJobs + r.intervals + r.timeouts, broken, stopped)
    }

    constructor (timeout: Option<nat>, closeTimeout: Option<nat>, gateway: Option<Work>, registry: Option<Registry>,
                 broken: set<Task>, cache: Option<Work>, now: nat)
      ensures Valid() && !isShuttingDown && clock == now
      ensures shutdownTimeout == if timeout.Some? && timeout.value > 0 then timeout.value else 30_000
      ensures websocketCloseTimeout == if closeTimeout.Some? && closeTimeout.value > 0 then closeTimeout.value else 5_000
      ensures this.gateway == gateway && schedulerRegistry == registry && this.broken == broken && cacheManager == cache
    {
      shutdownTimeout, websocketCloseTimeout := Setting(timeout, 30000), Setting(closeTimeout, 5000);
      this.gateway, schedulerRegistry, this.broken, cacheManager := gateway, registry, broken, cache;
      isShuttingDown, clock, trail, stopped, exit := false, now, [], [], None;
    }

    /** A signal: the first one runs the sequence against the timer and exits as
        the durations say, whatever fails; any later one does nothing. */
    method OnSignal(ties: Ties)
      requires Valid()
      modifies this
      ensures Valid() && isShuttingDown
      ensures old(isShuttingDown) ==> unchanged(this)
      ensures !old(isShuttingDown) ==>
                exit == Some(Verdict(Cfg(), old(clock), ties)) && trail == VerdictTrail(Cfg(), old(clock), ties)
      ensures !old(isShuttingDown) && trail != [] ==> TasksStopped()
    {
      if isShuttingDown { return; }
      isShuttingDown := true;
      var deadline := clock + shutdownTimeout;
      var r := ExecuteShutdownSequence(deadline, ties);
      match r {
        case Returns => exit := Some(Exited(0, clock, Finished));
        case Gone => exit := Some(Exited(1, deadline, TimedOut));
        case Throws => assert false;   // the catch that exits 1 is never entered
      }
    }

    /** No throw of any step gets out of the sequence. */
    method ExecuteShutdownSequence(deadline: nat, ties: Ties) returns (r: Result)
      requires isShuttingDown && trail == [] && stopped == [] && deadline == clock + shutdownTimeout
      modifies this`clock, this`trail, this`stopped
      ensures trail == VerdictTrail(Cfg(), old(clock), ties)
      ensures !r.Throws?
      ensures Verdict(Cfg(), old(clock), ties) == if r.Returns? then Exited(0, clock, Finished) else Exited(1, deadline, TimedOut)
      ensures trail != [] ==> TasksStopped()
    {
      r := CloseWebSockets(deadline, ties);
      if !r.Returns? {
        assert StepsEndedBy(Cfg(), ties) == 0;
        return;
      }
      r := StopScheduledTasks();
      if !r.Returns? { return; }
      trail := trail + [Entry(Queues, clock, Done)];
      r := CloseCacheConnections(deadline, ties.timerBeatsCache);
    }

    /** Awaits a promise that settles at `at`, if it does, unless the timer exits
        the process first. */
    method Await(at: Option<nat>, ok: bool, deadline: nat, timerFirst: bool) returns (r: Result)
      requires clock <= deadline && (at.Some? ==> clock <= at.value)
      modifies this`clock
      ensures r.Gone? <==> at.None? || deadline < at.value || (deadline == at.value && timerFirst)
      ensures clock == if r.Gone? then deadline else at.value
      ensures !r.Gone? ==> (r.Returns? <==> ok)
    {
      if at.None? || deadline < at.value || (deadline == at.value && timerFirst) {
        clock := deadline;
        return Gone;
      }
      clock := at.value;
      r := if ok then Returns else Throws;
    }

    /** The gateway's own shutdown raced with the cap, in the step's try. */
    method CloseWebSockets(deadline: nat, ties: Ties) returns (r: Result)
      requires clock <= deadline
      modifies this`clock, this`trail
      ensures var done := old(clock) + SocketsTime(Cfg());
              && !r.Throws?
              && (r.Gone? <==> gateway.Some? && (deadline < done || (deadline == done && ties.timerBeatsSockets)))
              && clock == (if r.Gone? then deadline else done)
              && trail == if r.Gone? then old(trail) else old(trail) + [Entry(Sockets, done, SocketsOutcome(Cfg(), ties))]
    {
      r := Returns;
      var outcome := NothingToDo;
      if gateway.Some? {
        var takes, cap := gateway.value.takes, websocketCloseTimeout;
        if takes.None? || cap < takes.value || (cap == takes.value && ties.capBeatsGateway) {
          outcome := CapReached;
          r := Await(Some(clock + cap), true, deadline, ties.timerBeatsSockets);
        } else {
          outcome := Done;
          r := Await(Some(clock + takes.value), gateway.value.ok, deadline, ties.timerBeatsSockets);
        }
      }
      if r.Throws? {
        outcome := Failed;
        r := Returns;
      }
      if r.Returns? { trail := trail + [Entry(Sockets, clock, outcome)]; }
    }

    /** Cron jobs, then intervals, then timeouts; the first one that throws ends
        the step, not the sequence. */
    method StopScheduledTasks() returns (r: Result)
      requires stopped == []
      modifies this`trail, this`stopped
      ensures r.Returns?
      ensures trail == old(trail) + [Entry(Tasks, clock, OutcomeOf(Cfg(), Tasks))]
      ensures TasksStopped()
    {
      if schedulerRegistry.None? {
        trail := trail + [Entry(Tasks, clock, NothingToDo)];
        return Returns;
      }
      r := StopAll(schedulerRegistry.value);
      var outcome := Done;
      if r.Throws? {
        outcome := Failed;
        r := Returns;
      }
      trail := trail + [Entry(Tasks, clock, outcome)];
    }

    /** The three loops of the step's try. */
    method StopAll(registry: Registry) returns (r: Result)
      requires stopped == []
      modifies this`stopped
      ensures !r.Gone? && (r.Returns? <==> forall t | t in AllTasks(registry) :: t !in broken)
      ensures UpToFirstFailure(registry.cronJobs + registry.intervals + registry.timeouts, broken, stopped)
    {
      ghost var all := AllTasks(registry);
      var a := StopEach(registry.cronJobs);
      if a < |registry.cronJobs| {
        assert all[a] == registry.cronJobs[a];
        return Throws;
      }
      var b := StopEach(registry.intervals);
      if b < |registry.intervals| {
        assert all[a + b] == registry.intervals[b];
        return Throws;
      }
      var c := StopEach(registry.timeouts);
      if c < |registry.timeouts| {
        assert all[a + b + c] == registry.timeouts[c];
        return Throws;
      }
      r := Returns;
    }

    /** One forEach: stops tasks up to the first whose stop throws. */
    method StopEach(tasks: seq<Task>) returns (n: nat)
      modifies this`stopped
      ensures n <= |tasks| && stopped == old(stopped) + tasks[..n]
      ensures forall i | 0 <= i < n :: tasks[i] !in broken
      ensures n < |tasks| ==> tasks[n] in broken
    {
      n := 0;
      while n < |tasks|
        invariant n <= |tasks| && stopped == old(stopped) + tasks[..n]
        invariant forall i | 0 <= i < n :: tasks[i] !in broken
      {
        if tasks[n] in broken { return; }
        stopped := stopped + [tasks[n]];
        n := n + 1;
      }
    }

    /** The disconnect, in the step's try. */
    method CloseCacheConnections(deadline: nat, timerFirst: bool) returns (r: Result)
      requires clock <= deadline
      modifies this`clock, this`trail
      ensures !r.Throws?
      ensures r.Gone? <==>
                cacheManager.Some? &&
                (cacheManager.value.takes.None? ||
                 var done := old(clock) + cacheManager.value.takes.value;
                 deadline < done || (deadline == done && timerFirst))
      ensures r.Returns? ==> clock == old(clock) + if cacheManager.None? then 0 else cacheManager.value.takes.value
      ensures trail == if r.Gone? then old(trail)
                       else old(trail) + [Entry(CacheConnection, clock, OutcomeOf(Cfg(), CacheConnection))]
    {
      r := Returns;
      var outcome := NothingToDo;
      if cacheManager.Some? {
        var takes := cacheManager.value.takes;
        outcome := Done;
        r := Await(if takes.None? then None else Some(clock + takes.value), cacheManager.value.ok, deadline, timerFirst);
      }
      if r.Throws? {
        outcome := Failed;
        r := Returns;
      }
      if r.Returns? { trail := trail + [Entry(CacheConnection, clock, outcome)]; }
    }
  }
}
