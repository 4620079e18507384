/**
 The shutdown orchestrator: a one-shot sequence of four steps racing the timer
 that forces the exit, over every order of signals, ticks and completions and
 for every duration of the two steps that wait on something. A step may throw;
 its own catch, if it has one, ends the step, and otherwise the throw reaches the
 catch around the whole sequence, which exits.
 */
module Shutdown {
  import opened Runs
  import opened Wrappers

  datatype StepName = Sockets | Tasks | Queues | CacheConnection

  /** What a step waits for: it resolves or rejects after `takes`, or never. */
  datatype Work = Work(takes: Option<nat>, ok: bool)

  /** Milliseconds. A missing gateway, scheduler registry or cache manager makes
      its step return at once. `tasks` and `drains` say that stopping the tasks and
      draining the queues do not throw; `catches` is the set of steps with a catch
      of their own. */
  datatype Config = Config(
    timeout: nat,
    cap: nat,
    gateway: Option<Work>,
    tasks: Option<bool>,
    drains: bool,
    cache: Option<Work>,
    catches: set<StepName>
  )

  /** The steps with a catch in the source. */
  const SOURCE_CATCHES: set<StepName> := {Sockets, Tasks, CacheConnection}

  /** The queue step of the source only logs, so it does not throw. */
  predicate FromSource(cfg: Config) { cfg.catches == SOURCE_CATCHES && cfg.drains }

  datatype Outcome = Done | Failed | CapReached | NothingToDo
  datatype Entry = Entry(step: StepName, at: nat, outcome: Outcome)

  const ORDER: seq<StepName> := [Sockets, Tasks, Queues, CacheConnection]

  datatype Cause = Finished | TimedOut | Uncaught(step: StepName)

  datatype Phase =
    | Serving
    | ClosingSockets
    | StoppingTasks
    | DrainingQueues
    | ClosingCache
    | Exited(code: nat, at: nat, cause: Cause)

  datatype State = State(clock: nat, phase: Phase, startedAt: nat, stepSince: nat, trail: seq<Entry>, starts: nat)

  datatype Event =
    | Signal
    | Tick(d: nat)
    | Settles       // the current step's own work returns or throws
    | CapFires      // websocketCloseTimeout
    | TimerFires    // shutdownTimeout

  const Start := State(0, Serving, 0, 0, [], 0)

  predicate ShuttingDown(s: State) { s.phase != Serving }
  predicate Stepping(s: State) { s.phase != Serving && !s.phase.Exited? }

  /** The current step is suspended on something outside. The other steps run to
      their end in the same turn of the event loop. */
  predicate Waiting(cfg: Config, s: State) {
    (s.phase == ClosingSockets && cfg.gateway.Some?) || (s.phase == ClosingCache && cfg.cache.Some?)
  }

  function CurrentWork(cfg: Config, s: State): Option<Work> {
    match s.phase
    case ClosingSockets => cfg.gateway
    case ClosingCache => cfg.cache
    case _ => None
  }

  predicate DueAt(cfg: Config, s: State, at: nat) {
    match CurrentWork(cfg, s)
    case Some(w) => w.takes == Some(at - s.stepSince)
    case None => true
  }

  /** Timers and completions happen when they are due: time does not pass them. */
  predicate MayPass(cfg: Config, s: State, to: nat) {
    && !(Stepping(s) && !Waiting(cfg, s))
    && (Waiting(cfg, s) ==>
          && to <= s.startedAt + cfg.timeout
          && (s.phase == ClosingSockets ==> to <= s.stepSince + cfg.cap)
          && (var w := CurrentWork(cfg, s).value; w.takes.Some? ==> to <= s.stepSince + w.takes.value))
  }

  function Next(p: Phase, at: nat): Phase {
    match p
    case ClosingSockets => StoppingTasks
    case StoppingTasks => DrainingQueues
    case DrainingQueues => ClosingCache
    case _ => Exited(0, at, Finished)
  }

  function NameOf(p: Phase): StepName {
    match p
    case ClosingSockets => Sockets
    case StoppingTasks => Tasks
    case DrainingQueues => Queues
    case _ => CacheConnection
  }

  /** The step's own work throws when it settles. */
  predicate Fails(cfg: Config, step: StepName) {
    match step
    case Sockets => cfg.gateway.Some? && !cfg.gateway.value.ok
    case Tasks => cfg.tasks == Some(false)
    case Queues => !cfg.drains
    case CacheConnection => cfg.cache.Some? && !cfg.cache.value.ok
  }

  predicate Skipped(cfg: Config, step: StepName) {
    match step
    case Sockets => cfg.gateway.None?
    case Tasks => cfg.tasks.None?
    case Queues => false
    case CacheConnection => cfg.cache.None?
  }

  function Ended(s: State, outcome: Outcome): State {
    s.(phase := Next(s.phase, s.clock), stepSince := s.clock,
       trail := s.trail + [Entry(NameOf(s.phase), s.clock, outcome)])
  }

  function Returned(cfg: Config, s: State): State {
    Ended(s, if Skipped(cfg, NameOf(s.phase)) then NothingToDo else Done)
  }

  /** The step's catch logs and lets the sequence go on; without one the throw
      leaves the sequence and the catch around it exits. */
  function Thrown(cfg: Config, s: State): State {
    if NameOf(s.phase) in cfg.catches then Ended(s, Failed)
    else s.(phase := Exited(1, s.clock, Uncaught(NameOf(s.phase))))
  }

  function Step(cfg: Config, s: State, e: Event): State {
    match e
    case Signal =>
      if ShuttingDown(s) then s
      else s.(phase := ClosingSockets, startedAt := s.clock, stepSince := s.clock, starts := s.starts + 1)
    case Tick(d) => if MayPass(cfg, s, s.clock + d) then s.(clock := s.clock + d) else s
    case Settles =>
      if !Stepping(s) || !DueAt(cfg, s, s.clock) then s
      else if Fails(cfg, NameOf(s.phase)) then Thrown(cfg, s)
      else Returned(cfg, s)
    case CapFires =>
      if s.phase == ClosingSockets && cfg.gateway.Some? && s.clock == s.stepSince + cfg.cap
      then Ended(s, CapReached) else s
    case TimerFires =>
      if Waiting(cfg, s) && s.clock == s.startedAt + cfg.timeout
      then s.(phase := Exited(1, s.clock, TimedOut)) else s
  }

  function Machine(cfg: Config): (State, Event) -> State { (s, e) => Step(cfg, s, e) }

  function Exec(cfg: Config, es: seq<Event>): State { Run(Machine(cfg), Start, es) }

  // ---- what the durations alone say ----

  /** The time the WebSocket step takes: never more than its cap. */
  function SocketsTime(cfg: Config): (t: nat)
    ensures cfg.gateway.Some? ==> t <= cfg.cap
  {
    match cfg.gateway
    case None => 0
    case Some(w) => if w.takes.Some? && w.takes.value < cfg.cap then w.takes.value else cfg.cap
  }

  /** The time the whole sequence takes, if it ends. */
  function SequenceTime(cfg: Config): Option<nat> {
    match cfg.cache
    case None => Some(SocketsTime(cfg))
    case Some(w) => if w.takes.None? then None else Some(SocketsTime(cfg) + w.takes.value)
  }

  /** The step throws at a moment the sequence may reach. */
  predicate CanFail(cfg: Config, step: StepName) {
    && Fails(cfg, step)
    && match step
       case Sockets =>
         cfg.gateway.value.takes.Some? && cfg.gateway.value.takes.value <= cfg.cap && SocketsTime(cfg) <= cfg.timeout
       case Tasks => SocketsTime(cfg) <= cfg.timeout
       case Queues => SocketsTime(cfg) <= cfg.timeout
       case CacheConnection => SequenceTime(cfg).Some? && SequenceTime(cfg).value <= cfg.timeout
  }

  predicate Escapes(cfg: Config, step: StepName) { CanFail(cfg, step) && step !in cfg.catches }

  /** Every step that can fail has a catch. */
  ghost predicate AllCaught(cfg: Config) { forall step :: !Escapes(cfg, step) }

  // ---- invariant ----

  ghost predicate InOrder(trail: seq<Entry>) {
    |trail| <= |ORDER| && forall i | 0 <= i < |trail| :: trail[i].step == ORDER[i]
  }

  function Place(step: StepName): nat {
    match step
    case Sockets => 0
    case Tasks => 1
    case Queues => 2
    case CacheConnection => 3
  }

  ghost predicate Timed(cfg: Config, s: State) {
    var deadline := s.startedAt + cfg.timeout;
    var socketsDone := s.startedAt + SocketsTime(cfg);
    match s.phase
    case Serving => s.trail == []
    case ClosingSockets =>
      s.trail == [] && s.stepSince == s.startedAt <= s.clock <= socketsDone && s.clock <= deadline
    case StoppingTasks => |s.trail| == 1 && s.clock == socketsDone <= deadline
    case DrainingQueues => |s.trail| == 2 && s.clock == socketsDone <= deadline
    case ClosingCache =>
      && |s.trail| == 3
      && s.stepSince == socketsDone <= s.clock <= deadline
      && (cfg.cache.None? ==> s.clock == socketsDone)
      && (SequenceTime(cfg).Some? ==> s.clock <= s.startedAt + SequenceTime(cfg).value)
    case Exited(code, at, Finished) =>
      && code == 0 && |s.trail| == 4 && s.trail[3].at == at <= deadline
      && SequenceTime(cfg) == Some(at - s.startedAt)
    case Exited(code, at, TimedOut) =>
      && code == 1 && at == deadline
      && if s.trail == [] then cfg.gateway.Some? && cfg.timeout <= SocketsTime(cfg)
         else |s.trail| == 3 && cfg.cache.Some? && SocketsTime(cfg) <= cfg.timeout
              && (SequenceTime(cfg).Some? ==> cfg.timeout <= SequenceTime(cfg).value)
    case Exited(code, at, Uncaught(step)) =>
      code == 1 && s.startedAt <= at <= deadline && |s.trail| == Place(step) && Escapes(cfg, step)
  }

  /** What the step's line in the trail may say. */
  ghost predicate OutcomeFits(cfg: Config, e: Entry) {
    if e.outcome.CapReached? then
      e.step == Sockets && cfg.gateway.Some?
      && (cfg.gateway.value.takes.Some? ==> cfg.cap <= cfg.gateway.value.takes.value)
    else
      && e.outcome == OutcomeOf(cfg, e.step)
      && (e.step == Sockets && cfg.gateway.Some? ==>
            cfg.gateway.value.takes.Some? && cfg.gateway.value.takes.value <= cfg.cap)
  }

  function OutcomeOf(cfg: Config, step: StepName): Outcome {
    if Fails(cfg, step) then Failed else if Skipped(cfg, step) then NothingToDo else Done
  }

  ghost predicate Inv(cfg: Config, s: State) {
    && s.starts == (if ShuttingDown(s) then 1 else 0)
    && InOrder(s.trail)
    && (forall i | 0 <= i < |s.trail| :: OutcomeFits(cfg, s.trail[i]))
    && (forall i | 0 <= i < |s.trail| && i < 3 :: s.trail[i].at == s.startedAt + SocketsTime(cfg))
    && Timed(cfg, s)
  }

  /** The step ends when its duration says. */
  predicate OnTime(cfg: Config, s: State) {
    match s.phase
    case ClosingSockets => s.clock == s.startedAt + SocketsTime(cfg)
    case ClosingCache => SequenceTime(cfg) == Some(s.clock - s.startedAt)
    case _ => true
  }

  lemma EndKeepsInv(cfg: Config, s: State, outcome: Outcome)
    requires Inv(cfg, s) && Stepping(s) && OnTime(cfg, s)
    requires OutcomeFits(cfg, Entry(NameOf(s.phase), s.clock, outcome))
    ensures Inv(cfg, Ended(s, outcome))
  {
    hide OutcomeFits;
  }

  lemma SettlesOnTime(cfg: Config, s: State)
    requires Inv(cfg, s) && Stepping(s) && DueAt(cfg, s, s.clock)
    ensures OnTime(cfg, s)
    ensures OutcomeFits(cfg, Entry(NameOf(s.phase), s.clock, OutcomeOf(cfg, NameOf(s.phase))))
    ensures Fails(cfg, NameOf(s.phase)) ==> CanFail(cfg, NameOf(s.phase))
  {
    hide InOrder;
  }

  lemma SettlesKeepsInv(cfg: Config, s: State)
    requires Inv(cfg, s) && Stepping(s) && DueAt(cfg, s, s.clock)
    ensures Inv(cfg, Step(cfg, s, Settles))
  {
    SettlesOnTime(cfg, s);
    EndKeepsInv(cfg, s, OutcomeOf(cfg, NameOf(s.phase)));
    hide OutcomeFits, OnTime, CanFail, Fails, Ended, InOrder;
  }

  lemma CapKeepsInv(cfg: Config, s: State)
    requires Inv(cfg, s)
    ensures Inv(cfg, Step(cfg, s, CapFires))
  {
    if s.phase == ClosingSockets && cfg.gateway.Some? && s.clock == s.stepSince + cfg.cap {
      EndKeepsInv(cfg, s, CapReached);
    }
    hide Ended, Inv;
  }

  lemma StepKeepsInv(cfg: Config, s: State, e: Event)
    requires Inv(cfg, s)
    ensures Inv(cfg, Step(cfg, s, e))
  {
    hide OutcomeFits, InOrder;
    match e {
      case Settles => if Stepping(s) && DueAt(cfg, s, s.clock) { SettlesKeepsInv(cfg, s); }
      case CapFires => CapKeepsInv(cfg, s);
      case _ => hide Ended, Thrown, Returned;
    }
  }

  lemma {:induction false} ExecInv(cfg: Config, es: seq<Event>)
    ensures Inv(cfg, Exec(cfg, es))
  {
    hide Inv, Step;
    if es == [] {
      AtStart(cfg);
    } else {
      ExecInv(cfg, es[..|es| - 1]);
      StepKeepsInv(cfg, Exec(cfg, es[..|es| - 1]), es[|es| - 1]);
    }
  }

  lemma AtStart(cfg: Config)
    ensures Inv(cfg, Start)
  {
  }

  /** What a step that ends by itself logs: its throw, that there was nothing to do,
      or that it is done. The queue step always has something to do. */
  lemma {:induction false} OutcomeLaw(cfg: Config)
    ensures OutcomeOf(cfg, Sockets) == match cfg.gateway case None => NothingToDo case Some(w) => if w.ok then Done else Failed
    ensures OutcomeOf(cfg, Tasks) == match cfg.tasks case None => NothingToDo case Some(ok) => if ok then Done else Failed
    ensures OutcomeOf(cfg, Queues) == if cfg.drains then Done else Failed
    ensures OutcomeOf(cfg, CacheConnection) == match cfg.cache case None => NothingToDo case Some(w) => if w.ok then Done else Failed
  {
  }

  // ---- theorems over every run ----

  /** However many signals arrive, the sequence starts once, and from the first
      of them on readiness is off and stays off. */
  lemma {:induction false} StartsOnce(cfg: Config, es: seq<Event>)
    ensures ShuttingDown(Exec(cfg, es)) <==> Signal in es
    ensures Exec(cfg, es).starts == if Signal in es then 1 else 0
  {
    if es != [] {
      var init, e := es[..|es| - 1], es[|es| - 1];
      StartsOnce(cfg, init);
      assert es == init + [e];
      ExecInv(cfg, es);
    }
  }

  /** Steps end in the stated order, none twice and none skipped; the WebSocket
      step ends within its cap; the exit is 0 exactly when all four ended. */
  lemma {:induction false} StepsRunInOrder(cfg: Config, es: seq<Event>)
    ensures var s := Exec(cfg, es);
            && |s.trail| <= 4
            && (forall i | 0 <= i < |s.trail| :: s.trail[i].step == [Sockets, Tasks, Queues, CacheConnection][i])
            && (s.phase == ClosingSockets && cfg.gateway.Some? ==> s.clock <= s.startedAt + cfg.cap)
            && (s.trail != [] && cfg.gateway.Some? ==> s.trail[0].at <= s.startedAt + cfg.cap)
            && (s.phase.Exited? ==> s.phase.code <= 1 && (s.phase.code == 0 <==> |s.trail| == 4))
  {
    ExecInv(cfg, es);
    hide Run;
  }

  /** The process is gone by the timeout, whatever throws. Where every throw is
      caught it exits 0 when the sequence takes less and 1, at the timeout, when it
      takes longer or never ends; only at exactly the timeout may either happen. */
  lemma {:induction false} ExitsByTheTimeout(cfg: Config, es: seq<Event>)
    requires Signal in es
    ensures var s := Exec(cfg, es);
            && (s.clock > s.startedAt + cfg.timeout ==> s.phase.Exited?)
            && (s.phase.Exited? ==> s.phase.at <= s.startedAt + cfg.timeout)
            && (s.phase.Exited? && AllCaught(cfg) ==>
                  && (s.phase.code == 0 ==> SequenceTime(cfg) == Some(s.phase.at - s.startedAt))
                  && (s.phase.code == 1 ==> s.phase.at == s.startedAt + cfg.timeout)
                  && (SequenceTime(cfg) != Some(cfg.timeout) ==>
                        (s.phase.code == 0 <==> SequenceTime(cfg).Some? && SequenceTime(cfg).value < cfg.timeout)))
  {
    ExecInv(cfg, es);
    StartsOnce(cfg, es);
    hide Run;
  }

  // ---- what a throw can do ----

  function Calm(w: Option<Work>): Option<Work> {
    match w
    case None => None
    case Some(w) => Some(w.(ok := true))
  }

  /** The same durations with every failure taken out. */
  function WithoutFailures(cfg: Config): Config {
    cfg.(gateway := Calm(cfg.gateway), cache := Calm(cfg.cache), drains := true,
         tasks := if cfg.tasks.None? then None else Some(true))
  }

  function Erased(trail: seq<Entry>): seq<(StepName, nat)> {
    seq(|trail|, i requires 0 <= i < |trail| => (trail[i].step, trail[i].at))
  }

  ghost predicate SameCourse(s: State, t: State) {
    && s.(trail := []) == t.(trail := [])
    && Erased(s.trail) == Erased(t.trail)
  }

  lemma ErasedSnoc(trail: seq<Entry>, e: Entry)
    ensures Erased(trail + [e]) == Erased(trail) + [(e.step, e.at)]
  {
  }

  lemma EndedAlike(s: State, t: State, o: Outcome, o': Outcome)
    requires SameCourse(s, t)
    ensures SameCourse(Ended(s, o), Ended(t, o'))
  {
    ErasedSnoc(s.trail, Entry(NameOf(s.phase), s.clock, o));
    ErasedSnoc(t.trail, Entry(NameOf(t.phase), t.clock, o'));
    hide Erased;
  }

  lemma CaughtSettleGoesOn(cfg: Config, s: State, t: State)
    requires Inv(cfg, s) && AllCaught(cfg) && SameCourse(s, t) && Stepping(s) && DueAt(cfg, s, s.clock)
    ensures SameCourse(Step(cfg, s, Settles), Step(WithoutFailures(cfg), t, Settles))
  {
    var calm, name := WithoutFailures(cfg), NameOf(s.phase);
    SettlesOnTime(cfg, s);
    assert Fails(cfg, name) ==> !Escapes(cfg, name);
    EndedAlike(s, t, OutcomeOf(cfg, name), OutcomeOf(calm, name));
    assert !Fails(calm, name) && DueAt(calm, t, t.clock);
    hide Ended, Inv, CanFail, Erased, Fails, DueAt, AllCaught;
  }

  lemma CaughtStepGoesOn(cfg: Config, s: State, t: State, e: Event)
    requires Inv(cfg, s) && AllCaught(cfg) && SameCourse(s, t)
    ensures SameCourse(Step(cfg, s, e), Step(WithoutFailures(cfg), t, e))
  {
    hide Erased, Inv, AllCaught;
    if e == Settles {
      if Stepping(s) && DueAt(cfg, s, s.clock) { CaughtSettleGoesOn(cfg, s, t); }
    } else {
      EndedAlike(s, t, CapReached, CapReached);
      hide Ended, Thrown, Returned;
    }
  }

  lemma {:induction false} CaughtRunGoesOn(cfg: Config, es: seq<Event>)
    requires AllCaught(cfg)
    ensures SameCourse(Exec(cfg, es), Exec(WithoutFailures(cfg), es))
  {
    hide Step, SameCourse, Inv, AllCaught;
    if es == [] {
      SameAtStart();
    } else {
      var init := es[..|es| - 1];
      CaughtRunGoesOn(cfg, init);
      ExecInv(cfg, init);
      CaughtStepGoesOn(cfg, Exec(cfg, init), Exec(WithoutFailures(cfg), init), es[|es| - 1]);
    }
  }

  lemma SameAtStart()
    ensures SameCourse(Start, Start)
  {
  }

  /** The events that bring the sequence to the moment its step settles, with no
      throw on the way. */
  function UpTo(cfg: Config, step: StepName): seq<Event>
    decreases Place(step)
  {
    match step
    case Sockets => [Signal, Tick(SocketsTime(cfg))]
    case Tasks =>
      var late := cfg.gateway.Some? && (cfg.gateway.value.takes.None? || cfg.gateway.value.takes.value > cfg.cap);
      UpTo(cfg, Sockets) + [if late then CapFires else Settles]
    case Queues => UpTo(cfg, Tasks) + [Settles]
    case CacheConnection =>
      UpTo(cfg, Queues) + [Settles] + [Tick(if cfg.cache.Some? then cfg.cache.value.takes.GetOr(0) else 0)]
  }

  function PhaseOf(step: StepName): Phase {
    match step
    case Sockets => ClosingSockets
    case Tasks => StoppingTasks
    case Queues => DrainingQueues
    case CacheConnection => ClosingCache
  }

  /** The step's work is due and the sequence began at 0. */
  ghost predicate Ready(cfg: Config, s: State, step: StepName) {
    && s.phase == PhaseOf(step) && s.startedAt == 0
    && s.stepSince == (if step == Sockets then 0 else SocketsTime(cfg))
    && s.clock == (if step == CacheConnection && SequenceTime(cfg).Some? then SequenceTime(cfg).value else SocketsTime(cfg))
  }

  lemma ReachesSockets(cfg: Config)
    requires SocketsTime(cfg) <= cfg.timeout
    ensures Ready(cfg, Exec(cfg, UpTo(cfg, Sockets)), Sockets)
  {
    RunTwo(Machine(cfg), Start, Signal, Tick(SocketsTime(cfg)));
    hide Run;
  }

  lemma ReachesTasks(cfg: Config)
    requires SocketsTime(cfg) <= cfg.timeout && !Escapes(cfg, Sockets)
    ensures Ready(cfg, Exec(cfg, UpTo(cfg, Tasks)), Tasks)
  {
    ReachesSockets(cfg);
    var e := UpTo(cfg, Tasks)[2];
    RunSnoc(Machine(cfg), Start, UpTo(cfg, Sockets), e);
    hide Run;
  }

  lemma ReachesQueues(cfg: Config)
    requires SocketsTime(cfg) <= cfg.timeout && !Escapes(cfg, Sockets) && !Escapes(cfg, Tasks)
    ensures Ready(cfg, Exec(cfg, UpTo(cfg, Queues)), Queues)
  {
    ReachesTasks(cfg);
    RunSnoc(Machine(cfg), Start, UpTo(cfg, Tasks), Settles);
    hide Run, UpTo;
  }

  lemma ReachesCache(cfg: Config)
    requires SequenceTime(cfg).Some? && SequenceTime(cfg).value <= cfg.timeout
    requires !Escapes(cfg, Sockets) && !Escapes(cfg, Tasks) && !Escapes(cfg, Queues)
    ensures Ready(cfg, Exec(cfg, UpTo(cfg, CacheConnection)), CacheConnection)
  {
    var s := Exec(cfg, UpTo(cfg, Queues));
    var wait := Tick(if cfg.cache.Some? then cfg.cache.value.takes.GetOr(0) else 0);
    ReachesQueues(cfg);
    RunSnoc(Machine(cfg), Start, UpTo(cfg, Queues), Settles);
    RunSnoc(Machine(cfg), Start, UpTo(cfg, Queues) + [Settles], wait);
    DrainedThenWaits(cfg, s);
    hide Run, Step, Ready, SequenceTime;
  }

  lemma DrainedThenWaits(cfg: Config, s: State)
    requires SequenceTime(cfg).Some? && SequenceTime(cfg).value <= cfg.timeout && !Escapes(cfg, Queues)
    requires Ready(cfg, s, Queues)
    ensures var wait := Tick(if cfg.cache.Some? then cfg.cache.value.takes.GetOr(0) else 0);
            Ready(cfg, Step(cfg, Step(cfg, s, Settles), wait), CacheConnection)
  {
  }

  /** The first step whose throw escapes is reached, and takes the process down. */
  lemma EscapeIsReached(cfg: Config) returns (es: seq<Event>)
    requires !AllCaught(cfg)
    ensures Exec(cfg, es).phase.Exited? && Exec(cfg, es).phase.cause.Uncaught?
  {
    var step := if Escapes(cfg, Sockets) then Sockets else if Escapes(cfg, Tasks) then Tasks
                else if Escapes(cfg, Queues) then Queues else CacheConnection;
    assert Escapes(cfg, step);
    match step {
      case Sockets => ReachesSockets(cfg);
      case Tasks => ReachesTasks(cfg);
      case Queues => ReachesQueues(cfg);
      case CacheConnection => ReachesCache(cfg);
    }
    es := UpTo(cfg, step) + [Settles];
    RunSnoc(Machine(cfg), Start, UpTo(cfg, step), Settles);
    hide Run, UpTo;
  }

  /** A throw reaches the catch around the sequence in some run exactly when a step
      that can fail has no catch. */
  lemma {:induction false} ThrowEscapesIff(cfg: Config)
    ensures (exists es :: Exec(cfg, es).phase.Exited? && Exec(cfg, es).phase.cause.Uncaught?) <==> !AllCaught(cfg)
  {
    hide Run;
    if AllCaught(cfg) {
      forall es ensures !(Exec(cfg, es).phase.Exited? && Exec(cfg, es).phase.cause.Uncaught?) { ExecInv(cfg, es); }
    } else {
      var es := EscapeIsReached(cfg);
    }
  }

  /** Failing steps abort nothing, so that every run is, step by step and moment by
      moment, the run in which nothing fails, exactly when every step that can fail
      has a catch. */
  lemma {:induction false} FailuresAbortNothingIff(cfg: Config)
    ensures (forall es :: SameCourse(Exec(cfg, es), Exec(WithoutFailures(cfg), es))) <==> AllCaught(cfg)
  {
    hide Run;
    if AllCaught(cfg) {
      forall es ensures SameCourse(Exec(cfg, es), Exec(WithoutFailures(cfg), es)) { CaughtRunGoesOn(cfg, es); }
    } else {
      var es := EscapeIsReached(cfg);
      ExecInv(WithoutFailures(cfg), es);
      assert !SameCourse(Exec(cfg, es), Exec(WithoutFailures(cfg), es));
    }
  }

  /** In the source every step that can fail has a catch: no failure, of any steps
      and at any time, aborts a later step or exits 1, and the catch around the
      sequence is never entered. */
  lemma {:induction false} FailuresAbortNothing(cfg: Config, es: seq<Event>)
    requires FromSource(cfg)
    ensures AllCaught(cfg)
    ensures SameCourse(Exec(cfg, es), Exec(WithoutFailures(cfg), es))
    ensures var s := Exec(cfg, es);
            s.phase.Exited? ==> s.phase.cause == (if s.phase.code == 0 then Finished else TimedOut)
  {
    hide Run;
    FailuresAbortNothingIff(cfg);
    ExecInv(cfg, es);
  }

  // ---- every started shutdown can still end ----

  function StepDue(cfg: Config, s: State): nat
    requires Inv(cfg, s) && Waiting(cfg, s)
  {
    var deadline := s.startedAt + cfg.timeout;
    if s.phase == ClosingSockets then
      if SocketsTime(cfg) < cfg.timeout then s.startedAt + SocketsTime(cfg) else deadline
    else if SequenceTime(cfg).Some? && SequenceTime(cfg).value < cfg.timeout then
      s.startedAt + SequenceTime(cfg).value
    else deadline
  }

  function Rank(cfg: Config, s: State): nat
    requires Inv(cfg, s)
  {
    var left := match s.phase
      case ClosingSockets => 4
      case StoppingTasks => 3
      case DrainingQueues => 2
      case ClosingCache => 1
      case _ => 0;
    2 * left + if Waiting(cfg, s) && s.clock < StepDue(cfg, s) then 1 else 0
  }

  lemma Progresses(cfg: Config, s: State) returns (e: Event)
    requires Inv(cfg, s) && Stepping(s)
    ensures Inv(cfg, Step(cfg, s, e)) && Rank(cfg, Step(cfg, s, e)) < Rank(cfg, s)
  {
    hide OutcomeFits, InOrder;
    if !Waiting(cfg, s) {
      e := Settles;
    } else if s.clock < StepDue(cfg, s) {
      e := Tick(StepDue(cfg, s) - s.clock);
    } else if s.clock == s.startedAt + cfg.timeout {
      e := TimerFires;
    } else if DueAt(cfg, s, s.clock) {
      e := Settles;
    } else {
      e := CapFires;
    }
    StepKeepsInv(cfg, s, e);
  }

  lemma {:induction false} CanAlwaysExit(cfg: Config, es: seq<Event>) returns (more: seq<Event>)
    requires Signal in es
    ensures Exec(cfg, es + more).phase.Exited?
    decreases (ExecInv(cfg, es); Rank(cfg, Exec(cfg, es)))
  {
    hide Run, Step, Inv, Rank;
    ExecInv(cfg, es);
    StartsOnce(cfg, es);
    if Exec(cfg, es).phase.Exited? {
      more := [];
      assert es + more == es;
    } else {
      var e := Progresses(cfg, Exec(cfg, es));
      RunSnoc(Machine(cfg), Start, es, e);
      var rest := CanAlwaysExit(cfg, es + [e]);
      more := [e] + rest;
      assert es + more == es + [e] + rest;
    }
  }

  // ---- the outcome in closed form ----

  /** Who goes first when two things are due at the same moment. */
  datatype Ties = Ties(timerBeatsSockets: bool, timerBeatsCache: bool, capBeatsGateway: bool)

  /** How many steps end. */
  function StepsEndedBy(cfg: Config, ties: Ties): nat {
    var t := SocketsTime(cfg);
    if cfg.timeout < t || (cfg.timeout == t && cfg.gateway.Some? && ties.timerBeatsSockets) then 0
    else match SequenceTime(cfg)
      case None => 3
      case Some(all) =>
        if cfg.timeout < all || (cfg.timeout == all && cfg.cache.Some? && ties.timerBeatsCache) then 3 else 4
  }

  function SocketsOutcome(cfg: Config, ties: Ties): Outcome {
    match cfg.gateway
    case Some(Work(Some(t), _)) =>
      if cfg.cap < t || (cfg.cap == t && ties.capBeatsGateway) then CapReached else OutcomeOf(cfg, Sockets)
    case Some(Work(None, _)) => CapReached
    case None => NothingToDo
  }

  function Verdict(cfg: Config, startedAt: nat, ties: Ties): Phase {
    if StepsEndedBy(cfg, ties) == 4 && SequenceTime(cfg).Some?
    then Exited(0, startedAt + SequenceTime(cfg).value, Finished)
    else Exited(1, startedAt + cfg.timeout, TimedOut)
  }

  function VerdictTrail(cfg: Config, startedAt: nat, ties: Ties): seq<Entry> {
    var t := startedAt + SocketsTime(cfg);
    var three := [Entry(Sockets, t, SocketsOutcome(cfg, ties)), Entry(Tasks, t, OutcomeOf(cfg, Tasks)),
                  Entry(Queues, t, OutcomeOf(cfg, Queues))];
    match StepsEndedBy(cfg, ties)
    case 0 => []
    case 3 => three
    case _ =>
      if SequenceTime(cfg).None? then three
      else three + [Entry(CacheConnection, startedAt + SequenceTime(cfg).value, OutcomeOf(cfg, CacheConnection))]
  }

  /** Where every throw is caught, every run that has exited ended as the durations
      and the failing steps alone say, down to its log, ties aside. */
  lemma {:induction false} ExitIsTheVerdict(cfg: Config, es: seq<Event>)
    requires AllCaught(cfg) && Exec(cfg, es).phase.Exited?
    ensures var s := Exec(cfg, es);
            exists ties :: s.phase == Verdict(cfg, s.startedAt, ties) && s.trail == VerdictTrail(cfg, s.startedAt, ties)
  {
    hide Run;
    ExecInv(cfg, es);
    var s := Exec(cfg, es);
    var ties := Ties(s.trail == [], |s.trail| == 3, s.trail != [] && s.trail[0].outcome == CapReached);
    assert s.phase == Verdict(cfg, s.startedAt, ties);
    if s.trail != [] { assert s.trail[0].outcome == SocketsOutcome(cfg, ties); }
    assert s.trail == VerdictTrail(cfg, s.startedAt, ties);
  }
}
