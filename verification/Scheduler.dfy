/**
  The in-memory scheduler: named tasks that tick on a timer until they are done, time out
  or are cancelled.  A task is one chain of timer, tick, timer, ...; whether it is still
  running is looked up by its name.
 */
module Scheduler {
  import opened Shared

  type Name = string
  type TaskId = nat
  type Time = int

  datatype TaskDef = TaskDef(name: Name, intervalMs: int, maxDurationMs: int, hasOnTimeout: bool, hasOnError: bool)

  datatype Status = Running | Completed | TimedOut | Cancelled

  /** What a task's chain is waiting for. */
  datatype Phase = Armed(since: Time) | InTick | InOnError | InOnTimeout | Ended

  /** `ticks`, `dones`, `timeouts`: ticks started, ticks that returned done, calls of
      onTimeout.  `exits`: how often the handle's status was set away from running. */
  datatype Task = Task(def: TaskDef, startedAt: Time, status: Status, phase: Phase,
                       ticks: nat, lastStart: Time, dones: nat, timeouts: nat, exits: nat)

  datatype State = State(tasks: seq<Task>, active: map<Name, TaskId>, limit: int, now: Time)

  datatype ScheduleError = InvalidArgument | DuplicateName | LimitReached

  datatype TickResult = IsDone | NotDone | Threw

  datatype Action =
    | Advance(ms: nat)
    | Schedule(def: TaskDef)
    | Cancel(name: Name)
    | Fire(task: TaskId)
    | TickReturns(task: TaskId, result: TickResult)
    | OnErrorReturns(task: TaskId)
    | OnTimeoutReturns(task: TaskId)

  const MIN_INTERVAL_MS := 1000

  function Refusal(s: State, def: TaskDef): Option<ScheduleError> {
    if def.intervalMs < MIN_INTERVAL_MS || def.maxDurationMs <= 0 then Some(InvalidArgument)
    else if def.name in s.active then Some(DuplicateName)
    else if |s.active| >= s.limit then Some(LimitReached)
    else None
  }

  function Scheduled(s: State, def: TaskDef): State {
    if Refusal(s, def).Some? then s
    else s.(tasks := s.tasks + [Task(def, s.now, Running, Armed(s.now), 0, s.now, 0, 0, 0)],
            active := s.active[def.name := |s.tasks|])
  }

  function Put(s: State, t: TaskId, task: Task): State
    requires t < |s.tasks|
  {
    s.(tasks := s.tasks[t := task])
  }

  predicate NameIsActive(s: State, t: TaskId)
    requires t < |s.tasks|
  {
    s.tasks[t].def.name in s.active
  }

  /** `transition`: ends the status, stops the timer and frees the name. */
  function Transition(s: State, t: TaskId, status: Status): State
    requires t < |s.tasks|
  {
    if !NameIsActive(s, t) then s
    else
      var task := s.tasks[t];
      var stopped := task.(status := status, exits := task.exits + 1,
                           phase := if task.phase.Armed? then Ended else task.phase);
      Put(s, t, stopped).(active := s.active - {task.def.name})
  }

  /** The handle looks its task up by name. */
  function CancelName(s: State, name: Name): State {
    if name in s.active && s.active[name] < |s.tasks| then Transition(s, s.active[name], Cancelled) else s
  }

  function WithPhase(s: State, t: TaskId, phase: Phase): State
    requires t < |s.tasks|
  {
    Put(s, t, s.tasks[t].(phase := phase))
  }

  /** A timer callback, up to its first await. */
  function FireTimer(s: State, t: TaskId): State
    requires t < |s.tasks|
  {
    var task := s.tasks[t];
    if !NameIsActive(s, t) then WithPhase(s, t, Ended)
    else if s.now - task.startedAt > task.def.maxDurationMs then
      var timedOut := Transition(s, t, TimedOut);
      if task.def.hasOnTimeout
      then Put(timedOut, t, timedOut.tasks[t].(phase := InOnTimeout, timeouts := task.timeouts + 1))
      else WithPhase(timedOut, t, Ended)
    else Put(s, t, task.(phase := InTick, ticks := task.ticks + 1, lastStart := s.now))
  }

  function Rearm(s: State, t: TaskId): State
    requires t < |s.tasks|
  {
    WithPhase(s, t, if NameIsActive(s, t) then Armed(s.now) else Ended)
  }

  /** What follows a tick. */
  function AfterTick(s: State, t: TaskId, result: TickResult): State
    requires t < |s.tasks|
  {
    var counted := if result.IsDone? then Put(s, t, s.tasks[t].(dones := s.tasks[t].dones + 1)) else s;
    if !NameIsActive(s, t) then WithPhase(counted, t, Ended)
    else match result
      case IsDone => WithPhase(Transition(counted, t, Completed), t, Ended)
      case NotDone => Rearm(s, t)
      case Threw => if s.tasks[t].def.hasOnError then WithPhase(s, t, InOnError) else Rearm(s, t)
  }

  predicate Enabled(s: State, a: Action) {
    match a
    case Advance(_) => true
    case Schedule(_) => true
    case Cancel(_) => true
    case Fire(t) => t < |s.tasks| && s.tasks[t].phase.Armed?
        && s.now >= s.tasks[t].phase.since + s.tasks[t].def.intervalMs
    case TickReturns(t, _) => t < |s.tasks| && s.tasks[t].phase.InTick?
    case OnErrorReturns(t) => t < |s.tasks| && s.tasks[t].phase.InOnError?
    case OnTimeoutReturns(t) => t < |s.tasks| && s.tasks[t].phase.InOnTimeout?
  }

  function Next(s: State, a: Action): State {
    if !Enabled(s, a) then s
    else match a
      case Advance(ms) => s.(now := s.now + ms)
      case Schedule(def) => Scheduled(s, def)
      case Cancel(name) => CancelName(s, name)
      case Fire(t) => FireTimer(s, t)
      case TickReturns(t, result) => AfterTick(s, t, result)
      case OnErrorReturns(t) => Rearm(s, t)
      case OnTimeoutReturns(t) => WithPhase(s, t, Ended)
  }

  function Run(start: State, actions: seq<Action>): State {
    if actions == [] then start
    else Next(Run(start, actions[..|actions| - 1]), actions[|actions| - 1])
  }

  function Empty(limit: int, now: Time): State {
    State([], map[], limit, now)
  }

  /* ---- what each step does to a task ---- */

  /** The step changes nothing but task `t` and the list. */
  ghost predicate OnlyMoves(s: State, s': State, t: TaskId)
    requires t < |s.tasks|
  {
    && |s'.tasks| == |s.tasks| && s'.now == s.now && s'.limit == s.limit
    && forall u :: 0 <= u < |s.tasks| && u != t ==> s'.tasks[u] == s.tasks[u]
  }

  /** A timer that fires: a task whose name is no longer listed just ends; one past its
      duration times out and is unlisted, and its onTimeout is called if it has one; any
      other starts one tick. */
  lemma FireDoesExactly(s: State, t: TaskId)
    requires Enabled(s, Fire(t))
    ensures var (task, s') := (s.tasks[t], Next(s, Fire(t)));
            && OnlyMoves(s, s', t)
            && if task.def.name !in s.active then s'.tasks[t] == task.(phase := Ended) && s'.active == s.active
               else if s.now > task.startedAt + task.def.maxDurationMs then
                 && s'.tasks[t] == task.(status := TimedOut, exits := task.exits + 1,
                                         phase := if task.def.hasOnTimeout then InOnTimeout else Ended,
                                         timeouts := task.timeouts + Bit(task.def.hasOnTimeout))
                 && s'.active == s.active - {task.def.name}
               else
                 && s'.tasks[t] == task.(phase := InTick, ticks := task.ticks + 1, lastStart := s.now)
                 && s'.active == s.active
  {
  }

  /** A tick that comes back: done completes a task still listed and unlists it; an error goes
      to the error handler, if there is one; anything else arms the timer again. */
  lemma TickReturnDoesExactly(s: State, t: TaskId, result: TickResult)
    requires Enabled(s, TickReturns(t, result))
    ensures var (task, s') := (s.tasks[t], Next(s, TickReturns(t, result)));
            var listed := task.def.name in s.active;
            && OnlyMoves(s, s', t)
            && s'.active == (if listed && result.IsDone? then s.active - {task.def.name} else s.active)
            && s'.tasks[t]
               == if result.IsDone? then
                    var done := task.(phase := Ended, dones := task.dones + 1);
                    if listed then done.(status := Completed, exits := task.exits + 1) else done
                  else if !listed then task.(phase := Ended)
                  else if result.Threw? && task.def.hasOnError then task.(phase := InOnError)
                  else task.(phase := Armed(s.now))
  {
  }

  /** A handler that comes back: after an error the timer is armed again if the name is still
      listed; after a time-out the chain is at its end. */
  lemma HandlerReturnDoesExactly(s: State, t: TaskId)
    requires Enabled(s, OnErrorReturns(t)) || Enabled(s, OnTimeoutReturns(t))
    ensures var task := s.tasks[t];
            var s' := Next(s, if task.phase.InOnError? then OnErrorReturns(t) else OnTimeoutReturns(t));
            && OnlyMoves(s, s', t) && s'.active == s.active
            && s'.tasks[t] == task.(phase := if task.phase.InOnError? && task.def.name in s.active then Armed(s.now)
                                             else Ended)
  {
  }

  /** A call of schedule: refused with the first fault there is, in this order, and otherwise a
      new task, listed under its name, with its first timer armed. */
  lemma ScheduleDoesExactly(s: State, def: TaskDef)
    ensures var s' := Next(s, Schedule(def));
            var error := if def.intervalMs < 1000 || def.maxDurationMs <= 0 then Some(InvalidArgument)
                         else if def.name in s.active then Some(DuplicateName)
                         else if |s.active| >= s.limit then Some(LimitReached)
                         else None;
            && Refusal(s, def) == error
            && if error.Some? then s' == s
               else
                 && |s'.tasks| == |s.tasks| + 1 && s'.tasks[..|s.tasks|] == s.tasks
                 && s'.active == s.active[def.name := |s.tasks|] && s'.now == s.now && s'.limit == s.limit
                 && s'.tasks[|s.tasks|] == Task(def, s.now, Running, Armed(s.now), 0, s.now, 0, 0, 0)
  {
  }

  /** A call of cancel: the task listed under the name, if any, is cancelled and unlisted, and
      its timer, if armed, never fires; a tick under way goes on. */
  lemma CancelDoesExactly(s: State, name: Name)
    requires name in s.active ==> s.active[name] < |s.tasks| && s.tasks[s.active[name]].def.name == name
    ensures var s' := Next(s, Cancel(name));
            if name !in s.active then s' == s
            else
              var (t, task) := (s.active[name], s.tasks[s.active[name]]);
              && OnlyMoves(s, s', t) && s'.active == s.active - {name}
              && s'.tasks[t] == task.(status := Cancelled, exits := task.exits + 1,
                                      phase := if task.phase.Armed? then Ended else task.phase)
  {
  }

  /* ---- what every chain keeps, whatever the callers do ---- */

  /** The k-th tick starts no earlier than k intervals after the start and no later than
      the deadline; a chain that saw done or timed out never ticks or times out again. */
  predicate ChainLaw(task: Task, now: Time) {
    && task.def.intervalMs >= MIN_INTERVAL_MS && task.def.maxDurationMs > 0
    && task.ticks * task.def.intervalMs <= task.lastStart - task.startedAt <= task.def.maxDurationMs
    && task.lastStart <= now
    && (task.phase.Armed? ==> task.lastStart <= task.phase.since <= now)
    && task.dones + task.timeouts <= 1
    && (task.dones + task.timeouts == 1 ==> task.phase.InOnTimeout? || task.phase.Ended?)
  }

  ghost predicate ChainsLawful(s: State) {
    && (forall t :: 0 <= t < |s.tasks| ==> ChainLaw(s.tasks[t], s.now))
    && (forall n :: n in s.active ==> s.active[n] < |s.tasks| && s.tasks[s.active[n]].def.name == n)
    && (s.active != map[] ==> |s.active| <= s.limit)
  }

  lemma FireKeepsChain(s: State, t: TaskId)
    requires t < |s.tasks| && ChainLaw(s.tasks[t], s.now) && Enabled(s, Fire(t))
    ensures ChainLaw(FireTimer(s, t).tasks[t], s.now)
  {
    var task := s.tasks[t];
    assert (task.ticks + 1) * task.def.intervalMs == task.ticks * task.def.intervalMs + task.def.intervalMs;
  }

  /** Tasks keep their definitions; a step frees at most the name it is about, or adds the
      one it schedules. */
  lemma NextMovesOneName(s: State, a: Action)
    ensures |s.tasks| <= |Next(s, a).tasks|
    ensures forall t :: 0 <= t < |s.tasks| ==> Next(s, a).tasks[t].def == s.tasks[t].def
    ensures Next(s, a).limit == s.limit
    ensures if a.Schedule? && Refusal(s, a.def).None?
            then |Next(s, a).tasks| == |s.tasks| + 1 && Next(s, a).tasks[|s.tasks|].def == a.def
                 && Next(s, a).active == s.active[a.def.name := |s.tasks|]
            else Next(s, a).tasks == s.tasks || |Next(s, a).tasks| == |s.tasks|
    ensures !a.Schedule? ==>
              Next(s, a).active == s.active || exists n :: n in s.active && Next(s, a).active == s.active - {n}
  {
    if a.Cancel? && a.name in s.active && s.active[a.name] < |s.tasks| {
      var n := s.tasks[s.active[a.name]].def.name;
      assert Next(s, a).active == s.active || (n in s.active && Next(s, a).active == s.active - {n});
    } else if Enabled(s, a) && (a.Fire? || a.TickReturns?) {
      var n := s.tasks[a.task].def.name;
      assert Next(s, a).active == s.active || (n in s.active && Next(s, a).active == s.active - {n});
    }
  }

  lemma FewerIsWithin(m: map<Name, TaskId>, n: Name)
    requires n in m
    ensures |m - {n}| == |m| - 1
  {
  }

  lemma NextKeepsActive(s: State, a: Action)
    requires ChainsLawful(s)
    ensures forall n :: n in Next(s, a).active ==>
              Next(s, a).active[n] < |Next(s, a).tasks| && Next(s, a).tasks[Next(s, a).active[n]].def.name == n
    ensures Next(s, a).active != map[] ==> |Next(s, a).active| <= Next(s, a).limit
  {
    NextMovesOneName(s, a);
    if !a.Schedule? && Next(s, a).active != s.active {
      var n :| n in s.active && Next(s, a).active == s.active - {n};
      FewerIsWithin(s.active, n);
    }
  }

  lemma NextTouchesOneChain(s: State, a: Action, t: TaskId)
    requires t < |s.tasks| && ChainLaw(s.tasks[t], s.now)
    ensures t < |Next(s, a).tasks| && ChainLaw(Next(s, a).tasks[t], Next(s, a).now)
  {
    if Enabled(s, a) && a.Fire? && a.task == t {
      FireKeepsChain(s, t);
    }
  }

  lemma NewChainIsLawful(s: State, def: TaskDef)
    requires Refusal(s, def).None?
    ensures ChainLaw(Scheduled(s, def).tasks[|s.tasks|], s.now)
  {
  }

  lemma NextKeepsChains(s: State, a: Action)
    requires ChainsLawful(s)
    ensures ChainsLawful(Next(s, a))
  {
    NextKeepsActive(s, a);
    NextMovesOneName(s, a);
    var s' := Next(s, a);
    forall t | 0 <= t < |s'.tasks| ensures ChainLaw(s'.tasks[t], s'.now) {
      if t < |s.tasks| {
        assert ChainLaw(s.tasks[t], s.now);
        NextTouchesOneChain(s, a, t);
      } else {
        NewChainIsLawful(s, a.def);
      }
    }
  }

  lemma {:induction false} RunKeepsChains(limit: int, now: Time, actions: seq<Action>)
    ensures ChainsLawful(Run(Empty(limit, now), actions))
  {
    if actions == [] {
    } else {
      RunKeepsChains(limit, now, actions[..|actions| - 1]);
      NextKeepsChains(Run(Empty(limit, now), actions[..|actions| - 1]), actions[|actions| - 1]);
    }
  }

  /** A task's next tick starts only when its last has returned and armed the timer, and at
      least an interval after the last one started. */
  lemma TicksAreSpaced(s: State, a: Action, t: TaskId)
    requires t < |s.tasks| && ChainLaw(s.tasks[t], s.now)
    ensures t < |Next(s, a).tasks| && Next(s, a).tasks[t].ticks >= s.tasks[t].ticks
    ensures var (before, after) := (s.tasks[t], Next(s, a).tasks[t]);
            after.ticks != before.ticks ==>
              && a == Fire(t) && before.phase.Armed? && after.phase.InTick? && after.ticks == before.ticks + 1
              && after.lastStart == s.now >= before.lastStart + before.def.intervalMs
  {
  }

  lemma {:induction false} Multiplies(a: int, b: int, c: int)
    requires a <= b && c > 0
    ensures a * c <= b * c
  {
  }

  lemma {:induction false} FloorBound(ticks: nat, interval: int, duration: int)
    requires interval > 0 && ticks * interval <= duration
    ensures ticks <= duration / interval
  {
    var q := duration / interval;
    assert (q + 1) * interval == q * interval + interval > duration;
    if ticks > q {
      Multiplies(q + 1, ticks, interval);
    }
  }

  /** In every run: at most floor(maxDuration / interval) ticks, at most one onTimeout, and
      never both a tick that returned done and an onTimeout.  The active set stays within
      its limit and is keyed by name. */
  lemma {:induction false} TasksAreBounded(limit: int, now: Time, actions: seq<Action>, t: TaskId)
    requires t < |Run(Empty(limit, now), actions).tasks|
    ensures var s := Run(Empty(limit, now), actions);
            && s.tasks[t].def.intervalMs > 0
            && s.tasks[t].ticks <= s.tasks[t].def.maxDurationMs / s.tasks[t].def.intervalMs
            && s.tasks[t].dones + s.tasks[t].timeouts <= 1
            && (s.active != map[] ==> |s.active| <= limit)
  {
    RunKeepsChains(limit, now, actions);
    LimitIsFixed(limit, now, actions);
    var task := Run(Empty(limit, now), actions).tasks[t];
    assert ChainLaw(task, Run(Empty(limit, now), actions).now);
    FloorBound(task.ticks, task.def.intervalMs, task.def.maxDurationMs);
  }

  lemma {:induction false} LimitIsFixed(limit: int, now: Time, actions: seq<Action>)
    ensures Run(Empty(limit, now), actions).limit == limit
  {
    if actions == [] {
    } else {
      LimitIsFixed(limit, now, actions[..|actions| - 1]);
    }
  }

  /* ---- the lifecycle of a handle, and the premise it needs ---- */

  /** A task's own await is still to come back, though its status may have changed. */
  predicate Awaits(task: Task) {
    task.phase.InTick? || task.phase.InOnError?
  }

  /** No name is scheduled again while a tick or an error handler of an earlier task of
      that name is still awaited. */
  predicate IsPolite(s: State, a: Action) {
    a.Schedule? && Refusal(s, a.def).None? ==>
      forall t :: 0 <= t < |s.tasks| && s.tasks[t].def.name == a.def.name ==> !Awaits(s.tasks[t])
  }

  /** A task is running exactly while its name is its own; it has left running once or not
      at all; and nothing of an older task of its name is still to come. */
  ghost predicate LifeLaw(s: State, t: TaskId)
    requires t < |s.tasks|
  {
    var task := s.tasks[t];
    var mine := task.def.name in s.active && s.active[task.def.name] == t;
    && (task.status.Running? <==> mine)
    && task.exits == (if task.status.Running? then 0 else 1)
    && (task.status.Running? ==> task.phase.Armed? || Awaits(task))
    && (!task.status.Running? ==> !task.phase.Armed?)
    && (Awaits(task) && !mine ==> task.def.name !in s.active)
  }

  ghost predicate LivesLawful(s: State) {
    && (forall n :: n in s.active ==> s.active[n] < |s.tasks| && s.tasks[s.active[n]].def.name == n)
    && (forall t :: 0 <= t < |s.tasks| ==> LifeLaw(s, t))
  }

  lemma TransitionKeepsLives(s: State, t: TaskId, status: Status, u: TaskId)
    requires LivesLawful(s) && t < |s.tasks| && u < |s.tasks| && !status.Running?
    requires s.tasks[t].status.Running?
    ensures u != t ==> LifeLaw(Transition(s, t, status), u)
    ensures var task := Transition(s, t, status).tasks[t];
            && task.def == s.tasks[t].def && task.def.name !in Transition(s, t, status).active
            && task.status == status && task.exits == 1 && !task.phase.Armed?
  {
    assert LifeLaw(s, t) && LifeLaw(s, u);
  }

  lemma FireKeepsLife(s: State, t: TaskId, u: TaskId)
    requires LivesLawful(s) && t < |s.tasks| && u < |s.tasks| && s.tasks[t].phase.Armed?
    ensures LifeLaw(FireTimer(s, t), u)
  {
    assert LifeLaw(s, t) && LifeLaw(s, u);
    TransitionKeepsLives(s, t, TimedOut, u);
  }

  lemma AfterTickKeepsLife(s: State, t: TaskId, result: TickResult, u: TaskId)
    requires LivesLawful(s) && t < |s.tasks| && u < |s.tasks| && s.tasks[t].phase.InTick?
    ensures LifeLaw(AfterTick(s, t, result), u)
  {
    assert LifeLaw(s, t) && LifeLaw(s, u);
    if NameIsActive(s, t) {
      TransitionKeepsLives(s, t, Completed, u);
    }
  }

  lemma ScheduleKeepsLife(s: State, def: TaskDef, u: TaskId)
    requires LivesLawful(s) && IsPolite(s, Schedule(def)) && u < |Scheduled(s, def).tasks|
    ensures LifeLaw(Scheduled(s, def), u)
  {
    if u < |s.tasks| {
      assert LifeLaw(s, u);
    }
  }

  lemma NextKeepsLife(s: State, a: Action, u: TaskId)
    requires LivesLawful(s) && IsPolite(s, a) && u < |Next(s, a).tasks|
    ensures LifeLaw(Next(s, a), u)
  {
    if a.Schedule? {
      ScheduleKeepsLife(s, a.def, u);
    } else {
      assert u < |s.tasks| && LifeLaw(s, u) by {
        NextMovesOneName(s, a);
      }
      if Enabled(s, a) {
        match a {
          case Cancel(name) =>
            if name in s.active {
              assert LifeLaw(s, s.active[name]);
              TransitionKeepsLives(s, s.active[name], Cancelled, u);
            }
          case Fire(t) => FireKeepsLife(s, t, u);
          case TickReturns(t, result) => AfterTickKeepsLife(s, t, result, u);
          case OnErrorReturns(t) => assert LifeLaw(s, t);
          case _ =>
        }
      }
    }
  }

  lemma NextKeepsLives(s: State, a: Action)
    requires LivesLawful(s) && IsPolite(s, a)
    ensures LivesLawful(Next(s, a))
  {
    NextMovesOneName(s, a);
    forall u | 0 <= u < |Next(s, a).tasks| ensures LifeLaw(Next(s, a), u) {
      NextKeepsLife(s, a, u);
    }
  }

  ghost predicate AllPolite(start: State, actions: seq<Action>) {
    forall i :: 0 <= i < |actions| ==> IsPolite(Run(start, actions[..i]), actions[i])
  }

  /** If no name is reused over an awaited tick: every handle leaves running at most once,
      is listed exactly while it runs, and two tasks of one name are never both between
      their first timer and their end. */
  lemma {:induction false} PoliteRunsAreLawful(limit: int, now: Time, actions: seq<Action>)
    requires AllPolite(Empty(limit, now), actions)
    ensures LivesLawful(Run(Empty(limit, now), actions))
  {
    if actions == [] {
    } else {
      var n := |actions| - 1;
      PolitePrefix(Empty(limit, now), actions, n);
      PoliteRunsAreLawful(limit, now, actions[..n]);
      NextKeepsLives(Run(Empty(limit, now), actions[..n]), actions[n]);
    }
  }

  /** What awaits is listed under its own name. */
  ghost predicate AwaitsAreListed(s: State) {
    forall t :: 0 <= t < |s.tasks| && Awaits(s.tasks[t]) ==>
      s.tasks[t].def.name in s.active && s.active[s.tasks[t].def.name] == t
  }

  /** Nobody but its own task frees a listed name: what awaits stays listed. */
  lemma OwnTransitionKeepsAwaitsListed(s: State, t: TaskId, status: Status)
    requires AwaitsAreListed(s) && t < |s.tasks| && LifeLaw(s, t) && s.tasks[t].status.Running?
    ensures forall u :: 0 <= u < |s.tasks| && u != t && Awaits(s.tasks[u]) ==>
              var s' := Transition(s, t, status);
              s'.tasks[u] == s.tasks[u] && s.tasks[u].def.name in s'.active && s'.active[s.tasks[u].def.name] == u
  {
  }

  lemma FireKeepsAwaitsListed(s: State, t: TaskId)
    requires LivesLawful(s) && AwaitsAreListed(s) && Enabled(s, Fire(t))
    ensures AwaitsAreListed(FireTimer(s, t))
  {
    assert LifeLaw(s, t);
    OwnTransitionKeepsAwaitsListed(s, t, TimedOut);
  }

  lemma AfterTickKeepsAwaitsListed(s: State, t: TaskId, result: TickResult)
    requires LivesLawful(s) && AwaitsAreListed(s) && Enabled(s, TickReturns(t, result))
    ensures AwaitsAreListed(AfterTick(s, t, result))
  {
    assert LifeLaw(s, t);
    OwnTransitionKeepsAwaitsListed(s, t, Completed);
  }

  lemma NextKeepsAwaitsListed(s: State, a: Action)
    requires LivesLawful(s) && AwaitsAreListed(s) && !a.Cancel?
    ensures IsPolite(s, a) && AwaitsAreListed(Next(s, a))
  {
    if Enabled(s, a) {
      match a {
        case Fire(t) => FireKeepsAwaitsListed(s, t);
        case TickReturns(t, result) => AfterTickKeepsAwaitsListed(s, t, result);
        case OnErrorReturns(t) => assert LifeLaw(s, t);
        case _ =>
      }
    }
  }

  /** As long as nobody cancels, no premise is needed: an awaited tick still owns its name,
      so the name cannot be scheduled again. */
  lemma {:induction false} RunsWithoutCancelAreLawful(limit: int, now: Time, actions: seq<Action>)
    requires forall a :: a in actions ==> !a.Cancel?
    ensures LivesLawful(Run(Empty(limit, now), actions)) && AwaitsAreListed(Run(Empty(limit, now), actions))
  {
    if actions == [] {
    } else {
      var n := |actions| - 1;
      RunsWithoutCancelAreLawful(limit, now, actions[..n]);
      NextKeepsAwaitsListed(Run(Empty(limit, now), actions[..n]), actions[n]);
      NextKeepsLives(Run(Empty(limit, now), actions[..n]), actions[n]);
    }
  }

  /* ---- how a task leaves running ---- */

  /** A running task has neither seen done nor timed out; a completed one saw done; a timed-out
      one did not, had its onTimeout called if it has one, and is over; a cancelled one never
      had it called. */
  predicate EndsAsItsStatus(task: Task) {
    match task.status
    case Running => task.dones == 0 && task.timeouts == 0
    case Completed => task.dones == 1
    case TimedOut =>
      task.dones == 0 && task.timeouts == Bit(task.def.hasOnTimeout) && (task.phase.InOnTimeout? || task.phase.Ended?)
    case Cancelled => task.timeouts == 0
  }

  ghost predicate AllEndAsTheirStatus(s: State) {
    forall t :: 0 <= t < |s.tasks| ==> EndsAsItsStatus(s.tasks[t])
  }

  lemma FireKeepsEnds(s: State, t: TaskId)
    requires Enabled(s, Fire(t)) && LifeLaw(s, t) && AllEndAsTheirStatus(s)
    ensures AllEndAsTheirStatus(Next(s, Fire(t)))
  {
    FireDoesExactly(s, t);
  }

  lemma TickReturnKeepsEnds(s: State, t: TaskId, result: TickResult)
    requires Enabled(s, TickReturns(t, result)) && LifeLaw(s, t) && AllEndAsTheirStatus(s)
    requires ChainLaw(s.tasks[t], s.now)
    ensures AllEndAsTheirStatus(Next(s, TickReturns(t, result)))
  {
    TickReturnDoesExactly(s, t, result);
  }

  lemma CancelKeepsEnds(s: State, name: Name)
    requires LivesLawful(s) && AllEndAsTheirStatus(s)
    ensures AllEndAsTheirStatus(Next(s, Cancel(name)))
  {
    CancelDoesExactly(s, name);
    if name in s.active {
      assert LifeLaw(s, s.active[name]);
    }
  }

  lemma NextKeepsEnds(s: State, a: Action)
    requires ChainsLawful(s) && LivesLawful(s) && AllEndAsTheirStatus(s)
    ensures AllEndAsTheirStatus(Next(s, a))
  {
    if Enabled(s, a) {
      match a {
        case Cancel(name) => CancelKeepsEnds(s, name);
        case Fire(t) =>
          assert LifeLaw(s, t);
          FireKeepsEnds(s, t);
        case TickReturns(t, result) =>
          assert LifeLaw(s, t) && ChainLaw(s.tasks[t], s.now);
          TickReturnKeepsEnds(s, t, result);
        case OnErrorReturns(t) => HandlerReturnDoesExactly(s, t);
        case OnTimeoutReturns(t) => HandlerReturnDoesExactly(s, t);
        case _ =>
      }
    }
  }

  /** In every run that reuses no name over an awaited tick, every task has done exactly what
      its status says. */
  lemma {:induction false} TasksEndAsTheirStatus(limit: int, now: Time, actions: seq<Action>)
    requires AllPolite(Empty(limit, now), actions)
    ensures AllEndAsTheirStatus(Run(Empty(limit, now), actions))
  {
    if actions == [] {
    } else {
      var n := |actions| - 1;
      PolitePrefix(Empty(limit, now), actions, n);
      TasksEndAsTheirStatus(limit, now, actions[..n]);
      PoliteRunsAreLawful(limit, now, actions[..n]);
      RunKeepsChains(limit, now, actions[..n]);
      NextKeepsEnds(Run(Empty(limit, now), actions[..n]), actions[n]);
    }
  }

  lemma PolitePrefix(start: State, actions: seq<Action>, n: nat)
    requires AllPolite(start, actions) && n <= |actions|
    ensures AllPolite(start, actions[..n])
  {
    forall i | 0 <= i < n ensures IsPolite(Run(start, actions[..n][..i]), actions[..n][i]) {
      assert actions[..n][..i] == actions[..i];
    }
  }

  /** What left running stays as it is, and starts no tick: only a tick already under way, or
      its handlers, may still come back. */
  lemma EndedTasksStayEnded(s: State, a: Action, t: TaskId)
    requires LivesLawful(s) && IsPolite(s, a) && t < |s.tasks| && !s.tasks[t].status.Running?
    ensures t < |Next(s, a).tasks|
    ensures var (task, task') := (s.tasks[t], Next(s, a).tasks[t]);
            task'.status == task.status && task'.ticks == task.ticks && task'.timeouts == task.timeouts
  {
    assert LifeLaw(s, t);
    if a.Cancel? && a.name in s.active {
      assert LifeLaw(s, s.active[a.name]);
    }
  }

  lemma NamesNeverOverlap(s: State, t: TaskId, u: TaskId)
    requires LivesLawful(s) && t < |s.tasks| && u < |s.tasks| && t != u
    requires s.tasks[t].def.name == s.tasks[u].def.name && s.tasks[t].status.Running?
    ensures !s.tasks[u].phase.Armed? && !Awaits(s.tasks[u])
  {
    assert LifeLaw(s, t) && LifeLaw(s, u);
  }

  /** The premise is exact: from any lawful state, scheduling a name over an awaited tick
      or error handler lets that await, coming back undecided, set the old task ticking
      again beside the new one. */
  lemma ImpoliteScheduleMakesTwoTick(s: State, def: TaskDef, t: TaskId)
    requires LivesLawful(s) && Refusal(s, def).None?
    requires t < |s.tasks| && s.tasks[t].def.name == def.name && Awaits(s.tasks[t])
    ensures !IsPolite(s, Schedule(def))
    ensures var u := |s.tasks|;
            var back := if s.tasks[t].phase.InTick? then TickReturns(t, NotDone) else OnErrorReturns(t);
            var s1 := Next(Next(s, Schedule(def)), back);
            && s1.tasks[t].phase.Armed? && !s1.tasks[t].status.Running?
            && s1.tasks[u].phase.Armed? && s1.tasks[u].def.name == s1.tasks[t].def.name
  {
    assert LifeLaw(s, t);
    var s0 := Next(s, Schedule(def));
    assert s0.active[def.name] == |s.tasks| && s0.tasks[t] == s.tasks[t];
  }

  /** And a tick coming back done takes the old handle out of running a second time and
      unlists the new task, whose timer then ends it without a tick while its handle says
      running for ever. */
  lemma ImpoliteScheduleOrphansTheNewTask(s: State, def: TaskDef, t: TaskId)
    requires LivesLawful(s) && Refusal(s, def).None?
    requires t < |s.tasks| && s.tasks[t].def.name == def.name && s.tasks[t].phase.InTick?
    ensures var u := |s.tasks|;
            var s1 := Next(Next(s, Schedule(def)), TickReturns(t, IsDone));
            var s2 := Next(Next(s1, Advance(def.intervalMs)), Fire(u));
            && s1.tasks[t].exits == 2
            && s1.tasks[u].status.Running? && def.name !in s1.active
            && s2.tasks[u].phase.Ended? && s2.tasks[u].status.Running? && s2.tasks[u].ticks == 0
  {
    var u := |s.tasks|;
    assert LifeLaw(s, t);
    var s0 := Next(s, Schedule(def));
    assert s0.active[def.name] == u && s0.tasks[t] == s.tasks[t];
    var s1 := Next(s0, TickReturns(t, IsDone));
    assert s1.tasks[u] == s0.tasks[u];
  }

  /** A caller that cancels gets there: a watch that is cancelled during its first tick leaves
      that tick awaited and its name free. */
  lemma CancelLeavesATickAwaited(name: Name) returns (actions: seq<Action>, s: State)
    ensures s == Run(Empty(2, 0), actions) && AllPolite(Empty(2, 0), actions)
    ensures |s.tasks| == 1 && s.tasks[0].def == CiWatch(name) && s.tasks[0].phase.InTick?
    ensures Refusal(s, CiWatch(name)).None?
  {
    var def := CiWatch(name);
    actions, s := Also([], Schedule(def));
    assert s.active == map[name := 0] && s.tasks == [Task(def, 0, Running, Armed(0), 0, 0, 0, 0, 0)];
    actions, s := Also(actions, Advance(def.intervalMs));
    actions, s := Also(actions, Fire(0));
    assert s.active == map[name := 0] && |s.tasks| == 1 && s.tasks[0].phase.InTick?;
    actions, s := Also(actions, Cancel(name));
  }

  lemma {:induction false} Also(actions: seq<Action>, a: Action) returns (actions': seq<Action>, s: State)
    requires AllPolite(Empty(2, 0), actions) && IsPolite(Run(Empty(2, 0), actions), a)
    ensures s == Next(Run(Empty(2, 0), actions), a) == Run(Empty(2, 0), actions') && AllPolite(Empty(2, 0), actions')
  {
    actions' := actions + [a];
    assert actions'[..|actions|] == actions;
    forall i | 0 <= i < |actions'| ensures IsPolite(Run(Empty(2, 0), actions'[..i]), actions'[i]) {
      if i < |actions| {
        assert actions'[..i] == actions[..i];
      }
    }
    s := Next(Run(Empty(2, 0), actions), a);
  }

  /** Scheduling the name again then makes two watches of one name tick, or strands the new
      one. */
  lemma {:induction false} CancelThenReuseGoesWrong(name: Name) returns (actions: seq<Action>)
    ensures var s := Run(Empty(2, 0), actions);
            && |s.tasks| == 2 && s.tasks[0].def == s.tasks[1].def == CiWatch(name) && s.tasks[0].phase.InTick?
            && (var both := Next(s, TickReturns(0, NotDone)); both.tasks[0].phase.Armed? && both.tasks[1].phase.Armed?)
            && (var stranded := Next(s, TickReturns(0, IsDone));
                stranded.tasks[0].exits == 2 && stranded.tasks[1].status.Running? && name !in stranded.active)
  {
    var s;
    actions, s := CancelLeavesATickAwaited(name);
    PoliteRunsAreLawful(2, 0, actions);
    ImpoliteScheduleMakesTwoTick(s, CiWatch(name), 0);
    ImpoliteScheduleOrphansTheNewTask(s, CiWatch(name), 0);
    assert (actions + [Schedule(CiWatch(name))])[..|actions|] == actions;
    actions := actions + [Schedule(CiWatch(name))];
  }

  /* ---- a CI watch ---- */

  const CI_WATCH_INTERVAL_MS := 30_000
  const CI_WATCH_MAX_DURATION_MS := 15 * 60 * 1000

  function CiWatch(name: Name): TaskDef {
    TaskDef(name, CI_WATCH_INTERVAL_MS, CI_WATCH_MAX_DURATION_MS, true, true)
  }

  /** A CI watch patches its message in the tick that returns done and in onTimeout. */
  function Patches(task: Task): nat {
    task.dones + task.timeouts
  }

  /** With the default settings a CI watch polls at most 30 times and patches its message
      at most once. */
  lemma {:induction false} CiWatchIsBounded(limit: int, now: Time, actions: seq<Action>, t: TaskId)
    requires t < |Run(Empty(limit, now), actions).tasks|
    requires exists name :: Run(Empty(limit, now), actions).tasks[t].def == CiWatch(name)
    ensures Run(Empty(limit, now), actions).tasks[t].ticks <= 30
    ensures Patches(Run(Empty(limit, now), actions).tasks[t]) <= 1
  {
    TasksAreBounded(limit, now, actions, t);
  }

  /** As long as nobody cancels, its message is not patched while it runs, and has been patched
      exactly once when it no longer does. */
  lemma {:induction false} CiWatchPatchesExactlyOnce(limit: int, now: Time, actions: seq<Action>, t: TaskId, name: Name)
    requires forall a :: a in actions ==> !a.Cancel?
    requires t < |Run(Empty(limit, now), actions).tasks|
    requires Run(Empty(limit, now), actions).tasks[t].def == CiWatch(name)
    ensures var task := Run(Empty(limit, now), actions).tasks[t];
            Patches(task) == if task.status.Running? then 0 else 1
  {
    RunsWithoutCancelArePolite(limit, now, actions);
    TasksEndAsTheirStatus(limit, now, actions);
    RunKeepsChains(limit, now, actions);
    NobodyIsCancelled(limit, now, actions, t);
    var s := Run(Empty(limit, now), actions);
    assert EndsAsItsStatus(s.tasks[t]) && ChainLaw(s.tasks[t], s.now);
  }

  lemma {:induction false} RunsWithoutCancelArePolite(limit: int, now: Time, actions: seq<Action>)
    requires forall a :: a in actions ==> !a.Cancel?
    ensures AllPolite(Empty(limit, now), actions)
  {
    forall i | 0 <= i < |actions| ensures IsPolite(Run(Empty(limit, now), actions[..i]), actions[i]) {
      RunsWithoutCancelAreLawful(limit, now, actions[..i]);
      assert actions[i] in actions;
      NextKeepsAwaitsListed(Run(Empty(limit, now), actions[..i]), actions[i]);
    }
  }

  lemma {:induction false} NobodyIsCancelled(limit: int, now: Time, actions: seq<Action>, t: TaskId)
    requires forall a :: a in actions ==> !a.Cancel?
    requires t < |Run(Empty(limit, now), actions).tasks|
    ensures !Run(Empty(limit, now), actions).tasks[t].status.Cancelled?
  {
    if actions == [] {
    } else {
      var n := |actions| - 1;
      var s := Run(Empty(limit, now), actions[..n]);
      assert actions[n] in actions;
      if t < |s.tasks| {
        NobodyIsCancelled(limit, now, actions[..n], t);
      }
      NextCancelsNobody(s, actions[n], t);
    }
  }

  lemma NextCancelsNobody(s: State, a: Action, t: TaskId)
    requires !a.Cancel? && t < |Next(s, a).tasks| && (t < |s.tasks| ==> !s.tasks[t].status.Cancelled?)
    ensures !Next(s, a).tasks[t].status.Cancelled?
  {
  }

  /** And leave running it does: once its time is up, its next timer makes the one patch. */
  lemma CiWatchEndsInTime(s: State, t: TaskId, name: Name)
    requires ChainsLawful(s) && LivesLawful(s) && AllEndAsTheirStatus(s) && t < |s.tasks|
    requires s.tasks[t].def == CiWatch(name) && s.tasks[t].status.Running? && Enabled(s, Fire(t))
    ensures var task' := Next(s, Fire(t)).tasks[t];
            if s.now > s.tasks[t].startedAt + 15 * 60 * 1000 then Patches(task') == 1 && task'.status.TimedOut?
            else Patches(task') == 0 && task'.phase.InTick? && task'.ticks == s.tasks[t].ticks + 1
  {
    assert LifeLaw(s, t) && EndsAsItsStatus(s.tasks[t]);
    FireDoesExactly(s, t);
  }

  /* ---- the scheduler as it is written ---- */

  /** The map of running tasks, and every task that a closure still holds. */
  class InMemoryScheduler {
    const limit: int
    var tasks: seq<Task>
    var active: map<Name, TaskId>

    constructor (limit: int)
      ensures this.limit == limit && tasks == [] && active == map[]
    {
      this.limit, tasks, active := limit, [], map[];
    }

    ghost function At(now: Time): State
      reads this
    {
      State(tasks, active, limit, now)
    }

    method Schedule(def: TaskDef, now: Time) returns (error: Option<ScheduleError>)
      modifies this
      ensures error == Refusal(old(At(now)), def)
      ensures At(now) == Scheduled(old(At(now)), def)
    {
      if def.intervalMs < MIN_INTERVAL_MS {
        return Some(InvalidArgument);
      }
      if def.maxDurationMs <= 0 {
        return Some(InvalidArgument);
      }
      if def.name in active {
        return Some(DuplicateName);
      }
      if |active| >= limit {
        return Some(LimitReached);
      }
      active := active[def.name := |tasks|];
      tasks := tasks + [Task(def, now, Running, Armed(now), 0, now, 0, 0, 0)];
      error := None;
    }

    method SetStatus(t: TaskId, status: Status, now: Time)
      requires t < |tasks|
      modifies this
      ensures At(now) == Transition(old(At(now)), t, status)
    {
      var task := tasks[t];
      if task.def.name !in active {
        return;
      }
      tasks := tasks[t := task.(status := status, exits := task.exits + 1,
                                phase := if task.phase.Armed? then Ended else task.phase)];
      active := active - {task.def.name};
    }

    method Cancel(name: Name, now: Time)
      modifies this
      ensures At(now) == CancelName(old(At(now)), name)
    {
      if name in active && active[name] < |tasks| {
        SetStatus(active[name], Cancelled, now);
      }
    }

    /** `run` up to its first await. */
    method RunTask(t: TaskId, now: Time)
      requires t < |tasks|
      modifies this
      ensures At(now) == FireTimer(old(At(now)), t)
    {
      if tasks[t].def.name !in active {
        tasks := tasks[t := tasks[t].(phase := Ended)];
        return;
      }
      var task := tasks[t];
      if now - task.startedAt > task.def.maxDurationMs {
        SetStatus(t, TimedOut, now);
        if task.def.hasOnTimeout {
          tasks := tasks[t := tasks[t].(phase := InOnTimeout, timeouts := task.timeouts + 1)];
        } else {
          tasks := tasks[t := tasks[t].(phase := Ended)];
        }
        return;
      }
      tasks := tasks[t := task.(phase := InTick, ticks := task.ticks + 1, lastStart := now)];
    }

    /** `run` from the tick's return to its next await. */
    method AfterTickReturns(t: TaskId, result: TickResult, now: Time)
      requires t < |tasks|
      modifies this
      ensures At(now) == AfterTick(old(At(now)), t, result)
    {
      if result.IsDone? {
        tasks := tasks[t := tasks[t].(dones := tasks[t].dones + 1)];
      }
      if tasks[t].def.name !in active {
        tasks := tasks[t := tasks[t].(phase := Ended)];
        return;
      }
      if result.IsDone? {
        SetStatus(t, Completed, now);
        tasks := tasks[t := tasks[t].(phase := Ended)];
        return;
      }
      var handles := result.Threw? && tasks[t].def.hasOnError;
      tasks := tasks[t := tasks[t].(phase := if handles then InOnError else Armed(now))];
    }
  }
}
