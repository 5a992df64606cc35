/** What the manager of the local speech server does step by step (audio/wsl2_server_manager.py), said of its states and
    its log. */
module ServerRuns {
  import opened Prelude
  import opened ServerHealth

  // ----- Whoever makes the server ready has it watched -----

  /** The step of task `id` made the server ready, or its first probe found the server answering. */
  predicate FindsServerUp(s: State, id: nat, a: Answer, next: State)
    requires id in s.tasks
  {
    || (|s.log| < |next.log| && next.log[|next.log| - 1] == Event(id, BecomesReady))
    || (s.tasks[id].Point() == Some(StartProbe) && a.ok)
  }

  /** A health loop is registered and alive: the one that was, or a fresh one. */
  predicate IsWatched(s: State, next: State) {
    && next.globals.healthTask.Some? && next.globals.healthTask.value in next.tasks
    && if s.globals.healthTask.Some? && s.globals.healthTask.value in s.tasks then
         next.globals.healthTask == s.globals.healthTask && next.nextId == s.nextId
       else
         && next.globals.healthTask == Some(s.nextId) && next.nextId == s.nextId + 1
         && next.tasks[s.nextId] == HealthLoop(0, 0, Sleeping)
  }

  predicate NumbersAreFresh(s: State) {
    && (forall id <- s.tasks :: id < s.nextId)
    && (s.globals.healthTask.Some? ==> s.globals.healthTask.value < s.nextId)
  }

  lemma CommitWatches(s: State, id: nat, g: Globals, events: seq<Kind>, needsLoop: bool, task: Option<Task>)
    requires id in s.tasks && (forall other <- s.tasks :: other < s.nextId)
    requires g.healthTask == s.globals.healthTask && (s.LoopIsAlive() ==> g.healthTask != Some(id))
    requires g.healthTask.Some? ==> g.healthTask.value < s.nextId
    ensures var next := s.Commit(id, g, events, needsLoop, task);
      if needsLoop then IsWatched(s, next) else next.nextId == s.nextId
    ensures s.Commit(id, g, events, needsLoop, task).log == s.log + Stamp(id, events)
  {
  }

  lemma StepNeedsLoop(g: Globals, point: CallPoint, a: Answer)
    ensures var e := StepCall(g, point, a);
      && (e.needsLoop <==>
            (e.events != [] && e.events[|e.events| - 1] == BecomesReady) || (point == StartProbe && a.ok))
      && (e.needsLoop ==> e.progress == Return(true) && e.globals.healthTask == g.healthTask)
      && (!point.StopWait? ==> e.globals.healthTask == g.healthTask)
  {
  }

  lemma StampedLast(log: seq<Event>, id: nat, events: seq<Kind>)
    ensures var all := log + Stamp(id, events);
      |log| < |all| && all[|all| - 1] == Event(id, BecomesReady)
      <==> events != [] && events[|events| - 1] == BecomesReady
  {
  }

  /** The task after a step of the call it is in. */
  function TaskAfter(task: Task, progress: Progress): Option<Task> {
    match progress
    case Continue(point) => Some(if task.Call? then Call(point) else task.(at := Restarting(point)))
    case Return(ok) =>
      if task.Call? then None else Some(if ok then task.(failures := 0, at := Sleeping) else task.(at := Sleeping))
  }

  lemma StopWaitMakesNoLoop(s: State, id: nat, a: Answer)
    requires id in s.tasks && s.tasks[id].WaitsInStop() && !s.IsBlocked(id)
    ensures var next := Apply(s, Resume(id, a)); next.nextId == s.nextId && !FindsServerUp(s, id, a, next)
  {
    assert s.log + Stamp(id, []) == s.log;
  }

  lemma ResumeCommits(s: State, id: nat, a: Answer)
    requires id in s.tasks && s.tasks[id].Point().Some? && !s.IsBlocked(id)
    ensures
      var e := StepCall(s.globals, s.tasks[id].Point().value, a);
      var failed := s.tasks[id].HealthLoop? && e.progress == Return(false);
      Apply(s, Resume(id, a)) == s.Commit(id, if failed then e.globals.(server := Error) else e.globals, e.events,
                                          e.needsLoop, TaskAfter(s.tasks[id], e.progress))
  {
    hide StepCall, State.Commit;
    var e := StepCall(s.globals, s.tasks[id].Point().value, a);
    assert [] + e.events == e.events;
  }

  lemma RunningLoopIsNoCall(s: State, manual: nat, id: nat)
    requires Invariant(s, manual) && id in s.tasks && s.tasks[id].Point().Some? && !s.tasks[id].WaitsInStop()
    ensures NumbersAreFresh(s) && s.globals.healthTask != Some(id)
  {
    hide FailedChecks, LastAnswer, LastAutoRestart, AutoRestarts, AreJustified, IsRecorded, WaitsAreSound;
  }

  /** A step of a start or restart that finds the server up leaves a health loop; no other step makes one. */
  lemma StartsLeaveALoop(s: State, manual: nat, id: nat, a: Answer)
    requires Invariant(s, manual) && id in s.tasks && s.tasks[id].Point().Some? && !s.IsBlocked(id)
    ensures var next := Apply(s, Resume(id, a));
      if FindsServerUp(s, id, a, next) then IsWatched(s, next) else next.nextId == s.nextId
  {
    if s.tasks[id].WaitsInStop() {
      StopWaitMakesNoLoop(s, id, a);
    } else {
      hide Invariant, StepCall, Apply, State.Commit, IsWatched, TaskAfter;
      var e := StepCall(s.globals, s.tasks[id].Point().value, a);
      RunningLoopIsNoCall(s, manual, id);
      ResumeCommits(s, id, a);
      StepNeedsLoop(s.globals, s.tasks[id].Point().value, a);
      StampedLast(s.log, id, e.events);
      var failed := s.tasks[id].HealthLoop? && e.progress == Return(false);
      CommitWatches(s, id, if failed then e.globals.(server := Error) else e.globals, e.events, e.needsLoop,
        TaskAfter(s.tasks[id], e.progress));
    }
  }

  // ----- Starts -----

  /** A start begins to probe exactly if no start is under way and no manual stop keeps it back; otherwise it changes
      nothing. */
  lemma StartBeginsIff(s: State, force: bool)
    requires NumbersAreFresh(s)
    ensures
      var next := Apply(s, StartServer(force));
      && next.globals == s.globals && next.log == s.log
      && next.tasks ==
           if (force || !s.globals.manuallyStopped) && s.globals.server !in {Starting, LoadingModel, WarmingUp} then
             s.tasks[s.nextId := Call(StartProbe)]
           else s.tasks
  {
    assert s.log + Stamp(s.nextId, []) == s.log;
    assert s.tasks - {s.nextId} == s.tasks;
  }

  /** The task of a start waits at this point; the other tasks are those of s. */
  predicate IsAt(s: State, now: State, g: Globals, point: CallPoint) {
    && now.globals == g && now.tasks == s.tasks[s.nextId := Call(point)] && now.nextId == s.nextId + 1
  }

  lemma StartIsBegun(s: State, force: bool)
    requires s.globals.server in {Stopped, Error} && (force || !s.globals.manuallyStopped) && NumbersAreFresh(s)
    ensures IsAt(s, Apply(s, StartServer(force)), s.globals, StartProbe) && Apply(s, StartServer(force)).log == s.log
  {
    assert s.log + Stamp(s.nextId, []) == s.log;
  }

  lemma StartStep(s: State, now: State, a: Answer, g: Globals, point: CallPoint, h: Globals, events: seq<Kind>,
                  then_: CallPoint) returns (next: State)
    requires IsAt(s, now, g, point) && !point.StopWait?
    requires StepCall(g, point, a) == Effect(h, events, false, Continue(then_))
    ensures next == Apply(now, Resume(s.nextId, a))
    ensures IsAt(s, next, h, then_) && next.log == now.log + Stamp(s.nextId, events)
  {
    hide StepCall;
    next := Apply(now, Resume(s.nextId, a));
  }

  lemma StartEnds(s: State, now: State, a: Answer, g: Globals, point: CallPoint, events: seq<Kind>)
      returns (next: State)
    requires IsAt(s, now, g, point) && !point.StopWait? && !s.LoopIsAlive() && NumbersAreFresh(s)
    requires g.healthTask == s.globals.healthTask
    requires StepCall(g, point, a) == Effect(g.(server := Ready), events, true, Return(true))
    ensures next == Apply(now, Resume(s.nextId, a))
    ensures next.globals == g.(server := Ready, healthTask := Some(s.nextId + 1))
    ensures next.tasks == s.tasks[s.nextId + 1 := HealthLoop(0, 0, Sleeping)]
    ensures next.log == now.log + Stamp(s.nextId, events)
  {
    hide StepCall;
    next := Apply(now, Resume(s.nextId, a));
    assert s.tasks[s.nextId := Call(point)] - {s.nextId} == s.tasks;
  }

  /** A server that does not answer yet is launched and polled.  That also ends a manual stop. */
  lemma ColdStartLaunches(s: State, force: bool, loaded: bool)
      returns (s1: State, s2: State, s3: State, s4: State, s5: State, s6: State)
    requires s.globals.server in {Stopped, Error} && !s.LoopIsAlive() && (force || !s.globals.manuallyStopped)
    requires NumbersAreFresh(s)
    ensures s1 == Apply(s, StartServer(force)) && s2 == Apply(s1, Resume(s.nextId, Answer(false, loaded)))
    ensures s3 == Apply(s2, Resume(s.nextId, Answer(true, loaded)))
    ensures s4 == Apply(s3, Resume(s.nextId, Answer(true, loaded)))
    ensures s5 == Apply(s4, Resume(s.nextId, Answer(true, loaded)))
    ensures s6 == Apply(s5, Resume(s.nextId, Answer(true, loaded)))
    ensures IsAt(s, s1, s.globals, StartProbe) && IsAt(s, s2, s.globals, WslCheck) && IsAt(s, s3, s.globals, SetupCheck)
    ensures IsAt(s, s4, s.globals.(manuallyStopped := false, server := Starting), Launch)
    ensures IsAt(s, s5, s.globals.(manuallyStopped := false, server := LoadingModel), PollSleep(0))
    ensures IsAt(s, s6, s.globals.(manuallyStopped := false, server := LoadingModel), PollProbe(3))
    ensures s6.log == s.log + [Event(s.nextId, Probe(false))]
  {
    var g, up, silent := s.globals, Answer(true, loaded), Answer(false, loaded);
    StartIsBegun(s, force);
    hide Apply, IsAt;
    s1 := Apply(s, StartServer(force));
    s2 := StartStep(s, s1, silent, g, StartProbe, g, [Probe(false)], WslCheck);
    s3 := StartStep(s, s2, up, g, WslCheck, g, [], SetupCheck);
    var starting := g.(server := Starting, manuallyStopped := false);
    s4 := StartStep(s, s3, up, g, SetupCheck, starting, [], Launch);
    var loading := starting.(server := LoadingModel);
    s5 := StartStep(s, s4, up, starting, Launch, loading, [], PollSleep(0));
    s6 := StartStep(s, s5, up, loading, PollSleep(0), loading, [], PollProbe(3));
    assert Stamp(s.nextId, [Probe(false)]) == [Event(s.nextId, Probe(false))] && Stamp(s.nextId, []) == [];
  }

  function ToFirstPoll(id: nat, force: bool, loaded: bool): seq<Action> {
    [StartServer(force), Resume(id, Answer(false, loaded)), Resume(id, Answer(true, loaded)),
     Resume(id, Answer(true, loaded)), Resume(id, Answer(true, loaded)), Resume(id, Answer(true, loaded))]
  }

  lemma ThreeEvents(log: seq<Event>, id: nat)
    ensures
      var all := log + [Event(id, Probe(false)), Event(id, Probe(true)), Event(id, BecomesReady)];
      && log + [Event(id, Probe(false))] + Stamp(id, [Probe(true)]) + Stamp(id, [BecomesReady]) == all
      && log + [Event(id, Probe(false))] + Stamp(id, [Probe(true), BecomesReady]) == all
  {
  }

  /** Once it answers it becomes ready, with the model loaded only after a warm-up, and a new health loop watches it. */
  lemma ColdStartEnds(s: State, force: bool, loaded: bool) returns (s6: State, s7: State, ready: State)
    requires s.globals.server in {Stopped, Error} && !s.LoopIsAlive() && (force || !s.globals.manuallyStopped)
    requires NumbersAreFresh(s)
    ensures s6 == Run(s, ToFirstPoll(s.nextId, force, loaded))
    ensures s7 == Apply(s6, Resume(s.nextId, Answer(true, loaded)))
    ensures loaded ==> IsAt(s, s7, s.globals.(manuallyStopped := false, server := WarmingUp), Warmup)
    ensures ready == if loaded then Apply(s7, Resume(s.nextId, Answer(true, loaded))) else s7
    ensures ready.globals == Globals(Ready, s.globals.restartCount, false, Some(s.nextId + 1))
    ensures ready.tasks == s.tasks[s.nextId + 1 := HealthLoop(0, 0, Sleeping)]
    ensures ready.log ==
      s.log + [Event(s.nextId, Probe(false)), Event(s.nextId, Probe(true)), Event(s.nextId, BecomesReady)]
  {
    hide Apply, IsAt, Run;
    var up := Answer(true, loaded);
    var loading := s.globals.(manuallyStopped := false, server := LoadingModel);
    var s1, s2, s3, s4, s5;
    s1, s2, s3, s4, s5, s6 := ColdStartLaunches(s, force, loaded);
    RunSix(s, ToFirstPoll(s.nextId, force, loaded));
    if loaded {
      s7 := StartStep(s, s6, up, loading, PollProbe(3), loading.(server := WarmingUp), [Probe(true)], Warmup);
      ready := StartEnds(s, s7, up, loading.(server := WarmingUp), Warmup, [BecomesReady]);
    } else {
      s7 := StartEnds(s, s6, up, loading, PollProbe(3), [Probe(true), BecomesReady]);
      ready := s7;
    }
    ThreeEvents(s.log, s.nextId);
  }

  /** From the very start: a server that has to be launched ends ready and watched by a sleeping health loop. */
  lemma FirstColdStart(now: int)
    ensures
      var s := Run(Initial(now), ToFirstPoll(0, false, true) + [Resume(0, YES), Resume(0, YES)]);
      && s.globals == Globals(Ready, 0, false, Some(1)) && s.tasks == map[1 := HealthLoop(0, 0, Sleeping)]
  {
    hide Apply, Run;
    var s6, s7, ready := ColdStartEnds(Initial(now), false, true);
    RunTwo(s6, Resume(0, YES), Resume(0, YES));
    RunAppend(Initial(now), ToFirstPoll(0, false, true), [Resume(0, YES), Resume(0, YES)]);
  }

  /** A server that is up already is found by the first probe: ready once its model is loaded, and watched. */
  lemma RunningServerIsFound(s: State, manual: nat, force: bool, loaded: bool)
    requires Invariant(s, manual) && s.globals.server in {Stopped, Ready, Error}
    requires force || !s.globals.manuallyStopped
    ensures
      var s1 := Apply(s, StartServer(force));
      var next := Apply(s1, Resume(s.nextId, Answer(true, loaded)));
      && s1.tasks == s.tasks[s.nextId := Call(StartProbe)] && IsWatched(s1, next)
      && next.globals == s.globals.(server := if loaded then Ready else LoadingModel,
                                    healthTask := next.globals.healthTask)
  {
    var s1 := Apply(s, StartServer(force));
    ApplyKeeps(s, manual, StartServer(force));
    InvariantIsFresh(s, manual);
    StartBeginsIff(s, force);
    hide Invariant;
    FirstProbe(s1, s.nextId, loaded);
    StartsLeaveALoop(s1, manual, s.nextId, Answer(true, loaded));
  }

  lemma InvariantIsFresh(s: State, manual: nat)
    requires Invariant(s, manual)
    ensures NumbersAreFresh(s)
  {
    hide FailedChecks, LastAnswer, LastAutoRestart, AutoRestarts, AreJustified, IsRecorded, WaitsAreSound;
  }

  lemma FirstProbe(s: State, id: nat, loaded: bool)
    requires id in s.tasks && s.tasks[id] == Call(StartProbe)
    ensures
      var next := Apply(s, Resume(id, Answer(true, loaded)));
      next.globals == s.globals.(server := if loaded then Ready else LoadingModel,
                                 healthTask := next.globals.healthTask)
  {
  }

  // ----- Stops and restarts -----

  /** Without a health loop a stop is done at once, but for killing the processes. */
  lemma StopStops(s: State, byUser: bool, killed: bool)
    requires NumbersAreFresh(s) && !s.LoopIsAlive()
    ensures
      var s1 := Apply(s, StopServer(byUser));
      var next := Apply(s1, Resume(s.nextId, Answer(killed, false)));
      && s1.globals == s.globals.(server := Stopped, manuallyStopped := byUser || s.globals.manuallyStopped)
      && next.globals == s1.globals && s1.tasks == s.tasks[s.nextId := Call(StopKill(false))] && next.tasks == s.tasks
  {
    assert s.tasks[s.nextId := Call(StopKill(false))] - {s.nextId} == s.tasks;
  }

  /** A restart counts, stops, pauses and then starts the server, also where a manual stop is in force. */
  lemma RestartStarts(s: State, killed: bool)
    requires NumbersAreFresh(s) && !s.LoopIsAlive()
    ensures
      var s1 := Apply(s, RestartServer);
      var s2 := Apply(s1, Resume(s.nextId, Answer(killed, false)));
      var next := Apply(s2, Resume(s.nextId, YES));
      var g := s.globals.(server := Stopped, restartCount := s.globals.restartCount + 1);
      && IsAt(s, s1, g, StopKill(true)) && IsAt(s, s2, g, RestartPause) && IsAt(s, next, g, StartProbe)
  {
  }

  /** The loop that is registered, is not in a call and is not cancelled. */
  predicate IsWatchedBy(s: State, loop: nat) {
    && s.globals.healthTask == Some(loop) && loop in s.tasks && s.tasks[loop].HealthLoop?
    && s.tasks[loop].at in {Sleeping, Probing}
  }

  /** A stop first cancels the running health loop and waits for it to end; only then is the server stopped. */
  lemma StopCancelsLoop(s: State, byUser: bool, killed: bool, a: Answer, loop: nat)
    requires NumbersAreFresh(s) && IsWatchedBy(s, loop)
    ensures
      var id := s.nextId;
      var s1 := Apply(s, StopServer(byUser));
      var s2 := Apply(s1, Resume(loop, a));
      var s3 := Apply(s2, Resume(id, a));
      var next := Apply(s3, Resume(id, Answer(killed, false)));
      var g := s.globals.(manuallyStopped := byUser || s.globals.manuallyStopped);
      && s1.globals == g && s1.tasks[loop].at.Cancelled? && Apply(s1, Resume(id, a)) == s1
      && s2.globals == g && loop !in s2.tasks && s3.globals == g.(server := Stopped, healthTask := None)
      && next.globals == s3.globals && next.tasks == s.tasks - {loop}
  {
    var s1 := StopWaits(s, byUser, loop);
    var s2 := LoopEnds(s1, loop, a);
    var s3 := WaitIsOver(s2, s.nextId, loop, a);
    var next := Killed(s3, s.nextId, killed);
    assert next.tasks == s.tasks - {loop};
  }

  lemma StopWaits(s: State, byUser: bool, loop: nat) returns (s1: State)
    requires NumbersAreFresh(s) && IsWatchedBy(s, loop)
    ensures s1 == Apply(s, StopServer(byUser))
    ensures s1.globals == s.globals.(manuallyStopped := byUser || s.globals.manuallyStopped)
    ensures s1.tasks == s.tasks[loop := s.tasks[loop].(at := Cancelled)][s.nextId := Call(StopWait(false, loop))]
    ensures loop < s.nextId && forall a :: Apply(s1, Resume(s.nextId, a)) == s1
  {
    s1 := Apply(s, StopServer(byUser));
  }

  lemma LoopEnds(s: State, loop: nat, a: Answer) returns (next: State)
    requires loop in s.tasks && s.tasks[loop].HealthLoop? && s.tasks[loop].at.Cancelled?
    ensures next == Apply(s, Resume(loop, a)) && next.globals == s.globals && next.tasks == s.tasks - {loop}
  {
    next := Apply(s, Resume(loop, a));
  }

  lemma WaitIsOver(s: State, id: nat, loop: nat, a: Answer) returns (next: State)
    requires id in s.tasks && s.tasks[id] == Call(StopWait(false, loop)) && loop !in s.tasks
    ensures next == Apply(s, Resume(id, a)) && next.globals == s.globals.(server := Stopped, healthTask := None)
    ensures next.tasks == s.tasks[id := Call(StopKill(false))]
  {
    next := Apply(s, Resume(id, a));
  }

  lemma Killed(s: State, id: nat, killed: bool) returns (next: State)
    requires id in s.tasks && s.tasks[id] == Call(StopKill(false)) && s.globals.server == Stopped
    ensures next == Apply(s, Resume(id, Answer(killed, false)))
    ensures next.globals == s.globals && next.tasks == s.tasks - {id}
  {
    next := Apply(s, Resume(id, Answer(killed, false)));
  }

  // ----- Starts that fail -----

  /** The start or restart at this point ends in an error. */
  predicate HasFailed(s: State, id: nat, next: State)
    requires id in s.tasks
  {
    && next.globals == s.globals.(server := Error) && next.nextId == s.nextId
    && next.tasks ==
         if s.tasks[id].Call? then s.tasks - {id} else s.tasks[id := s.tasks[id].(at := Sleeping)]
  }

  /** No WSL, no setup, no process, or a process that dies: the start fails. */
  lemma StartFails(s: State, id: nat, loaded: bool)
    requires id in s.tasks && s.tasks[id].Point().Some?
    requires var point := s.tasks[id].Point().value; point in {WslCheck, SetupCheck, Launch} || point.PollSleep?
    ensures HasFailed(s, id, Apply(s, Resume(id, Answer(false, loaded))))
  {
  }

  function Polls(id: nat, n: nat): seq<Action> {
    if n == 0 then [] else Polls(id, n - 1) + [Resume(id, YES), Resume(id, NO)]
  }

  lemma OnePoll(s: State, id: nat, waited: nat)
    requires Awaits(s, id, PollSleep(waited))
    ensures
      var next := Apply(Apply(s, Resume(id, YES)), Resume(id, NO));
      if waited + 3 < 180 then next.globals == s.globals && Awaits(next, id, PollSleep(waited + 3))
      else next.globals == s.globals.(server := Error) && (id in next.tasks ==> next.tasks[id].Point().None?)
  {
    var s1 := Apply(s, Resume(id, YES));
    GoesOn(s, id, PollSleep(waited), YES);
    if waited + 3 < 180 {
      GoesOn(s1, id, PollProbe(waited + 3), NO);
    }
  }

  /** A launched server that never answers is polled sixty times, every three seconds; then the start fails. */
  lemma {:induction false} PollingGivesUp(s: State, id: nat, n: nat)
    requires Awaits(s, id, PollSleep(0)) && n <= 60
    ensures
      var next := Run(s, Polls(id, n));
      if n < 60 then next.globals == s.globals && Awaits(next, id, PollSleep(3 * n))
      else next.globals == s.globals.(server := Error) && (id in next.tasks ==> next.tasks[id].Point().None?)
  {
    hide Apply, Run;
    if n == 0 {
      RunNone(s);
    } else {
      PollingGivesUp(s, id, n - 1);
      var before := Run(s, Polls(id, n - 1));
      OnePoll(before, id, 3 * (n - 1));
      RunTwo(before, Resume(id, YES), Resume(id, NO));
      RunAppend(s, Polls(id, n - 1), [Resume(id, YES), Resume(id, NO)]);
    }
  }

  // ----- What a health check leads to -----

  lemma CommitShows(s: State, id: nat, g: Globals, events: seq<Kind>, task: Option<Task>)
    ensures
      var next := s.Commit(id, g, events, false, task);
      && next.globals == g && next.log == s.log + Stamp(id, events) && next.log[|s.log|..] == Stamp(id, events)
      && next.tasks == if task.Some? then s.tasks[id := task.value] else s.tasks - {id}
  {
  }

  /** The check failed for at least the second time in a row, and the last restart is a minute ago. */
  predicate RestartIsDue(s: State, id: nat, a: Answer)
    requires id in s.tasks && s.tasks[id].HealthLoop?
  {
    !a.ok && s.tasks[id].failures >= 1 && s.now - s.tasks[id].lastRestart >= 60
  }

  /** A loop's check restarts the server exactly if a restart is due and there were fewer than three; if there were, the
      loop ends and the server is in error. */
  lemma CheckDecides(s: State, id: nat, a: Answer)
    requires id in s.tasks && s.tasks[id].HealthLoop? && s.tasks[id].at.Probing?
    ensures
      var next, loop := Apply(s, Resume(id, a)), s.tasks[id];
      && (Event(id, AutoRestart(s.now)) in next.log[|s.log|..] <==>
            RestartIsDue(s, id, a) && s.globals.restartCount < 3)
      && (id !in next.tasks <==> RestartIsDue(s, id, a) && s.globals.restartCount >= 3)
      && (a.ok ==>
            next.globals == s.globals.(server := Ready) && next.tasks[id] == loop.(failures := 0, at := Sleeping))
      && (!a.ok && !RestartIsDue(s, id, a) ==>
            next.globals == s.globals && next.tasks[id] == loop.(failures := loop.failures + 1, at := Sleeping))
      && (RestartIsDue(s, id, a) && s.globals.restartCount >= 3 ==> next.globals == s.globals.(server := Error))
      && (RestartIsDue(s, id, a) && s.globals.restartCount < 3 ==>
            && next.globals.restartCount == s.globals.restartCount + 1
            && next.globals.manuallyStopped == s.globals.manuallyStopped
            && next.tasks[id].HealthLoop? && next.tasks[id].at.Restarting? && next.tasks[id].lastRestart == s.now)
  {
    hide State.Commit, State.CancelLoop, Stamp;
    var loop, g := s.tasks[id], s.globals;
    var failing := loop.(failures := loop.failures + 1, at := Sleeping);
    if a.ok {
      CommitShows(s, id, g.(server := Ready), if g.server != Ready then [Check(true), BecomesReady] else [Check(true)],
        Some(loop.(failures := 0, at := Sleeping)));
    } else if !RestartIsDue(s, id, a) {
      CommitShows(s, id, g, [Check(false)], Some(failing));
    } else if g.restartCount >= 3 {
      CommitShows(s, id, g.(server := Error), [Check(false)], None);
    } else {
      var e := BeginStop(g.(server := Starting, restartCount := g.restartCount + 1), false, true, s.LoopIsAlive());
      var events := [Check(false), AutoRestart(s.now)];
      assert events + e.events == events;
      CommitShows(s.CancelLoop(), id, e.globals, events,
        Some(failing.(lastRestart := s.now, at := Restarting(e.progress.point))));
      assert Stamp(id, events)[1] == Event(id, AutoRestart(s.now));
    }
  }

  // ----- What every log shows -----

  /** The event is one of task `id` with this answer to a probe or a check. */
  predicate IsAnswerOf(e: Event, id: nat, running: bool) {
    e.task == id && (e.kind == Probe(running) || e.kind == Check(running))
  }

  /** Behind position i up to position j, task `id` got no good answer. */
  predicate NoGoodAnswer(log: seq<Event>, id: nat, i: nat, j: nat)
    requires j <= |log|
  {
    forall k :: i <= k < j ==> !IsAnswerOf(log[k], id, true)
  }

  /** An automatic restart comes behind two failed checks of its loop, with no good answer since. */
  predicate IsDueAt(log: seq<Event>, j: nat)
    requires j < |log|
  {
    exists i1, i2 :: 0 <= i1 < i2 < j && log[i1] == log[i2] == Event(log[j].task, Check(false))
      && NoGoodAnswer(log, log[j].task, i1, j)
  }

  /** A change to ready comes behind a good answer that its task got last. */
  predicate IsAnsweredAt(log: seq<Event>, j: nat)
    requires j < |log|
  {
    exists i :: 0 <= i < j && IsAnswerOf(log[i], log[j].task, true)
      && forall k :: i < k < j ==> !IsAnswerOf(log[k], log[j].task, false)
  }

  lemma {:induction false} FailedCheck(log: seq<Event>, id: nat) returns (i: nat)
    requires FailedChecks(log, id) >= 1
    ensures i < |log| && log[i] == Event(id, Check(false)) && NoGoodAnswer(log, id, i, |log|)
    ensures FailedChecks(log[..i], id) == FailedChecks(log, id) - 1
  {
    var last, front := log[|log| - 1], log[..|log| - 1];
    if last == Event(id, Check(false)) {
      i := |log| - 1;
    } else {
      i := FailedCheck(front, id);
      assert front[..i] == log[..i];
    }
  }

  lemma TwoFailedChecks(log: seq<Event>, j: nat)
    requires j < |log| && FailedChecks(log[..j], log[j].task) >= 2
    ensures IsDueAt(log, j)
  {
    var id := log[j].task;
    var i2 := FailedCheck(log[..j], id);
    assert log[..j][..i2] == log[..i2];
    var i1 := FailedCheck(log[..i2], id);
    assert log[i1] == log[..i2][i1] && log[i2] == log[..j][i2];
    forall k | i1 <= k < j ensures !IsAnswerOf(log[k], id, true) {
      assert k < i2 ==> log[k] == log[..i2][k];
      assert k >= i2 ==> log[k] == log[..j][k];
    }
  }

  lemma {:induction false} GoodAnswerLast(log: seq<Event>, id: nat) returns (i: nat)
    requires LastAnswer(log, id) == Some(true)
    ensures i < |log| && IsAnswerOf(log[i], id, true)
    ensures forall k :: i < k < |log| ==> !IsAnswerOf(log[k], id, false)
  {
    var last := log[|log| - 1];
    if last.task == id && last.kind.IsAnswer() {
      i := |log| - 1;
    } else {
      i := GoodAnswerLast(log[..|log| - 1], id);
    }
  }

  lemma GoodAnswerBefore(log: seq<Event>, j: nat)
    requires j < |log| && LastAnswer(log[..j], log[j].task) == Some(true)
    ensures IsAnsweredAt(log, j)
  {
    var i := GoodAnswerLast(log[..j], log[j].task);
    assert log[i] == log[..j][i];
    assert forall k :: i < k < j ==> log[k] == log[..j][k];
  }

  lemma {:induction false} RestartBefore(log: seq<Event>, id: nat, i: nat) returns (k: nat)
    requires i < |log| && log[i].task == id && log[i].kind.AutoRestart?
    ensures i <= k < |log| && log[k].task == id && log[k].kind.AutoRestart?
    ensures LastAutoRestart(log, id) == Some(log[k].kind.time)
  {
    var last := log[|log| - 1];
    if last.task == id && last.kind.AutoRestart? {
      k := |log| - 1;
    } else {
      k := RestartBefore(log[..|log| - 1], id, i);
    }
  }

  /** Automatic restarts of one loop are at least a minute apart. */
  lemma {:induction false} RestartsAreApart(log: seq<Event>, i: nat, j: nat)
    requires AreJustified(log) && i < j < |log| && log[i].task == log[j].task
    requires log[i].kind.AutoRestart? && log[j].kind.AutoRestart?
    ensures log[j].kind.time - log[i].kind.time >= 60
    decreases j
  {
    var k := RestartBefore(log[..j], log[j].task, i);
    assert log[k] == log[..j][k] && IsJustified(log[..j], log[j]);
    if i < k {
      RestartsAreApart(log, i, k);
    }
  }

  function Restarts(log: seq<Event>): set<nat> {
    set j: nat | j < |log| && log[j].kind.AutoRestart?
  }

  lemma {:induction false} RestartsAreCounted(log: seq<Event>)
    ensures |Restarts(log)| == AutoRestarts(log)
  {
    if log == [] {
      assert Restarts(log) == {};
    } else {
      var last := |log| - 1;
      RestartsAreCounted(log[..last]);
      assert Restarts(log) == Restarts(log[..last]) + if log[last].kind.AutoRestart? then {last} else {};
    }
  }

  /** What the log of every run shows, whatever is called, cancelled or fails and however many loops there are. */
  lemma LogsAreSafe(now: int, actions: seq<Action>)
    ensures
      var log := Run(Initial(now), actions).log;
      && |Restarts(log)| <= 3
      && (forall j :: 0 <= j < |log| && log[j].kind.AutoRestart? ==> IsDueAt(log, j))
      && (forall i, j | 0 <= i < j < |log| && log[i].kind.AutoRestart? && log[j].kind.AutoRestart? ::
            log[i].task == log[j].task ==> log[j].kind.time - log[i].kind.time >= 60)
      && (forall j :: 0 <= j < |log| && log[j].kind.BecomesReady? ==> IsAnsweredAt(log, j))
  {
    hide Run, IsDueAt, IsAnsweredAt, FailedChecks, LastAnswer, LastAutoRestart, AutoRestarts, Restarts;
    RunsAreSafe(now, actions);
    var log := Run(Initial(now), actions).log;
    RestartsAreCounted(log);
    forall j | 0 <= j < |log| && log[j].kind.AutoRestart? ensures IsDueAt(log, j) {
      assert IsJustified(log[..j], log[j]);
      TwoFailedChecks(log, j);
    }
    forall j | 0 <= j < |log| && log[j].kind.BecomesReady? ensures IsAnsweredAt(log, j) {
      assert IsJustified(log[..j], log[j]);
      GoodAnswerBefore(log, j);
    }
    forall i, j | 0 <= i < j < |log| && log[i].kind.AutoRestart? && log[j].kind.AutoRestart?
      && log[i].task == log[j].task
      ensures log[j].kind.time - log[i].kind.time >= 60
    {
      RestartsAreApart(log, i, j);
    }
  }
}
