/** The manager of the local speech server (audio/wsl2_server_manager.py).

    Its coroutines are modelled as tasks that run from one await to the next.  Several health loops,
    starts, stops and restarts may be under way at the same time; an await may take any time and have any
    outcome, and a task may be cancelled or fail at any await. */
module ServerHealth {
  import opened Prelude

  datatype ServerState = Stopped | Starting | LoadingModel | WarmingUp | Ready | Error

  const MAX_RESTART_ATTEMPTS: nat := 3
  const RESTART_COOLDOWN: int := 60
  const MAX_WAIT: nat := 180
  const CHECK_INTERVAL: nat := 3

  // ----- Module variables and tasks -----

  datatype Globals = Globals(server: ServerState, restartCount: nat, manuallyStopped: bool, healthTask: Option<nat>)

  /** Where a start, stop or restart waits. */
  datatype CallPoint =
    | StopWait(thenRestart: bool, loop: nat)  // for the cancelled health loop to end
    | StopKill(thenRestart: bool)             // for the processes to be killed
    | RestartPause
    | StartProbe
    | WslCheck
    | SetupCheck
    | Launch
    | PollSleep(waited: nat)
    | PollProbe(waited: nat)
    | Warmup

  /** A cancelled loop takes no step but its end. */
  datatype LoopPoint = Sleeping | Probing | Restarting(call: CallPoint) | Cancelled

  datatype Task =
    | HealthLoop(failures: nat, lastRestart: int, at: LoopPoint)
    | Call(point: CallPoint)
  {
    function Point(): Option<CallPoint> {
      match this
      case Call(point) => Some(point)
      case HealthLoop(_, _, Restarting(point)) => Some(point)
      case HealthLoop(_, _, _) => None
    }

    predicate WaitsInStop() {
      Point().Some? && Point().value.StopWait?
    }
  }

  /** What an awaited check or probe answers. */
  datatype Answer = Answer(ok: bool, modelLoaded: bool)

  datatype Kind =
    | Check(running: bool)           // the answer to a probe of a health loop
    | Probe(running: bool)           // the answer to a probe of a start
    | BecomesReady
    | AutoRestart(time: int)
  {
    predicate IsAnswer() {
      Check? || Probe?
    }

    predicate IsGood() {
      IsAnswer() && running
    }
  }

  datatype Event = Event(task: nat, kind: Kind)

  // ----- One step of a start, stop or restart -----

  datatype Progress = Continue(point: CallPoint) | Return(ok: bool)

  datatype Effect = Effect(globals: Globals, events: seq<Kind>, needsLoop: bool, progress: Progress)

  function BeginStart(g: Globals, force: bool): Effect {
    if g.manuallyStopped && !force then Effect(g, [], false, Return(false))
    else if g.server in {Starting, LoadingModel, WarmingUp} then Effect(g, [], false, Return(true))
    else Effect(g, [], false, Continue(StartProbe))
  }

  function AfterCancel(g: Globals, thenRestart: bool): Effect {
    Effect(g.(server := Stopped), [], false, Continue(StopKill(thenRestart)))
  }

  function BeginStop(g: Globals, manual: bool, thenRestart: bool, loopIsAlive: bool): Effect
    requires loopIsAlive ==> g.healthTask.Some?
  {
    var stopped := if manual then g.(manuallyStopped := true) else g;
    if loopIsAlive then Effect(stopped, [], false, Continue(StopWait(thenRestart, g.healthTask.value)))
    else AfterCancel(stopped, thenRestart)
  }

  function Fail(g: Globals): Effect {
    Effect(g.(server := Error), [], false, Return(false))
  }

  function StepCall(g: Globals, point: CallPoint, a: Answer): Effect {
    match point
    case StopWait(thenRestart, _) => AfterCancel(g.(healthTask := None), thenRestart)
    case StopKill(thenRestart) =>
      Effect(if a.ok then g.(server := Stopped) else g, [], false,
             if thenRestart then Continue(RestartPause) else Return(a.ok))
    case RestartPause => BeginStart(g, true)
    case StartProbe =>
      if !a.ok then Effect(g, [Probe(false)], false, Continue(WslCheck))
      else if a.modelLoaded then Effect(g.(server := Ready), [Probe(true), BecomesReady], true, Return(true))
      else Effect(g.(server := LoadingModel), [Probe(true)], true, Return(true))
    case WslCheck => if a.ok then Effect(g, [], false, Continue(SetupCheck)) else Fail(g)
    case SetupCheck =>
      if a.ok then Effect(g.(manuallyStopped := false, server := Starting), [], false, Continue(Launch)) else Fail(g)
    case Launch => if a.ok then Effect(g.(server := LoadingModel), [], false, Continue(PollSleep(0))) else Fail(g)
    case PollSleep(waited) =>
      if a.ok then Effect(g, [], false, Continue(PollProbe(waited + CHECK_INTERVAL))) else Fail(g)
    case PollProbe(waited) =>
      if a.ok && a.modelLoaded then Effect(g.(server := WarmingUp), [Probe(true)], false, Continue(Warmup))
      else if a.ok then Effect(g.(server := Ready), [Probe(true), BecomesReady], true, Return(true))
      else if waited < MAX_WAIT then Effect(g, [Probe(false)], false, Continue(PollSleep(waited)))
      else Fail(g).(events := [Probe(false)])
    case Warmup => Effect(g.(server := Ready), [BecomesReady], true, Return(true))
  }

  /** The awaits of a restart at which an exception can leave it. */
  predicate MayRaise(point: CallPoint) {
    point in {RestartPause, StartProbe, WslCheck, SetupCheck}
  }

  // ----- The whole system -----

  datatype State = State(globals: Globals, now: int, tasks: map<nat, Task>, nextId: nat, log: seq<Event>) {

    predicate LoopIsAlive() {
      globals.healthTask.Some? && globals.healthTask.value in tasks
    }

    /** A stop cancels the running health loop, which ends it at its next turn.  Only the wait in a stop swallows a
        cancellation, so a loop that restarts the server, and there cancels and awaits itself, goes on. */
    function CancelLoop(): (s: State)
      ensures s == this.(tasks := s.tasks) && s.tasks.Keys == tasks.Keys
    {
      if !LoopIsAlive() then this
      else
        var id := globals.healthTask.value;
        if !tasks[id].HealthLoop? || tasks[id].WaitsInStop() then this
        else this.(tasks := tasks[id := tasks[id].(at := Cancelled)])
    }

    /** The task waits for another one that has not ended. */
    predicate IsBlocked(id: nat)
      requires id in tasks
    {
      tasks[id].WaitsInStop() && tasks[id].Point().value.loop in tasks && tasks[id].Point().value.loop != id
    }

    /** Task `id` reaches its next await as `task`, or ends. */
    function Commit(id: nat, g: Globals, events: seq<Kind>, needsLoop: bool, task: Option<Task>): State {
      var running := if task.Some? then tasks[id := task.value] else tasks - {id};
      var after := State(g, now, running, nextId, log + Stamp(id, events));
      if needsLoop && !after.LoopIsAlive() then
        after.(globals := g.(healthTask := Some(nextId)), tasks := running[nextId := HealthLoop(0, 0, Sleeping)],
               nextId := nextId + 1)
      else after
    }

    function CommitCall(id: nat, e: Effect): State {
      Commit(id, e.globals, e.events, e.needsLoop, if e.progress.Continue? then Some(Call(e.progress.point)) else None)
    }

    /** A step of the restart that a health loop is in; `before` is what the loop did just before. */
    function CommitRestart(id: nat, loop: Task, e: Effect, before: seq<Kind>): State
      requires loop.HealthLoop?
    {
      match e.progress
      case Continue(point) =>
        Commit(id, e.globals, before + e.events, e.needsLoop, Some(loop.(at := Restarting(point))))
      case Return(true) =>
        Commit(id, e.globals, before + e.events, e.needsLoop, Some(loop.(failures := 0, at := Sleeping)))
      case Return(false) =>
        Commit(id, e.globals.(server := Error), before + e.events, e.needsLoop, Some(loop.(at := Sleeping)))
    }

    function StepProbed(id: nat, loop: Task, a: Answer): State
      requires loop.HealthLoop?
    {
      if a.ok then
        Commit(id, globals.(server := Ready),
               if globals.server != Ready then [Check(true), BecomesReady] else [Check(true)], false,
               Some(loop.(failures := 0, at := Sleeping)))
      else
        var failing := loop.(failures := loop.failures + 1, at := Sleeping);
        if failing.failures < 2 || now - loop.lastRestart < RESTART_COOLDOWN then
          Commit(id, globals, [Check(false)], false, Some(failing))
        else if globals.restartCount >= MAX_RESTART_ATTEMPTS then
          Commit(id, globals.(server := Error), [Check(false)], false, None)
        else
          CancelLoop().CommitRestart(id, failing.(lastRestart := now),
            BeginStop(globals.(server := Starting, restartCount := globals.restartCount + 1), false, true,
              LoopIsAlive()),
            [Check(false), AutoRestart(now)])
    }

    function Resume(id: nat, a: Answer): State
      requires id in tasks
    {
      match tasks[id]
      case Call(point) => CommitCall(id, StepCall(globals, point, a))
      case HealthLoop(failures, lastRestart, at) =>
        match at
        case Sleeping =>
          if globals.manuallyStopped then this else Commit(id, globals, [], false, Some(tasks[id].(at := Probing)))
        case Probing => StepProbed(id, tasks[id], a)
        case Restarting(point) => CommitRestart(id, tasks[id], StepCall(globals, point, a), [])
        case Cancelled => Commit(id, globals, [], false, None)
    }

    /** A call from outside gets a task of its own. */
    function Begin(e: Effect): State {
      this.(nextId := nextId + 1).CommitCall(nextId, e)
    }
  }

  function Stamp(id: nat, events: seq<Kind>): (r: seq<Event>)
    ensures |r| == |events| && forall i :: 0 <= i < |r| ==> r[i] == Event(id, events[i])
  {
    seq(|events|, i requires 0 <= i < |events| => Event(id, events[i]))
  }

  datatype Action =
    | Resume(id: nat, answer: Answer)
    | Tick(seconds: nat)
    | StartServer(force: bool)
    | StopServer(manual: bool)
    | RestartServer
    | Cancel(id: nat)                // a task is cancelled at its await
    | Abort(id: nat)                 // a probe of a health loop or the restart it is in raises; the loop goes on

  const YES: Answer := Answer(true, true)
  const NO: Answer := Answer(false, false)

  function Apply(s: State, action: Action): State {
    match action
    case Resume(id, a) => if id in s.tasks && !s.IsBlocked(id) then s.Resume(id, a) else s
    case Tick(seconds) => s.(now := s.now + seconds)
    case StartServer(force) => s.Begin(BeginStart(s.globals, force))
    case StopServer(manual) => s.CancelLoop().Begin(BeginStop(s.globals, manual, false, s.LoopIsAlive()))
    case RestartServer =>
      var counted := s.globals.(restartCount := s.globals.restartCount + 1);
      s.CancelLoop().Begin(BeginStop(counted, false, true, s.LoopIsAlive()))
    case Cancel(id) =>
      if id in s.tasks && s.tasks[id].WaitsInStop() then s.Resume(id, YES) else s.(tasks := s.tasks - {id})
    case Abort(id) =>
      if id in s.tasks && s.tasks[id].HealthLoop? && MayAbort(s.tasks[id].at) then
        s.(tasks := s.tasks[id := s.tasks[id].(at := Sleeping)])
      else s
  }

  predicate MayAbort(at: LoopPoint) {
    at.Probing? || (at.Restarting? && MayRaise(at.call))
  }

  function Initial(now: int): State {
    State(Globals(Stopped, 0, false, None), now, map[], 0, [])
  }

  function Run(s: State, actions: seq<Action>): State
    decreases |actions|
  {
    if actions == [] then s else Run(Apply(s, actions[0]), actions[1..])
  }

  // ----- Reading the log -----

  /** Failed health checks of a task since a probe of it was last answered well. */
  function FailedChecks(log: seq<Event>, id: nat): nat {
    if log == [] then 0
    else
      var last, front := log[|log| - 1], log[..|log| - 1];
      if last.task == id && last.kind.IsGood() then 0
      else FailedChecks(front, id) + if last == Event(id, Check(false)) then 1 else 0
  }

  function LastAnswer(log: seq<Event>, id: nat): Option<bool> {
    if log == [] then None
    else
      var last := log[|log| - 1];
      if last.task == id && last.kind.IsAnswer() then Some(last.kind.running) else LastAnswer(log[..|log| - 1], id)
  }

  function LastAutoRestart(log: seq<Event>, id: nat): Option<int> {
    if log == [] then None
    else
      var last := log[|log| - 1];
      if last.task == id && last.kind.AutoRestart? then Some(last.kind.time) else LastAutoRestart(log[..|log| - 1], id)
  }

  function AutoRestarts(log: seq<Event>): nat {
    if log == [] then 0
    else AutoRestarts(log[..|log| - 1]) + if log[|log| - 1].kind.AutoRestart? then 1 else 0
  }

  /** An event may follow this log. */
  predicate IsJustified(log: seq<Event>, e: Event) {
    match e.kind
    case Check(_) => true
    case Probe(_) => true
    case BecomesReady => LastAnswer(log, e.task) == Some(true)
    case AutoRestart(time) =>
      && FailedChecks(log, e.task) >= 2
      && (LastAutoRestart(log, e.task).Some? ==> time - LastAutoRestart(log, e.task).value >= RESTART_COOLDOWN)
  }

  predicate AreJustified(log: seq<Event>) {
    forall i :: 0 <= i < |log| ==> IsJustified(log[..i], log[i])
  }

  // ----- What every run keeps -----

  /** A call at this await comes, or has come, to a start: it is not just a stop. */
  predicate LeadsToStart(point: CallPoint) {
    point.StopWait? || point.StopKill? ==> point.thenRestart
  }

  /** What the log confirms about a task's own counters.  Health loops never just stop the server. */
  predicate IsRecorded(log: seq<Event>, id: nat, task: Task) {
    match task
    case Call(point) => point.Warmup? ==> LastAnswer(log, id) == Some(true)
    case HealthLoop(failures, lastRestart, at) =>
      && LastAutoRestart(log, id) in {None, Some(lastRestart)}
      && (at.Restarting? ==> LeadsToStart(at.call))
      && if at == Restarting(Warmup) then LastAnswer(log, id) == Some(true) else failures <= FailedChecks(log, id)
  }

  /** The running health loop is in no restart, except where it waits for itself. */
  predicate IsIdle(id: nat, task: Task) {
    task.HealthLoop? && (task.at.Restarting? ==> task.at.call == StopWait(true, id))
  }

  /** A stop has cancelled the loop, or the loop was and may still be waiting for itself in its own restart. */
  predicate MayBeAwaited(s: State, loop: nat)
    requires loop in s.tasks
  {
    && s.tasks[loop].HealthLoop?
    && (s.tasks[loop].at.Cancelled? || s.globals.healthTask != Some(loop)
        || s.tasks[loop].at == Restarting(StopWait(true, loop)))
  }

  predicate WaitIsSound(s: State, id: nat, point: CallPoint) {
    point.StopWait? ==>
      point.loop < s.nextId && (point.loop in s.tasks && point.loop != id ==> MayBeAwaited(s, point.loop))
  }

  predicate WaitsAreSound(s: State) {
    forall id <- s.tasks | s.tasks[id].Point().Some? :: WaitIsSound(s, id, s.tasks[id].Point().value)
  }

  /** Some other task waits for this one. */
  predicate IsAwaited(s: State, loop: nat) {
    exists id <- s.tasks :: id != loop && s.tasks[id].WaitsInStop() && s.tasks[id].Point().value.loop == loop
  }

  predicate TasksAreRecorded(s: State) {
    && (forall e <- s.log :: e.task < s.nextId)
    && (forall id <- s.tasks :: id < s.nextId && IsRecorded(s.log, id, s.tasks[id]))
    && (s.globals.healthTask.Some? ==> s.globals.healthTask.value < s.nextId)
    && (s.LoopIsAlive() ==> IsIdle(s.globals.healthTask.value, s.tasks[s.globals.healthTask.value]))
    && WaitsAreSound(s)
  }

  /** `manual` counts the restarts asked for from outside. */
  predicate Invariant(s: State, manual: nat) {
    && TasksAreRecorded(s)
    && AreJustified(s.log)
    && AutoRestarts(s.log) + manual == s.globals.restartCount
    && AutoRestarts(s.log) <= MAX_RESTART_ATTEMPTS
  }

  /** Events of one task leave what the log says about the others. */
  lemma {:induction false} OthersUnchanged(log: seq<Event>, id: nat, events: seq<Kind>, other: nat)
    requires other != id
    ensures FailedChecks(log + Stamp(id, events), other) == FailedChecks(log, other)
    ensures LastAnswer(log + Stamp(id, events), other) == LastAnswer(log, other)
    ensures LastAutoRestart(log + Stamp(id, events), other) == LastAutoRestart(log, other)
    decreases |events|
  {
    var all := log + Stamp(id, events);
    if events == [] {
      assert all == log;
    } else {
      OthersUnchanged(log, id, events[..|events| - 1], other);
      assert all[..|all| - 1] == log + Stamp(id, events[..|events| - 1]);
    }
  }

  lemma {:induction false} UnknownTask(log: seq<Event>, id: nat)
    requires forall e <- log :: e.task != id
    ensures LastAutoRestart(log, id) == None
  {
    if log != [] {
      UnknownTask(log[..|log| - 1], id);
    }
  }

  /** What the log says about a task after one more event of it. */
  lemma Appended(log: seq<Event>, id: nat, kind: Kind)
    ensures var all := log + [Event(id, kind)];
      && FailedChecks(all, id) ==
         (if kind.IsGood() then 0 else FailedChecks(log, id) + if kind == Check(false) then 1 else 0)
      && LastAnswer(all, id) == (if kind.IsAnswer() then Some(kind.running) else LastAnswer(log, id))
      && LastAutoRestart(all, id) == (if kind.AutoRestart? then Some(kind.time) else LastAutoRestart(log, id))
      && AutoRestarts(all) == AutoRestarts(log) + (if kind.AutoRestart? then 1 else 0)
      && (AreJustified(log) && IsJustified(log, Event(id, kind)) ==> AreJustified(all))
  {
    var all := log + [Event(id, kind)];
    assert all[..|all| - 1] == log;
    if AreJustified(log) && IsJustified(log, Event(id, kind)) {
      forall i | 0 <= i < |all| ensures IsJustified(all[..i], all[i]) {
        assert all[..i] == log[..i];
      }
    }
  }

  /** A loop that others wait for may go on like this. */
  predicate StaysAwaited(g: Globals, id: nat, task: Task) {
    task.HealthLoop? && (task.at.Cancelled? || g.healthTask != Some(id) || task.at == Restarting(StopWait(true, id)))
  }

  lemma CommitKeepsWaits(s: State, id: nat, g: Globals, events: seq<Kind>, needsLoop: bool, task: Option<Task>)
    requires WaitsAreSound(s) && id < s.nextId && (forall other <- s.tasks :: other < s.nextId)
    requires g.healthTask in {None, s.globals.healthTask}
    requires task.Some? && task.value.Point().Some? ==> WaitIsSound(s, id, task.value.Point().value)
    requires task.Some? && IsAwaited(s, id) ==> StaysAwaited(g, id, task.value)
    ensures WaitsAreSound(s.Commit(id, g, events, needsLoop, task))
  {
    var r := s.Commit(id, g, events, needsLoop, task);
    forall other <- r.tasks | r.tasks[other].Point().Some? ensures WaitIsSound(r, other, r.tasks[other].Point().value) {
      if other != id && other < s.nextId {
        assert WaitIsSound(s, other, s.tasks[other].Point().value);
      }
    }
  }

  /** A step of task `id` keeps the invariant if it logs what it may, counts its restarts and knows its own record. */
  lemma CommitKeeps(s: State, manual: nat, id: nat, g: Globals, events: seq<Kind>, needsLoop: bool, task: Option<Task>)
    requires TasksAreRecorded(s) && id < s.nextId
    requires AreJustified(s.log + Stamp(id, events))
    requires AutoRestarts(s.log + Stamp(id, events)) + manual == g.restartCount
    requires AutoRestarts(s.log + Stamp(id, events)) <= MAX_RESTART_ATTEMPTS
    requires task.Some? ==> IsRecorded(s.log + Stamp(id, events), id, task.value)
    requires g.healthTask in {None, s.globals.healthTask}
    requires task.Some? && g.healthTask == Some(id) ==> IsIdle(id, task.value)
    requires task.Some? && task.value.Point().Some? ==> WaitIsSound(s, id, task.value.Point().value)
    requires task.Some? && IsAwaited(s, id) ==> StaysAwaited(g, id, task.value)
    ensures Invariant(s.Commit(id, g, events, needsLoop, task), manual)
  {
    hide FailedChecks, LastAnswer, LastAutoRestart, AutoRestarts, AreJustified;
    hide WaitsAreSound, WaitIsSound, IsAwaited, StaysAwaited;
    CommitKeepsWaits(s, id, g, events, needsLoop, task);
    var log := s.log + Stamp(id, events);
    var r := s.Commit(id, g, events, needsLoop, task);
    forall other <- r.tasks ensures other < r.nextId && IsRecorded(log, other, r.tasks[other]) {
      if other == s.nextId {
        UnknownTask(log, other);
      } else if other != id {
        OthersUnchanged(s.log, id, events, other);
      }
    }
  }

  /** A start, stop or restart counts nothing, becomes ready only after a good probe, and loses no failed check before
      it succeeds. */
  lemma StepIsRecorded(g: Globals, point: CallPoint, a: Answer, log: seq<Event>, id: nat)
    requires AreJustified(log) && (point.Warmup? ==> LastAnswer(log, id) == Some(true))
    ensures var e := StepCall(g, point, a); var all := log + Stamp(id, e.events);
      && AreJustified(all)
      && AutoRestarts(all) == AutoRestarts(log)
      && LastAutoRestart(all, id) == LastAutoRestart(log, id)
      && e.globals.restartCount == g.restartCount
      && (e.progress == Continue(Warmup) ==> LastAnswer(all, id) == Some(true))
      && (!point.Warmup? && e.progress !in {Continue(Warmup), Return(true)} ==>
            FailedChecks(log, id) <= FailedChecks(all, id))
      && (point.Warmup? ==> e.progress == Return(true))
      && e.globals.healthTask == (if point.StopWait? then None else g.healthTask)
  {
    hide FailedChecks, LastAnswer, LastAutoRestart, AutoRestarts, AreJustified;
    var e := StepCall(g, point, a);
    if e.events == [] {
      assert log + Stamp(id, e.events) == log;
    } else if |e.events| == 1 {
      Appended(log, id, e.events[0]);
      assert log + Stamp(id, e.events) == log + [Event(id, e.events[0])];
    } else {
      Appended(log, id, Probe(true));
      Appended(log + [Event(id, Probe(true))], id, BecomesReady);
      assert log + Stamp(id, e.events) == log + [Event(id, Probe(true))] + [Event(id, BecomesReady)];
    }
  }

  lemma RestartStepKeeps(s: State, manual: nat, id: nat, a: Answer)
    requires Invariant(s, manual) && id in s.tasks && s.tasks[id].HealthLoop? && s.tasks[id].at.Restarting?
    ensures Invariant(s.Resume(id, a), manual)
  {
    hide FailedChecks, LastAnswer, LastAutoRestart, AutoRestarts, AreJustified;
    var loop := s.tasks[id];
    var e := StepCall(s.globals, loop.at.call, a);
    StepIsRecorded(s.globals, loop.at.call, a, s.log, id);
    assert [] + e.events == e.events;
    match e.progress
    case Continue(point) =>
      CommitKeeps(s, manual, id, e.globals, e.events, e.needsLoop, Some(loop.(at := Restarting(point))));
    case Return(ok) =>
      CommitKeeps(s, manual, id, if ok then e.globals else e.globals.(server := Error), e.events, e.needsLoop,
        Some(if ok then loop.(failures := 0, at := Sleeping) else loop.(at := Sleeping)));
  }

  lemma GoodProbeKeeps(s: State, manual: nat, id: nat, a: Answer)
    requires Invariant(s, manual) && id in s.tasks && s.tasks[id].HealthLoop? && s.tasks[id].at.Probing? && a.ok
    ensures Invariant(s.StepProbed(id, s.tasks[id], a), manual)
  {
    hide FailedChecks, LastAnswer, LastAutoRestart, AutoRestarts, AreJustified, State.Commit;
    var probed := s.log + [Event(id, Check(true))];
    Appended(s.log, id, Check(true));
    Appended(probed, id, BecomesReady);
    assert s.log + Stamp(id, [Check(true)]) == probed;
    assert s.log + Stamp(id, [Check(true), BecomesReady]) == probed + [Event(id, BecomesReady)];
    CommitKeeps(s, manual, id, s.globals.(server := Ready),
      if s.globals.server != Ready then [Check(true), BecomesReady] else [Check(true)], false,
      Some(s.tasks[id].(failures := 0, at := Sleeping)));
  }

  lemma AutoRestartKeeps(s: State, manual: nat, id: nat, failing: Task, e: Effect)
    requires Invariant(s, manual) && id < s.nextId && failing.HealthLoop?
    requires 2 <= failing.failures <= FailedChecks(s.log, id) + 1
    requires LastAutoRestart(s.log, id) in {None, Some(failing.lastRestart)}
    requires s.now - failing.lastRestart >= RESTART_COOLDOWN && s.globals.restartCount < MAX_RESTART_ATTEMPTS
    requires e.globals.restartCount == s.globals.restartCount + 1
    requires e.events == [] && !e.needsLoop && e.progress.Continue? && !e.progress.point.Warmup?
      && LeadsToStart(e.progress.point)
    requires e.globals.healthTask == s.globals.healthTask
    requires s.globals.healthTask == Some(id) ==> e.progress.point == StopWait(true, id)
    requires WaitIsSound(s, id, e.progress.point)
    ensures Invariant(s.CommitRestart(id, failing.(lastRestart := s.now), e, [Check(false), AutoRestart(s.now)]),
        manual)
  {
    hide FailedChecks, LastAnswer, LastAutoRestart, AutoRestarts, AreJustified, State.Commit;
    var events := [Check(false), AutoRestart(s.now)];
    var probed := s.log + [Event(id, Check(false))];
    Appended(s.log, id, Check(false));
    Appended(probed, id, AutoRestart(s.now));
    assert s.log + Stamp(id, events) == probed + [Event(id, AutoRestart(s.now))];
    assert events + e.events == events;
    CommitKeeps(s, manual, id, e.globals, events, false,
      Some(failing.(lastRestart := s.now, at := Restarting(e.progress.point))));
  }

  lemma CancelLoopKeeps(s: State)
    requires TasksAreRecorded(s)
    ensures TasksAreRecorded(s.CancelLoop())
    ensures s.LoopIsAlive() ==> MayBeAwaited(s.CancelLoop(), s.globals.healthTask.value)
  {
    hide FailedChecks, LastAnswer, LastAutoRestart;
    var r := s.CancelLoop();
    forall id <- r.tasks | r.tasks[id].Point().Some? ensures WaitIsSound(r, id, r.tasks[id].Point().value) {
      assert WaitIsSound(s, id, s.tasks[id].Point().value);
    }
  }

  lemma FailedProbeKeeps(s: State, manual: nat, id: nat, a: Answer)
    requires Invariant(s, manual) && id in s.tasks && s.tasks[id].HealthLoop? && s.tasks[id].at.Probing? && !a.ok
    ensures Invariant(s.StepProbed(id, s.tasks[id], a), manual)
  {
    hide FailedChecks, LastAnswer, LastAutoRestart, AutoRestarts, AreJustified, State.Commit, State.CommitRestart;
    var loop, g := s.tasks[id], s.globals;
    var failing := loop.(failures := loop.failures + 1, at := Sleeping);
    Appended(s.log, id, Check(false));
    assert s.log + Stamp(id, [Check(false)]) == s.log + [Event(id, Check(false))];
    if failing.failures < 2 || s.now - loop.lastRestart < RESTART_COOLDOWN {
      CommitKeeps(s, manual, id, g, [Check(false)], false, Some(failing));
    } else if g.restartCount >= MAX_RESTART_ATTEMPTS {
      CommitKeeps(s, manual, id, g.(server := Error), [Check(false)], false, None);
    } else {
      CancelLoopKeeps(s);
      AutoRestartKeeps(s.CancelLoop(), manual, id, failing,
        BeginStop(g.(server := Starting, restartCount := g.restartCount + 1), false, true, s.LoopIsAlive()));
    }
  }

  lemma CallStepKeeps(s: State, manual: nat, id: nat, e: Effect)
    requires TasksAreRecorded(s) && id < s.nextId && AutoRestarts(s.log) <= MAX_RESTART_ATTEMPTS
    requires AreJustified(s.log + Stamp(id, e.events))
    requires AutoRestarts(s.log + Stamp(id, e.events)) == AutoRestarts(s.log)
    requires AutoRestarts(s.log) + manual == e.globals.restartCount
    requires e.progress == Continue(Warmup) ==> LastAnswer(s.log + Stamp(id, e.events), id) == Some(true)
    requires e.globals.healthTask in {None, s.globals.healthTask} && e.globals.healthTask != Some(id)
    requires !IsAwaited(s, id) && (e.progress.Continue? ==> WaitIsSound(s, id, e.progress.point))
    ensures Invariant(s.CommitCall(id, e), manual)
  {
    hide FailedChecks, LastAnswer, LastAutoRestart, AutoRestarts, AreJustified;
    CommitKeeps(s, manual, id, e.globals, e.events, e.needsLoop,
      if e.progress.Continue? then Some(Call(e.progress.point)) else None);
  }

  lemma NewIsNotAwaited(s: State)
    requires WaitsAreSound(s)
    ensures !IsAwaited(s.(nextId := s.nextId + 1), s.nextId) && WaitsAreSound(s.(nextId := s.nextId + 1))
  {
    var r := s.(nextId := s.nextId + 1);
    forall id <- r.tasks | r.tasks[id].Point().Some?
      ensures WaitIsSound(r, id, r.tasks[id].Point().value)
      ensures r.tasks[id].WaitsInStop() ==> r.tasks[id].Point().value.loop < s.nextId
    {
      assert WaitIsSound(s, id, s.tasks[id].Point().value);
    }
  }

  lemma AwaitedMayBe(s: State, loop: nat)
    requires WaitsAreSound(s) && loop in s.tasks && IsAwaited(s, loop)
    ensures MayBeAwaited(s, loop)
  {
    var id :| id in s.tasks && id != loop && s.tasks[id].WaitsInStop() && s.tasks[id].Point().value.loop == loop;
    assert WaitIsSound(s, id, s.tasks[id].Point().value);
  }

  lemma BeginKeeps(s: State, manual: nat, e: Effect)
    requires TasksAreRecorded(s) && AreJustified(s.log) && AutoRestarts(s.log) <= MAX_RESTART_ATTEMPTS
    requires AutoRestarts(s.log) + manual == e.globals.restartCount
    requires e.events == [] && e.progress != Continue(Warmup) && e.globals.healthTask == s.globals.healthTask
    requires e.progress.Continue? ==> WaitIsSound(s, s.nextId, e.progress.point)
    ensures Invariant(s.Begin(e), manual)
  {
    hide FailedChecks, LastAnswer, LastAutoRestart, AutoRestarts, AreJustified;
    assert s.log + Stamp(s.nextId, []) == s.log;
    NewIsNotAwaited(s);
    CallStepKeeps(s.(nextId := s.nextId + 1), manual, s.nextId, e);
  }

  lemma ResumeKeeps(s: State, manual: nat, id: nat, a: Answer)
    requires Invariant(s, manual) && id in s.tasks
    ensures Invariant(s.Resume(id, a), manual)
  {
    hide FailedChecks, LastAnswer, LastAutoRestart, AutoRestarts, AreJustified;
    match s.tasks[id]
    case Call(point) =>
      StepIsRecorded(s.globals, point, a, s.log, id);
      CallStepKeeps(s, manual, id, StepCall(s.globals, point, a));
    case HealthLoop(failures, lastRestart, at) =>
      match at {
        case Sleeping =>
          assert s.log + Stamp(id, []) == s.log;
          if !s.globals.manuallyStopped {
            CommitKeeps(s, manual, id, s.globals, [], false, Some(s.tasks[id].(at := Probing)));
          }
        case Probing => if a.ok { GoodProbeKeeps(s, manual, id, a); } else { FailedProbeKeeps(s, manual, id, a); }
        case Restarting(_) => RestartStepKeeps(s, manual, id, a);
        case Cancelled =>
          assert s.log + Stamp(id, []) == s.log;
          CommitKeeps(s, manual, id, s.globals, [], false, None);
      }
  }

  function ManualRestarts(actions: seq<Action>): nat {
    if actions == [] then 0 else (if actions[0].RestartServer? then 1 else 0) + ManualRestarts(actions[1..])
  }

  lemma RemovalKeeps(s: State, manual: nat, id: nat)
    requires Invariant(s, manual)
    ensures Invariant(s.(tasks := s.tasks - {id}), manual)
  {
    hide IsRecorded, AreJustified, AutoRestarts;
    var r := s.(tasks := s.tasks - {id});
    forall other <- r.tasks | r.tasks[other].Point().Some? ensures WaitIsSound(r, other, r.tasks[other].Point().value) {
      assert WaitIsSound(s, other, s.tasks[other].Point().value);
    }
  }

  lemma TickKeeps(s: State, manual: nat, seconds: nat)
    requires Invariant(s, manual)
    ensures Invariant(s.(now := s.now + seconds), manual)
  {
    hide IsRecorded, AreJustified, AutoRestarts;
    var r := s.(now := s.now + seconds);
    forall other <- r.tasks | r.tasks[other].Point().Some? ensures WaitIsSound(r, other, r.tasks[other].Point().value) {
      assert WaitIsSound(s, other, s.tasks[other].Point().value);
    }
  }

  lemma AbortKeeps(s: State, manual: nat, id: nat)
    requires Invariant(s, manual) && id in s.tasks && s.tasks[id].HealthLoop? && MayAbort(s.tasks[id].at)
    ensures Invariant(Apply(s, Abort(id)), manual)
  {
    hide FailedChecks, LastAnswer, LastAutoRestart, AutoRestarts, AreJustified;
    var r := Apply(s, Abort(id));
    forall other <- r.tasks | r.tasks[other].Point().Some? ensures WaitIsSound(r, other, r.tasks[other].Point().value) {
      assert WaitIsSound(s, other, s.tasks[other].Point().value);
    }
  }

  lemma StopKeeps(s: State, manual: nat, g: Globals, byUser: bool, thenRestart: bool)
    requires TasksAreRecorded(s) && AreJustified(s.log) && AutoRestarts(s.log) <= MAX_RESTART_ATTEMPTS
    requires AutoRestarts(s.log) + manual == g.restartCount && g.healthTask == s.globals.healthTask
    ensures Invariant(s.CancelLoop().Begin(BeginStop(g, byUser, thenRestart, s.LoopIsAlive())), manual)
  {
    hide FailedChecks, LastAnswer, LastAutoRestart, AutoRestarts, AreJustified, State.Begin, State.CancelLoop;
    hide WaitsAreSound, IsRecorded;
    CancelLoopKeeps(s);
    BeginKeeps(s.CancelLoop(), manual, BeginStop(g, byUser, thenRestart, s.LoopIsAlive()));
  }

  lemma ApplyKeeps(s: State, manual: nat, action: Action)
    requires Invariant(s, manual)
    ensures Invariant(Apply(s, action), manual + if action.RestartServer? then 1 else 0)
  {
    hide FailedChecks, LastAnswer, LastAutoRestart, AutoRestarts, AreJustified, State.Resume, State.Begin;
    hide State.CancelLoop, IsRecorded, BeginStop;
    match action
    case Resume(id, a) => if id in s.tasks { ResumeKeeps(s, manual, id, a); }
    case Cancel(id) =>
      if id in s.tasks {
        ResumeKeeps(s, manual, id, YES);
      }
      RemovalKeeps(s, manual, id);
    case Abort(id) =>
      if id in s.tasks && s.tasks[id].HealthLoop? && MayAbort(s.tasks[id].at) {
        AbortKeeps(s, manual, id);
      }
    case StartServer(force) => BeginKeeps(s, manual, BeginStart(s.globals, force));
    case StopServer(byUser) => StopKeeps(s, manual, s.globals, byUser, false);
    case RestartServer =>
      StopKeeps(s, manual + 1, s.globals.(restartCount := s.globals.restartCount + 1), false, true);
    case Tick(seconds) => TickKeeps(s, manual, seconds);
  }

  lemma {:induction false} RunKeeps(s: State, manual: nat, actions: seq<Action>)
    requires Invariant(s, manual)
    ensures Invariant(Run(s, actions), manual + ManualRestarts(actions))
    decreases |actions|
  {
    hide Apply, Invariant;
    if actions != [] {
      ApplyKeeps(s, manual, actions[0]);
      RunKeeps(Apply(s, actions[0]), manual + if actions[0].RestartServer? then 1 else 0, actions[1..]);
    }
  }

  /** Whatever is called, cancelled or fails, and however many health loops are alive: there are at most three automatic
      restarts, the counter is the number of restarts, each automatic one follows two failed health checks of its loop
      since that loop's last good probe and a pause since its previous restart, and each change to ready a good
      probe. */
  lemma RunsAreSafe(now: int, actions: seq<Action>)
    ensures var s := Run(Initial(now), actions);
      && AutoRestarts(s.log) <= MAX_RESTART_ATTEMPTS
      && s.globals.restartCount == AutoRestarts(s.log) + ManualRestarts(actions)
      && AreJustified(s.log)
  {
    hide Run;
    RunKeeps(Initial(now), 0, actions);
  }

  // ----- The log is complete -----

  /** The event that the answer to a task's probe is logged as. */
  function AnswerTo(task: Task, a: Answer): Option<Kind> {
    match task
    case Call(point) => if point.StartProbe? || point.PollProbe? then Some(Probe(a.ok)) else None
    case HealthLoop(_, _, Sleeping) => None
    case HealthLoop(_, _, Cancelled) => None
    case HealthLoop(_, _, Probing) => Some(Check(a.ok))
    case HealthLoop(_, _, Restarting(point)) =>
      if point.StartProbe? || point.PollProbe? then Some(Probe(a.ok)) else None
  }

  lemma CommitIsLogged(s: State, id: nat, g: Globals, events: seq<Kind>, needsLoop: bool, task: Option<Task>)
    ensures var r := s.Commit(id, g, events, needsLoop, task);
      r.log == s.log + Stamp(id, events) && r.globals.server == g.server
  {
  }

  /** A step logs its task's probe first, if it awaited one, and a change to ready last, if the server becomes so. */
  predicate IsLogged(s: State, id: nat, a: Answer, events: seq<Kind>, server: ServerState)
    requires id in s.tasks
  {
    && (AnswerTo(s.tasks[id], a) == if events != [] && events[0].IsAnswer() then Some(events[0]) else None)
    && (forall i | 0 < i < |events| :: !events[i].IsAnswer())
    && (s.globals.server != Ready && server == Ready ==> events != [] && events[|events| - 1] == BecomesReady)
  }

  lemma RestartIsLogged(s: State, id: nat, loop: Task, e: Effect, before: seq<Kind>)
    requires loop.HealthLoop?
    ensures var r := s.CommitRestart(id, loop, e, before);
      && r.log == s.log + Stamp(id, before + e.events)
      && r.globals.server == if e.progress == Return(false) then Error else e.globals.server
  {
  }

  lemma ProbedIsLogged(s: State, id: nat, a: Answer)
    requires id in s.tasks && s.tasks[id].HealthLoop? && s.tasks[id].at.Probing?
    ensures exists events ::
      s.Resume(id, a).log == s.log + Stamp(id, events) && IsLogged(s, id, a, events, s.Resume(id, a).globals.server)
  {
    hide State.Commit, State.CommitRestart, State.CancelLoop, Stamp;
    var r, loop, g := s.Resume(id, a), s.tasks[id], s.globals;
    if a.ok {
      var events := if g.server != Ready then [Check(true), BecomesReady] else [Check(true)];
      CommitIsLogged(s, id, g.(server := Ready), events, false, Some(loop.(failures := 0, at := Sleeping)));
      assert IsLogged(s, id, a, events, r.globals.server);
    } else {
      var failing := loop.(failures := loop.failures + 1, at := Sleeping);
      if failing.failures < 2 || s.now - loop.lastRestart < RESTART_COOLDOWN {
        CommitIsLogged(s, id, g, [Check(false)], false, Some(failing));
        assert IsLogged(s, id, a, [Check(false)], r.globals.server);
      } else if g.restartCount >= MAX_RESTART_ATTEMPTS {
        CommitIsLogged(s, id, g.(server := Error), [Check(false)], false, None);
        assert IsLogged(s, id, a, [Check(false)], r.globals.server);
      } else {
        var e := BeginStop(g.(server := Starting, restartCount := g.restartCount + 1), false, true, s.LoopIsAlive());
        var events := [Check(false), AutoRestart(s.now)];
        RestartIsLogged(s.CancelLoop(), id, failing.(lastRestart := s.now), e, events);
        assert events + e.events == events;
        assert IsLogged(s, id, a, events, r.globals.server);
      }
    }
  }

  lemma CallIsLogged(s: State, id: nat, a: Answer)
    requires id in s.tasks && s.tasks[id].Call?
    ensures exists events ::
      s.Resume(id, a).log == s.log + Stamp(id, events) && IsLogged(s, id, a, events, s.Resume(id, a).globals.server)
  {
    var e := StepCall(s.globals, s.tasks[id].point, a);
    assert IsLogged(s, id, a, e.events, e.globals.server);
    hide State.Commit, State.LoopIsAlive, Stamp, StepCall, IsLogged;
    CommitIsLogged(s, id, e.globals, e.events, e.needsLoop,
      if e.progress.Continue? then Some(Call(e.progress.point)) else None);
  }

  lemma EffectIsLogged(s: State, id: nat, a: Answer)
    requires id in s.tasks && s.tasks[id].HealthLoop? && s.tasks[id].at.Restarting?
    ensures var e := StepCall(s.globals, s.tasks[id].at.call, a);
      IsLogged(s, id, a, e.events, if e.progress == Return(false) then Error else e.globals.server)
  {
  }

  lemma RestartStepIsLogged(s: State, id: nat, a: Answer)
    requires id in s.tasks && s.tasks[id].HealthLoop? && s.tasks[id].at.Restarting?
    ensures exists events ::
      s.Resume(id, a).log == s.log + Stamp(id, events) && IsLogged(s, id, a, events, s.Resume(id, a).globals.server)
  {
    hide State.CommitRestart, State.LoopIsAlive, Stamp;
    var e, r := StepCall(s.globals, s.tasks[id].at.call, a), s.Resume(id, a);
    RestartIsLogged(s, id, s.tasks[id], e, []);
    assert [] + e.events == e.events;
    hide StepCall;
    assert r.log == s.log + Stamp(id, e.events);
    EffectIsLogged(s, id, a);
  }

  lemma ResumeIsLogged(s: State, id: nat, a: Answer)
    requires id in s.tasks
    ensures exists events ::
      s.Resume(id, a).log == s.log + Stamp(id, events) && IsLogged(s, id, a, events, s.Resume(id, a).globals.server)
  {
    match s.tasks[id]
    case Call(_) => CallIsLogged(s, id, a);
    case HealthLoop(_, _, at) =>
      match at {
        case Sleeping =>
          assert s.log + Stamp(id, []) == s.log;
          assert IsLogged(s, id, a, [], s.Resume(id, a).globals.server);
        case Cancelled =>
          assert s.log + Stamp(id, []) == s.log;
          assert IsLogged(s, id, a, [], s.Resume(id, a).globals.server);
        case Probing => ProbedIsLogged(s, id, a);
        case Restarting(_) => RestartStepIsLogged(s, id, a);
      }
  }

  lemma OnlyResumeIsLogged(s: State, action: Action)
    requires !action.Resume?
    ensures Apply(s, action).log == s.log
    ensures Apply(s, action).globals.server == Ready ==> s.globals.server == Ready
  {
  }

  // ----- Manual stops -----

  /** The server was stopped by the user, the health loops sleep or are cancelled, and nothing but stops is under
      way. */
  predicate IsQuiet(s: State) {
    && s.globals.manuallyStopped
    && forall id <- s.tasks ::
         match s.tasks[id]
         case HealthLoop(_, _, at) => at.Sleeping? || at.Cancelled?
         case Call(point) => !LeadsToStart(point)
  }

  lemma QuietStep(s: State, action: Action)
    requires IsQuiet(s) && action != StartServer(true) && action != RestartServer
    ensures var r := Apply(s, action); IsQuiet(r) && r.log == s.log && r.globals.server in {s.globals.server, Stopped}
  {
  }

  /** Then the server stays down, unless it is started by force or restarted. */
  lemma {:induction false} QuietStopLasts(s: State, actions: seq<Action>)
    requires IsQuiet(s)
    requires forall a <- actions :: a != StartServer(true) && a != RestartServer
    ensures var r := Run(s, actions); IsQuiet(r) && r.log == s.log && r.globals.server in {s.globals.server, Stopped}
    decreases |actions|
  {
    if actions != [] {
      assert actions[0] in actions && forall a <- actions[1..] :: a in actions;
      QuietStep(s, actions[0]);
      QuietStopLasts(Apply(s, actions[0]), actions[1..]);
    }
  }

  // ----- When a manual stop lasts -----

  /** Neither a start by force nor a restart is asked for, and nothing outside cancels a task. */
  predicate AreUnforced(actions: seq<Action>) {
    forall a <- actions :: a != StartServer(true) && a != RestartServer && !a.Cancel?
  }

  /** Nothing happens but answers, stops and ordinary starts. */
  predicate AreOwnSteps(actions: seq<Action>) {
    forall a <- actions :: a.Resume? || a.StopServer? || a == StartServer(false)
  }

  /** The task waits for another health loop that no stop has cancelled. */
  predicate IsHeldUp(s: State, id: nat)
    requires id in s.tasks
  {
    s.IsBlocked(id) && !IsCancelled(s, s.tasks[id].Point().value.loop)
  }

  predicate IsCancelled(s: State, id: nat) {
    id in s.tasks && s.tasks[id].HealthLoop? && s.tasks[id].at.Cancelled?
  }

  /** A manual stop is in force, the health loops sleep or are cancelled, and whatever else is on its way to a start is
      held up. */
  predicate NothingCanStart(s: State) {
    && s.globals.manuallyStopped
    && forall id <- s.tasks :: CannotStart(s, id)
  }

  predicate CannotStart(s: State, id: nat)
    requires id in s.tasks
  {
    match s.tasks[id]
    case HealthLoop(_, _, at) => at.Sleeping? || at.Cancelled? || IsHeldUp(s, id)
    case Call(point) => !LeadsToStart(point) || IsHeldUp(s, id)
  }

  lemma QuietMeansNothingCanStart(s: State)
    requires IsQuiet(s)
    ensures NothingCanStart(s)
  {
  }

  /** A sleeping or held-up loop that someone waits for is not the running one, so no stop cancels it. */
  lemma HoldersAreNotRunning(s: State, id: nat)
    requires WaitsAreSound(s) && NothingCanStart(s) && id in s.tasks && IsHeldUp(s, id)
    ensures var loop := s.tasks[id].Point().value.loop; s.tasks[loop].HealthLoop? && s.globals.healthTask != Some(loop)
  {
    var loop := s.tasks[id].Point().value.loop;
    assert WaitIsSound(s, id, s.tasks[id].Point().value) && MayBeAwaited(s, loop);
    assert CannotStart(s, loop);
  }

  /** What a step leaves to every other task. */
  predicate IsHeldDown(s: State, next: State) {
    NothingCanStart(next) && next.log == s.log && next.globals.server in {s.globals.server, Stopped}
  }

  /** A cancelled loop ends and leaves the others alone. */
  lemma CancelledEnds(s: State, loop: nat, a: Answer)
    requires IsCancelled(s, loop)
    ensures Apply(s, Resume(loop, a)) == s.(tasks := s.tasks - {loop})
  {
    assert s.log + Stamp(loop, []) == s.log;
  }

  lemma HeldEnd(s: State, id: nat)
    requires WaitsAreSound(s) && NothingCanStart(s) && id in s.tasks && !s.IsBlocked(id) && !s.tasks[id].WaitsInStop()
    requires s.tasks[id].Call? || s.tasks[id].at.Cancelled?
    ensures NothingCanStart(s.(tasks := s.tasks - {id}))
  {
    var r := s.(tasks := s.tasks - {id});
    forall other <- r.tasks ensures CannotStart(r, other) {
      assert CannotStart(s, other);
      if IsHeldUp(s, other) {
        HoldersAreNotRunning(s, other);
      }
    }
  }

  lemma HeldCall(s: State, manual: nat, id: nat, a: Answer)
    requires Invariant(s, manual) && NothingCanStart(s) && id in s.tasks && s.tasks[id].Call? && !s.IsBlocked(id)
    ensures IsHeldDown(s, Apply(s, Resume(id, a)))
  {
    hide FailedChecks, LastAnswer, LastAutoRestart, AutoRestarts, AreJustified, IsRecorded;
    var r := Apply(s, Resume(id, a));
    assert CannotStart(s, id) && s.log + Stamp(id, []) == s.log;
    if s.tasks[id].WaitsInStop() {
      forall other <- r.tasks ensures CannotStart(r, other) {
        assert CannotStart(s, other);
        if other != id && IsHeldUp(s, other) {
          HoldersAreNotRunning(s, other);
        }
      }
    } else {
      HeldEnd(s, id);
      assert forall other <- r.tasks :: CannotStart(s.(tasks := s.tasks - {id}), other);
    }
  }

  lemma HeldResume(s: State, manual: nat, id: nat, a: Answer)
    requires Invariant(s, manual) && NothingCanStart(s)
    ensures IsHeldDown(s, Apply(s, Resume(id, a)))
  {
    hide FailedChecks, LastAnswer, LastAutoRestart, AutoRestarts, AreJustified, IsRecorded, WaitsAreSound;
    if id in s.tasks && !s.IsBlocked(id) {
      assert CannotStart(s, id);
      if s.tasks[id].Call? {
        HeldCall(s, manual, id, a);
      } else if s.tasks[id].at.Cancelled? {
        CancelledEnds(s, id, a);
        HeldEnd(s, id);
      }
    }
  }

  lemma HeldStop(s: State, manual: nat, byUser: bool)
    requires Invariant(s, manual) && NothingCanStart(s)
    ensures IsHeldDown(s, Apply(s, StopServer(byUser)))
  {
    hide FailedChecks, LastAnswer, LastAutoRestart, AutoRestarts, AreJustified;
    var r := Apply(s, StopServer(byUser));
    forall other <- r.tasks ensures CannotStart(r, other) {
      if other != s.nextId {
        assert CannotStart(s, other);
        if IsHeldUp(s, other) {
          HoldersAreNotRunning(s, other);
        }
      }
    }
  }

  lemma HeldStep(s: State, manual: nat, action: Action)
    requires Invariant(s, manual) && NothingCanStart(s) && AreUnforced([action])
    ensures IsHeldDown(s, Apply(s, action))
  {
    assert action in [action];
    match action
    case Resume(id, a) => HeldResume(s, manual, id, a);
    case StopServer(byUser) => HeldStop(s, manual, byUser);
    case Abort(id) => assert id in s.tasks ==> CannotStart(s, id);
    case StartServer(_) =>
      forall id <- s.tasks ensures CannotStart(Apply(s, action), id) {
        assert CannotStart(s, id) && id < s.nextId;
      }
    case Tick(_) =>
      forall id <- s.tasks ensures CannotStart(Apply(s, action), id) {
        assert CannotStart(s, id);
      }
    case _ =>
  }

  lemma {:induction false} HeldDownLasts(s: State, manual: nat, actions: seq<Action>)
    requires Invariant(s, manual) && NothingCanStart(s) && AreUnforced(actions)
    ensures IsHeldDown(s, Run(s, actions))
    decreases |actions|
  {
    hide Apply, Invariant, NothingCanStart;
    if actions != [] {
      assert actions[0] in actions && forall a <- actions[1..] :: a in actions;
      HeldStep(s, manual, actions[0]);
      ApplyKeeps(s, manual, actions[0]);
      HeldDownLasts(Apply(s, actions[0]), manual, actions[1..]);
    }
  }

  // ----- Undoing a manual stop -----

  /** The task waits at this point of a start or restart, on its own or for a health loop. */
  predicate Awaits(s: State, id: nat, point: CallPoint) {
    && id in s.tasks && id < s.nextId
    && (s.tasks[id] == Call(point) || (s.tasks[id].HealthLoop? && s.tasks[id].at == Restarting(point)))
  }

  lemma GoesOn(s: State, id: nat, point: CallPoint, a: Answer)
    requires Awaits(s, id, point) && !point.StopWait?
    ensures var e, r := StepCall(s.globals, point, a), Apply(s, Resume(id, a));
      e.progress.Continue? && !e.needsLoop ==> r.globals == e.globals && Awaits(r, id, e.progress.point)
  {
  }

  lemma Succeeds(s: State, id: nat, point: CallPoint, a: Answer)
    requires Awaits(s, id, point) && !point.StopWait?
    ensures var e, r := StepCall(s.globals, point, a), Apply(s, Resume(id, a));
      e.progress == Return(true) ==> r.globals.server == e.globals.server
  {
  }

  /** A wait whose loop is gone, or is the waiting loop itself, comes to its end. */
  lemma WaitEnds(s: State, id: nat, point: CallPoint)
    requires Awaits(s, id, point) && point.StopWait? && (point.loop !in s.tasks || point.loop == id)
    ensures Awaits(Apply(s, Resume(id, YES)), id, StopKill(point.thenRestart))
    ensures Apply(s, Resume(id, YES)).globals == s.globals.(server := Stopped, healthTask := None)
  {
  }

  lemma {:induction false} RunAppend(s: State, first: seq<Action>, second: seq<Action>)
    ensures Run(s, first + second) == Run(Run(s, first), second)
    decreases |first|
  {
    hide Apply;
    if first == [] {
      assert first + second == second;
    } else {
      assert (first + second)[1..] == first[1..] + second;
      RunAppend(Apply(s, first[0]), first[1..], second);
    }
  }

  lemma RunNone(s: State)
    ensures Run(s, []) == s && AreOwnSteps([])
  {
  }

  lemma RunOne(s: State, action: Action)
    ensures Run(s, [action]) == Apply(s, action)
  {
    hide Apply;
    assert Run(Apply(s, action), []) == Apply(s, action);
  }

  lemma RunFirst(s: State, action: Action, rest: seq<Action>)
    ensures Run(s, [action] + rest) == Run(Apply(s, action), rest)
  {
    hide Apply;
    RunOne(s, action);
    RunAppend(s, [action], rest);
  }

  lemma RunTwo(s: State, first: Action, second: Action)
    ensures Run(s, [first, second]) == Apply(Apply(s, first), second)
  {
    hide Apply, Run;
    RunFirst(s, first, [second]);
    RunOne(Apply(s, first), second);
    assert [first] + [second] == [first, second];
  }

  lemma RunThree(s: State, actions: seq<Action>)
    requires |actions| == 3
    ensures Run(s, actions) == Apply(Apply(Apply(s, actions[0]), actions[1]), actions[2])
  {
    hide Apply, Run;
    RunFirst(s, actions[0], actions[1..]);
    RunFirst(Apply(s, actions[0]), actions[1], actions[2..]);
    RunOne(Apply(Apply(s, actions[0]), actions[1]), actions[2]);
    assert actions == [actions[0]] + actions[1..] && actions[1..] == [actions[1]] + actions[2..];
    assert actions[2..] == [actions[2]];
  }

  /** How many answers still lead to ready. */
  function StepsToReady(point: CallPoint): nat {
    match point
    case StopWait(_, _) => 8
    case StopKill(_) => 7
    case RestartPause => 6
    case StartProbe => 0
    case WslCheck => 5
    case SetupCheck => 4
    case Launch => 3
    case PollSleep(_) => 2
    case PollProbe(_) => 1
    case Warmup => 0
  }

  /** The server can be brought to Stopped, where a task that is not the running health loop stays where it is: by the
      end of that loop's wait for itself, or by a stop. */
  function ToStopped(s: State): seq<Action> {
    if !s.LoopIsAlive() then [StopServer(false), Resume(s.nextId, YES)]
    else
      var loop := s.globals.healthTask.value;
      if s.tasks[loop].WaitsInStop() then [Resume(loop, YES)]
      else [StopServer(false), Resume(loop, YES), Resume(s.nextId, YES)]
  }

  ghost predicate IsStoppedFor(s: State, next: State, id: nat, point: CallPoint) {
    && next.globals.server == Stopped && next.globals.manuallyStopped == s.globals.manuallyStopped
    && (Awaits(s, id, point) && s.globals.healthTask != Some(id) ==> Awaits(next, id, point))
  }

  lemma ToStoppedStops(s: State, manual: nat, id: nat, point: CallPoint)
    requires Invariant(s, manual)
    ensures AreOwnSteps(ToStopped(s)) && IsStoppedFor(s, Run(s, ToStopped(s)), id, point)
  {
    hide FailedChecks, LastAnswer, LastAutoRestart, AutoRestarts, AreJustified, Run;
    if !s.LoopIsAlive() {
      IdleStop(s, id, point);
      RunTwo(s, StopServer(false), Resume(s.nextId, YES));
    } else {
      var loop := s.globals.healthTask.value;
      assert IsIdle(loop, s.tasks[loop]);
      if s.tasks[loop].WaitsInStop() {
        WaitEnds(s, loop, StopWait(true, loop));
        RunOne(s, Resume(loop, YES));
      } else {
        CancellingStop(s, id, point);
        RunThree(s, [StopServer(false), Resume(loop, YES), Resume(s.nextId, YES)]);
      }
    }
  }

  lemma IdleStop(s: State, id: nat, point: CallPoint)
    requires !s.LoopIsAlive()
    ensures IsStoppedFor(s, Apply(Apply(s, StopServer(false)), Resume(s.nextId, YES)), id, point)
  {
    var begun := Apply(s, StopServer(false));
    assert begun.tasks == s.tasks[s.nextId := Call(StopKill(false))];
  }

  lemma CancellingStop(s: State, id: nat, point: CallPoint)
    requires s.LoopIsAlive() && s.globals.healthTask.value < s.nextId
    requires s.tasks[s.globals.healthTask.value].HealthLoop? && !s.tasks[s.globals.healthTask.value].WaitsInStop()
    ensures
      var loop := s.globals.healthTask.value;
      var ended := Apply(Apply(s, StopServer(false)), Resume(loop, YES));
      IsStoppedFor(s, Apply(ended, Resume(s.nextId, YES)), id, point)
  {
    var loop := s.globals.healthTask.value;
    var begun := Apply(s, StopServer(false));
    assert begun.tasks == s.CancelLoop().tasks[s.nextId := Call(StopWait(false, loop))];
    CancelledEnds(begun, loop, YES);
    var ended := Apply(begun, Resume(loop, YES));
    WaitEnds(ended, s.nextId, StopWait(false, loop));
  }

  lemma OneMoreStep(s: State, action: Action, rest: seq<Action>)
    requires AreOwnSteps([action]) && AreOwnSteps(rest)
    ensures AreOwnSteps([action] + rest) && Run(s, [action] + rest) == Run(Apply(s, action), rest)
  {
    hide Apply, Run;
    assert action in [action];
    RunFirst(s, action, rest);
  }

  lemma MoreSteps(s: State, first: seq<Action>, rest: seq<Action>)
    requires AreOwnSteps(first) && AreOwnSteps(rest)
    ensures AreOwnSteps(first + rest) && Run(s, first + rest) == Run(Run(s, first), rest)
  {
    hide Apply, Run;
    RunAppend(s, first, rest);
  }

  /** Whatever else is under way, a task on its way to a start that is not held up can still make the server ready. */
  lemma {:induction false} StartCanSucceed(s: State, manual: nat, id: nat, point: CallPoint)
      returns (actions: seq<Action>)
    requires Invariant(s, manual) && Awaits(s, id, point) && LeadsToStart(point) && !IsHeldUp(s, id)
    ensures AreOwnSteps(actions) && Run(s, actions).globals.server == Ready
    decreases StepsToReady(point), 2
  {
    hide Apply, Run, State.Resume, Invariant, IsHeldUp;
    if point.StopWait? {
      actions := WaitCanSucceed(s, manual, id, point);
    } else if point.RestartPause? {
      actions := RestartCanSucceed(s, manual, id);
    } else if point.StartProbe? || point.Warmup? {
      Succeeds(s, id, point, YES);
      RunOne(s, Resume(id, YES));
      actions := [Resume(id, YES)];
    } else {
      GoesOn(s, id, point, YES);
      actions := GoOnToReady(s, manual, id, point, Resume(id, YES));
    }
  }

  lemma {:induction false} GoOnToReady(s: State, manual: nat, id: nat, point: CallPoint, action: Action)
      returns (actions: seq<Action>)
    requires Invariant(s, manual) && LeadsToStart(point) && AreOwnSteps([action])
    requires !point.RestartPause? && !point.StartProbe? && !point.Warmup?
    requires Awaits(Apply(s, action), id, StepCall(s.globals, point, YES).progress.point)
    ensures AreOwnSteps(actions) && Run(s, actions).globals.server == Ready
    decreases StepsToReady(point), 0
  {
    hide Apply, Run, State.Resume, Invariant, IsHeldUp, Awaits;
    assert action in [action];
    NotInStop(Apply(s, action), id, StepCall(s.globals, point, YES).progress.point);
    ApplyKeeps(s, manual, action);
    var rest := StartCanSucceed(Apply(s, action), manual, id, StepCall(s.globals, point, YES).progress.point);
    OneMoreStep(s, action, rest);
    actions := [action] + rest;
  }

  lemma NotInStop(s: State, id: nat, point: CallPoint)
    requires Awaits(s, id, point) && !point.StopWait?
    ensures !IsHeldUp(s, id)
  {
  }

  /** A wait that is not held up: its loop has ended, is the waiting one itself or ends at its next turn. */
  lemma {:induction false} WaitCanSucceed(s: State, manual: nat, id: nat, point: CallPoint)
      returns (actions: seq<Action>)
    requires Invariant(s, manual) && Awaits(s, id, point) && point.StopWait? && point.thenRestart && !IsHeldUp(s, id)
    ensures AreOwnSteps(actions) && Run(s, actions).globals.server == Ready
    decreases StepsToReady(point), 1
  {
    if point.loop in s.tasks && point.loop != id {
      assert IsCancelled(s, point.loop);
      CancelledEnds(s, point.loop, YES);
      var ended := Apply(s, Resume(point.loop, YES));
      WaitEnds(ended, id, point);
      hide Apply, Run, State.Resume, Invariant, IsHeldUp;
      ApplyKeeps(s, manual, Resume(point.loop, YES));
      var rest := GoOnToReady(ended, manual, id, point, Resume(id, YES));
      OneMoreStep(s, Resume(point.loop, YES), rest);
      actions := [Resume(point.loop, YES)] + rest;
    } else {
      WaitEnds(s, id, point);
      actions := GoOnToReady(s, manual, id, point, Resume(id, YES));
    }
  }

  /** From the pause of a restart: a start that is already under way elsewhere is stopped first. */
  lemma RestartCanSucceed(s: State, manual: nat, id: nat) returns (actions: seq<Action>)
    requires Invariant(s, manual) && Awaits(s, id, RestartPause)
    ensures AreOwnSteps(actions) && Run(s, actions).globals.server == Ready
  {
    NotTheRunningLoop(s, manual, id);
    ToStoppedStops(s, manual, id, RestartPause);
    hide Apply, Run, State.Resume, Invariant, ToStopped;
    var stopped := Run(s, ToStopped(s));
    GoesOn(stopped, id, RestartPause, YES);
    Succeeds(Apply(stopped, Resume(id, YES)), id, StartProbe, YES);
    RunTwo(stopped, Resume(id, YES), Resume(id, YES));
    MoreSteps(s, ToStopped(s), [Resume(id, YES), Resume(id, YES)]);
    actions := ToStopped(s) + [Resume(id, YES), Resume(id, YES)];
  }

  lemma NotTheRunningLoop(s: State, manual: nat, id: nat)
    requires Invariant(s, manual) && Awaits(s, id, RestartPause)
    ensures s.globals.healthTask != Some(id)
  {
  }

  lemma UnheldCanBecomeReady(s: State, manual: nat) returns (actions: seq<Action>)
    requires Invariant(s, manual) && s.globals.manuallyStopped && !NothingCanStart(s)
    ensures AreOwnSteps(actions) && Run(s, actions).globals.server == Ready
  {
    var id :| id in s.tasks && !CannotStart(s, id);
    assert IsRecorded(s.log, id, s.tasks[id]);
    match s.tasks[id]
    case Call(point) => actions := StartCanSucceed(s, manual, id, point);
    case HealthLoop(_, _, Probing) =>
      RunOne(s, Resume(id, YES));
      actions := [Resume(id, YES)];
    case HealthLoop(_, _, Restarting(point)) => actions := StartCanSucceed(s, manual, id, point);
    case HealthLoop(_, _, _) =>
  }

  lemma StartBegins(s: State)
    requires s.globals.server == Stopped && !s.globals.manuallyStopped
    ensures Awaits(Apply(s, StartServer(false)), s.nextId, StartProbe)
  {
  }

  /** Without a manual stop in force, an ordinary start can make the server ready. */
  lemma UnstoppedCanBecomeReady(s: State, manual: nat) returns (actions: seq<Action>)
    requires Invariant(s, manual) && !s.globals.manuallyStopped
    ensures AreOwnSteps(actions) && Run(s, actions).globals.server == Ready
  {
    ToStoppedStops(s, manual, 0, RestartPause);
    hide Run, Invariant, ToStopped;
    var stopped := Run(s, ToStopped(s));
    StartBegins(stopped);
    var begun := Apply(stopped, StartServer(false));
    Succeeds(begun, stopped.nextId, StartProbe, YES);
    hide Apply;
    RunTwo(stopped, StartServer(false), Resume(stopped.nextId, YES));
    MoreSteps(s, ToStopped(s), [StartServer(false), Resume(stopped.nextId, YES)]);
    actions := ToStopped(s) + [StartServer(false), Resume(stopped.nextId, YES)];
  }

  ghost predicate StaysDown(s: State) {
    forall actions :: AreUnforced(actions) ==> Run(s, actions).globals.server != Ready
  }

  ghost predicate CanBecomeReady(s: State) {
    exists actions :: AreOwnSteps(actions) && Run(s, actions).globals.server == Ready
  }

  /** After every run: the server is down and stays down, whatever happens but a start by force, a restart or a
      cancellation from outside, exactly if it is not ready, a manual stop is in force, the health loops sleep or are
      cancelled, and whatever else is on its way to a start waits for a health loop that does not end.  Otherwise
      answers, stops and ordinary starts alone can make it ready. */
  lemma ManualStopLastsIff(now: int, history: seq<Action>)
    ensures
      var s := Run(Initial(now), history);
      && (StaysDown(s) <==> s.globals.server != Ready && NothingCanStart(s))
      && (CanBecomeReady(s) <==> !StaysDown(s))
  {
    hide Run, Invariant, NothingCanStart;
    var s, manual := Run(Initial(now), history), ManualRestarts(history);
    InitialIsValid(now);
    RunKeeps(Initial(now), 0, history);
    if s.globals.server == Ready {
      RunNone(s);
    } else if NothingCanStart(s) {
      forall actions | AreUnforced(actions) ensures Run(s, actions).globals.server != Ready {
        HeldDownLasts(s, manual, actions);
      }
    } else if s.globals.manuallyStopped {
      var actions := UnheldCanBecomeReady(s, manual);
    } else {
      var actions := UnstoppedCanBecomeReady(s, manual);
    }
    OwnStepsAreUnforced();
  }

  lemma OwnStepsAreUnforced()
    ensures forall actions: seq<Action> :: AreOwnSteps(actions) ==> AreUnforced(actions)
  {
  }

  lemma InitialIsValid(now: int)
    ensures Invariant(Initial(now), 0)
  {
  }

  // ----- A run into the pause of an automatic restart -----

  /** The server answers a first start; then two health checks fail, a minute or more later. */
  function ToSecondCheck(now: int): seq<Action> {
    [StartServer(false), Resume(0, YES), Tick(if now < RESTART_COOLDOWN then RESTART_COOLDOWN - now else 0),
     Resume(1, YES), Resume(1, NO), Resume(1, YES)]
  }

  function ToRestartPause(now: int): seq<Action> {
    ToSecondCheck(now) + [Resume(1, NO), Resume(1, YES), Resume(1, YES)]
  }

  lemma SecondCheckIsReached(now: int)
    ensures var s := Run(Initial(now), ToSecondCheck(now));
      && s.globals == Globals(Ready, 0, false, Some(1)) && s.now >= RESTART_COOLDOWN && s.nextId == 2
      && s.tasks == map[1 := HealthLoop(1, 0, Probing)]
  {
    var s1 := Apply(Initial(now), StartServer(false));
    assert s1.tasks == map[0 := Call(StartProbe)];
    var s2 := Apply(s1, Resume(0, YES));
    assert s2.tasks == map[1 := HealthLoop(0, 0, Sleeping)];
    var s3 := Apply(s2, ToSecondCheck(now)[2]);
    var s4 := Apply(s3, Resume(1, YES));
    assert s4.tasks == map[1 := HealthLoop(0, 0, Probing)];
    var s5 := Apply(s4, Resume(1, NO));
    assert s5.tasks == map[1 := HealthLoop(1, 0, Sleeping)];
    var s6 := Apply(s5, Resume(1, YES));
    assert s6.tasks == map[1 := HealthLoop(1, 0, Probing)];
    RunSix(Initial(now), ToSecondCheck(now));
  }

  lemma RunSix(s: State, actions: seq<Action>)
    requires |actions| == 6
    ensures Run(s, actions)
        == Apply(Apply(Apply(Apply(Apply(Apply(s, actions[0]), actions[1]), actions[2]), actions[3]),
                                           actions[4]), actions[5])
  {
    hide Apply;
    RunThree(s, actions[..3]);
    RunThree(Run(s, actions[..3]), actions[3..]);
    RunAppend(s, actions[..3], actions[3..]);
    assert actions == actions[..3] + actions[3..];
  }

  /** There the restarting loop no longer counts as the running health loop, so a stop does not cancel it. */
  lemma RestartPauseIsReached(now: int)
    ensures var s := Run(Initial(now), ToRestartPause(now));
      && Awaits(s, 1, RestartPause) && s.tasks[1].HealthLoop? && !s.LoopIsAlive() && s.nextId == 2
      && s.globals.server == Stopped && !s.globals.manuallyStopped
  {
    hide Run;
    var s := Run(Initial(now), ToSecondCheck(now));
    SecondCheckIsReached(now);
    var s1 := Apply(s, Resume(1, NO));
    assert Awaits(s1, 1, StopWait(true, 1)) && s1.tasks[1].HealthLoop?;
    var s2 := Apply(s1, Resume(1, YES));
    assert Awaits(s2, 1, StopKill(true)) && s2.globals.healthTask == None;
    RunThree(s, [Resume(1, NO), Resume(1, YES), Resume(1, YES)]);
    RunAppend(Initial(now), ToSecondCheck(now), [Resume(1, NO), Resume(1, YES), Resume(1, YES)]);
  }

  function ToStopInPause(now: int): seq<Action> {
    ToRestartPause(now) + [StopServer(true), Resume(2, YES)]
  }

  /** A manual stop that comes in that pause returns, and the restart then undoes it. */
  lemma StopInRestartPauseIsUndone(now: int)
    ensures var stopped := Run(Initial(now), ToStopInPause(now));
      && stopped.globals.manuallyStopped && stopped.globals.server == Stopped && 2 !in stopped.tasks
      && !IsQuiet(stopped)
    ensures Run(Initial(now), ToStopInPause(now) + [Resume(1, YES), Resume(1, YES)]).globals.server == Ready
  {
    hide Run;
    var s := Run(Initial(now), ToRestartPause(now));
    RestartPauseIsReached(now);
    var begun := Apply(s, StopServer(true));
    assert begun.tasks == s.tasks[2 := Call(StopKill(false))];
    var stopped := Apply(begun, Resume(2, YES));
    assert Awaits(stopped, 1, RestartPause) && stopped.tasks[1].HealthLoop? && stopped.globals.server == Stopped;
    RunTwo(s, StopServer(true), Resume(2, YES));
    RunAppend(Initial(now), ToRestartPause(now), [StopServer(true), Resume(2, YES)]);
    GoesOn(stopped, 1, RestartPause, YES);
    Succeeds(Apply(stopped, Resume(1, YES)), 1, StartProbe, YES);
    RunTwo(stopped, Resume(1, YES), Resume(1, YES));
    RunAppend(Initial(now), ToStopInPause(now), [Resume(1, YES), Resume(1, YES)]);
  }

  // ----- A run into a restart that hangs -----

  /** A restart is asked for while the loop waits for itself.  The loop restarts the server, so that a new one takes its
      place; the user stops the server. */
  function ToHangingRestart(now: int): seq<Action> {
    ToSecondCheck(now) + [Resume(1, NO), RestartServer, Resume(1, YES)]
    + [Resume(1, YES), Resume(1, YES), Resume(1, YES)]
    + [StopServer(true), Resume(3, YES), Resume(4, YES)]
  }

  /** The other restart waits for ever: the loop it cancelled has swallowed that and sleeps on. */
  lemma RestartCanHang(now: int)
    ensures var s := Run(Initial(now), ToHangingRestart(now));
      Awaits(s, 2, StopWait(true, 1)) && IsHeldUp(s, 2) && !IsQuiet(s) && StaysDown(s)
  {
    hide Run;
    var s := Run(Initial(now), ToSecondCheck(now));
    SecondCheckIsReached(now);
    var s3 := HangingRestartBegins(s);
    var s6 := HangingLoopGoesOn(s3);
    var s9 := HangingStop(s6);
    RunThree(s, [Resume(1, NO), RestartServer, Resume(1, YES)]);
    RunThree(s3, [Resume(1, YES), Resume(1, YES), Resume(1, YES)]);
    RunThree(s6, [StopServer(true), Resume(3, YES), Resume(4, YES)]);
    var first := ToSecondCheck(now) + [Resume(1, NO), RestartServer, Resume(1, YES)];
    RunAppend(Initial(now), ToSecondCheck(now), [Resume(1, NO), RestartServer, Resume(1, YES)]);
    RunAppend(Initial(now), first, [Resume(1, YES), Resume(1, YES), Resume(1, YES)]);
    RunAppend(Initial(now), first + [Resume(1, YES), Resume(1, YES), Resume(1, YES)],
              [StopServer(true), Resume(3, YES), Resume(4, YES)]);
    ManualStopLastsIff(now, ToHangingRestart(now));
  }

  lemma HangingRestartBegins(s: State) returns (r: State)
    requires s.globals == Globals(Ready, 0, false, Some(1)) && s.now >= RESTART_COOLDOWN && s.nextId == 2
    requires s.tasks == map[1 := HealthLoop(1, 0, Probing)]
    ensures r == Apply(Apply(Apply(s, Resume(1, NO)), RestartServer), Resume(1, YES))
    ensures r.globals == Globals(Stopped, 2, false, None) && r.nextId == 3
    ensures r.tasks == map[1 := HealthLoop(2, s.now, Restarting(StopKill(true))), 2 := Call(StopWait(true, 1))]
  {
    var s1 := Apply(s, Resume(1, NO));
    assert s1.tasks == map[1 := HealthLoop(2, s.now, Restarting(StopWait(true, 1)))];
    var s2 := Apply(s1, RestartServer);
    assert s2.tasks == s1.tasks[2 := Call(StopWait(true, 1))];
    r := Apply(s2, Resume(1, YES));
  }

  lemma HangingLoopGoesOn(s: State) returns (r: State)
    requires s.globals == Globals(Stopped, 2, false, None) && s.nextId == 3
    requires s.tasks.Keys == {1, 2} && s.tasks[2] == Call(StopWait(true, 1))
    requires s.tasks[1].HealthLoop? && s.tasks[1].at == Restarting(StopKill(true))
    ensures r == Apply(Apply(Apply(s, Resume(1, YES)), Resume(1, YES)), Resume(1, YES))
    ensures r.globals == Globals(Ready, 2, false, Some(3)) && r.nextId == 4 && r.tasks.Keys == {1, 2, 3}
    ensures r.tasks[1].HealthLoop? && r.tasks[1].at == Sleeping && r.tasks[2] == Call(StopWait(true, 1))
    ensures r.tasks[3] == HealthLoop(0, 0, Sleeping)
  {
    var s1 := Apply(s, Resume(1, YES));
    assert s1.tasks == s.tasks[1 := s.tasks[1].(at := Restarting(RestartPause))];
    var s2 := Apply(s1, Resume(1, YES));
    assert s2.tasks == s.tasks[1 := s.tasks[1].(at := Restarting(StartProbe))];
    r := Apply(s2, Resume(1, YES));
  }

  lemma HangingStop(s: State) returns (r: State)
    requires s.globals == Globals(Ready, 2, false, Some(3)) && s.nextId == 4 && s.tasks.Keys == {1, 2, 3}
    requires s.tasks[1].HealthLoop? && s.tasks[1].at == Sleeping && s.tasks[2] == Call(StopWait(true, 1))
    requires s.tasks[3] == HealthLoop(0, 0, Sleeping)
    ensures r == Apply(Apply(Apply(s, StopServer(true)), Resume(3, YES)), Resume(4, YES))
    ensures r.globals.server == Stopped && Awaits(r, 2, StopWait(true, 1)) && IsHeldUp(r, 2) && NothingCanStart(r)
    ensures !IsQuiet(r)
  {
    var s1 := Apply(s, StopServer(true));
    assert s1.tasks == s.tasks[3 := HealthLoop(0, 0, Cancelled)][4 := Call(StopWait(false, 3))];
    CancelledEnds(s1, 3, YES);
    var s2 := Apply(s1, Resume(3, YES));
    r := Apply(s2, Resume(4, YES));
    assert r.tasks == s2.tasks[4 := Call(StopKill(false))];
  }
}
