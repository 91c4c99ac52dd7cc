/**
 * The single-flight build manager (src/bunsho/orchestration/build_tasks.py).
 *
 * The event loop runs one callback or one piece of a coroutine at a time, so a run is a sequence of
 * such pieces; the worker thread takes part by reporting progress and by ending, which both put a
 * callback at the end of the loop's queue.
 */
module BuildTasks {
  import opened ReviewTypes

  datatype BuildState = Running | Succeeded | Failed

  datatype BuildProgress = BuildProgress(stage: string, current: nat, total: nat)

  datatype BuildTask = BuildTask(dryRun: bool, state: BuildState, progress: Option<BuildProgress>,
                                 error: Option<string>)

  datatype BuildEvent =
    | ProgressEvent(id: nat, progress: BuildProgress)
    | StateEvent(id: nat, state: BuildState, error: Option<string>)

  /** Where the coroutine `_run` of a task is suspended. */
  datatype Pc = NotStarted | AwaitingWorker | WaitingAfterCancel | Ended

  datatype Outcome = Built | Broke(error: string)

  /** `cancelled` is a cancellation not yet delivered; `outcome` what the event loop knows of the worker. */
  datatype Runner = Runner(pc: Pc, cancelled: bool, threadAlive: bool, outcome: Option<Outcome>)

  datatype Callback = Reported(id: nat, progress: BuildProgress) | Completed(id: nat, outcome: Outcome)

  /** `tasks` are all task objects there ever were, `history` the ones the manager remembers. */
  datatype Sys = Sys(
    tasks: map<nat, BuildTask>,
    history: seq<nat>,
    active: Option<nat>,
    runners: map<nat, Runner>,
    ready: seq<Callback>,
    events: seq<BuildEvent>)

  /** What may go wrong while a runner runs: the factory, reopening the content, reading the clock. */
  datatype Luck = Luck(factoryError: Option<string>, refreshError: Option<string>, clockFails: bool)

  datatype Step =
    | Start(id: nat, dryRun: bool)
    | Resume(id: nat, luck: Luck)
    | Cancel(id: nat)
    | Report(id: nat, progress: BuildProgress)
    | EndThread(id: nat, outcome: Outcome)
    | RunReady

  const IDLE: Sys := Sys(map[], [], None, map[], [], [])

  const CANCELLED: string := "Cancelled: build interrupted"

  /** `_trim_history` right after the newest task became active: forget the oldest ones. */
  function Trimmed(history: seq<nat>, maxHistory: nat): seq<nat> {
    var keep := if maxHistory == 0 then 1 else maxHistory;
    if |history| <= keep then history else history[|history| - keep..]
  }

  function Publish(s: Sys, e: BuildEvent): Sys { s.(events := s.events + [e]) }

  function At(s: Sys, id: nat, r: Runner): Sys { s.(runners := s.runners[id := r]) }

  function WithTask(s: Sys, id: nat, t: BuildTask): Sys { s.(tasks := s.tasks[id := t]) }

  function StartTask(s: Sys, id: nat, dryRun: bool, maxHistory: nat): Sys {
    if s.active.Some? then s
    else
      Publish(s.(tasks := s.tasks[id := BuildTask(dryRun, Running, None, None)],
                 history := Trimmed(s.history + [id], maxHistory),
                 active := Some(id),
                 runners := s.runners[id := Runner(NotStarted, false, false, None)]),
              StateEvent(id, Running, None))
  }

  /** The `finally` block: the slot is released first, and a failing clock loses the last event. */
  function Finish(s: Sys, id: nat, luck: Luck): Sys
    requires id in s.tasks && id in s.runners
  {
    var released := At(s, id, s.runners[id].(pc := Ended, cancelled := false)).(active := None);
    if luck.clockFails then released else Publish(released, StateEvent(id, s.tasks[id].state, s.tasks[id].error))
  }

  function Fail(s: Sys, id: nat, error: string): Sys
    requires id in s.tasks
  {
    WithTask(s, id, s.tasks[id].(state := Failed, error := Some(error)))
  }

  /** The part of `_run` up to its first await: make the orchestrator and start the worker thread. */
  function Begin(s: Sys, id: nat, luck: Luck): Sys
    requires id in s.tasks && id in s.runners
  {
    var r := s.runners[id];
    if r.cancelled then At(s, id, r.(pc := Ended, cancelled := false))
    else if luck.factoryError.Some? then Finish(Fail(s, id, luck.factoryError.value), id, luck)
    else At(s, id, r.(pc := AwaitingWorker, threadAlive := true))
  }

  /** `_run` after the shielded await: cancelled, broken, or built and the content reopened. */
  function Settle(s: Sys, id: nat, luck: Luck): Sys
    requires id in s.tasks && id in s.runners
  {
    var (r, t) := (s.runners[id], s.tasks[id]);
    if r.cancelled then
      var failed := Fail(s, id, CANCELLED);
      if r.outcome.Some? then Finish(failed, id, luck)
          else At(failed, id, r.(pc := WaitingAfterCancel, cancelled := false))
    else
      match r.outcome
      case None => s
      case Some(Broke(error)) => Finish(Fail(s, id, error), id, luck)
      case Some(Built) =>
        if !t.dryRun && luck.refreshError.Some? then Finish(Fail(s, id, luck.refreshError.value), id, luck)
        else Finish(WithTask(s, id, t.(state := Succeeded)), id, luck)
  }

  /** `_wait_for_worker`: another cancellation only makes it wait again. */
  function Wait(s: Sys, id: nat, luck: Luck): Sys
    requires id in s.tasks && id in s.runners
  {
    var r := s.runners[id];
    if r.outcome.Some? then Finish(s, id, luck) else At(s, id, r.(cancelled := false))
  }

  /** `_on_progress`: ignored unless that build is still running. */
  function OnProgress(s: Sys, id: nat, progress: BuildProgress): Sys {
    if id !in s.tasks || s.tasks[id].state != Running then s
    else Publish(WithTask(s, id, s.tasks[id].(progress := Some(progress))), ProgressEvent(id, progress))
  }

  predicate Enabled(s: Sys, step: Step) {
    match step
    case Start(id, _) => id !in s.tasks
    case Resume(id, _) => id in s.tasks && id in s.runners && s.runners[id].pc != Ended
    case Cancel(id) => id in s.runners && s.runners[id].pc != Ended
    case Report(id, _) => id in s.runners && s.runners[id].threadAlive
    case EndThread(id, _) => id in s.runners && s.runners[id].threadAlive
    case RunReady => s.ready != []
  }

  function RunCallback(s: Sys, c: Callback): Sys {
    match c
    case Reported(id, progress) => OnProgress(s, id, progress)
    case Completed(id, outcome) => if id in s.runners then At(s, id, s.runners[id].(outcome := Some(outcome))) else s
  }

  function ResumeRunner(s: Sys, id: nat, luck: Luck): Sys
    requires id in s.tasks && id in s.runners
  {
    match s.runners[id].pc
    case NotStarted => Begin(s, id, luck)
    case AwaitingWorker => Settle(s, id, luck)
    case WaitingAfterCancel => Wait(s, id, luck)
    case Ended => s
  }

  function Next(s: Sys, step: Step, maxHistory: nat): Sys {
    if !Enabled(s, step) then s
    else
      match step
      case Start(id, dryRun) => StartTask(s, id, dryRun, maxHistory)
      case Resume(id, luck) => ResumeRunner(s, id, luck)
      case Cancel(id) => At(s, id, s.runners[id].(cancelled := true))
      case Report(id, progress) => s.(ready := s.ready + [Reported(id, progress)])
      case EndThread(id, outcome) => At(s, id,
          s.runners[id].(threadAlive := false)).(ready := s.ready + [Completed(id, outcome)])
      case RunReady => RunCallback(s.(ready := s.ready[1..]), s.ready[0])
  }

  function Run(steps: seq<Step>, maxHistory: nat): Sys {
    if steps == [] then IDLE else Next(Run(steps[..|steps| - 1], maxHistory), steps[|steps| - 1], maxHistory)
  }

  // ---- One worker at a time ----

  ghost predicate NotDone(ready: seq<Callback>, id: nat) {
    forall i :: 0 <= i < |ready| && ready[i].Completed? ==> ready[i].id != id
  }

  /** A live thread belongs to a suspended runner, and its end has not been noticed. */
  ghost predicate RunnerOk(s: Sys, id: nat)
    requires id in s.runners
  {
    var r := s.runners[id];
    && (r.pc != Ended ==> s.active == Some(id))
    && (r.threadAlive ==> r.pc == AwaitingWorker || r.pc == WaitingAfterCancel)
    && (r.threadAlive || r.pc == NotStarted ==> r.outcome.None? && NotDone(s.ready, id))
  }

  ghost predicate RunnersOk(s: Sys) {
    && s.runners.Keys == s.tasks.Keys
    && (forall i :: 0 <= i < |s.ready| && s.ready[i].Completed? ==> s.ready[i].id in s.runners)
    && (forall id {:trigger RunnerOk(s, id)} :: id in s.runners ==> RunnerOk(s, id))
  }

  /** One runner has moved on: it may have ended, and then it may have freed the slot. */
  ghost predicate Advances(s: Sys, s': Sys, id: nat) {
    && id in s.runners && id in s'.runners && s'.runners == s.runners[id := s'.runners[id]]
    && s'.ready == s.ready && s'.tasks.Keys == s.tasks.Keys
    && (s'.active == s.active || (s'.active.None? && s'.runners[id].pc == Ended))
    && s'.runners[id].outcome == s.runners[id].outcome && s'.runners[id].pc != NotStarted
    && (s'.runners[id].threadAlive ==>
          && s'.runners[id].pc != Ended
          && (s.runners[id].threadAlive || s.runners[id].pc == NotStarted))
  }

  lemma AdvanceKeepsRunners(s: Sys, s': Sys, id: nat)
    requires RunnersOk(s) && Advances(s, s', id) && s.runners[id].pc != Ended
    ensures RunnersOk(s')
  {
    assert RunnerOk(s, id);
    forall other | other in s'.runners ensures RunnerOk(s', other) {
      assert RunnerOk(s, other);
    }
  }

  lemma FinishAdvances(s: Sys, failed: Sys, id: nat, luck: Luck)
    requires id in s.tasks && id in s.runners && id in failed.tasks &&
             failed == s.(tasks := s.tasks[id := failed.tasks[id]])
    requires !s.runners[id].threadAlive
    ensures Advances(s, Finish(failed, id, luck), id)
  {
  }

  lemma BeginAdvances(s: Sys, id: nat, luck: Luck)
    requires id in s.tasks && id in s.runners && s.runners[id].pc == NotStarted && !s.runners[id].threadAlive
    ensures Advances(s, Begin(s, id, luck), id)
  {
    if !s.runners[id].cancelled && luck.factoryError.Some? {
      FinishAdvances(s, Fail(s, id, luck.factoryError.value), id, luck);
    }
  }

  lemma SettleAdvances(s: Sys, id: nat, luck: Luck)
    requires id in s.tasks && id in s.runners && s.runners[id].pc == AwaitingWorker
    requires s.runners[id].outcome.Some? ==> !s.runners[id].threadAlive
    ensures Advances(s, Settle(s, id, luck), id)
  {
    var (r, t) := (s.runners[id], s.tasks[id]);
    if r.outcome.Some? {
      var worker := if r.outcome.value.Broke? then r.outcome.value.error else "";
      var refresh := if luck.refreshError.Some? then luck.refreshError.value else "";
      FinishAdvances(s, Fail(s, id, CANCELLED), id, luck);
      FinishAdvances(s, Fail(s, id, worker), id, luck);
      FinishAdvances(s, Fail(s, id, refresh), id, luck);
      FinishAdvances(s, WithTask(s, id, t.(state := Succeeded)), id, luck);
    } else {
      assert Settle(s, id, luck).runners == s.runners[id := Settle(s, id, luck).runners[id]];
    }
  }

  lemma WaitAdvances(s: Sys, id: nat, luck: Luck)
    requires id in s.tasks && id in s.runners && s.runners[id].pc == WaitingAfterCancel
    requires s.runners[id].outcome.Some? ==> !s.runners[id].threadAlive
    ensures Advances(s, Wait(s, id, luck), id)
  {
    if s.runners[id].outcome.Some? {
      FinishAdvances(s, s, id, luck);
    }
  }

  lemma ResumeAdvances(s: Sys, id: nat, luck: Luck)
    requires RunnersOk(s) && Enabled(s, Resume(id, luck))
    ensures Advances(s, ResumeRunner(s, id, luck), id)
  {
    assert RunnerOk(s, id);
    match s.runners[id].pc
    case NotStarted => BeginAdvances(s, id, luck);
    case AwaitingWorker => SettleAdvances(s, id, luck);
    case WaitingAfterCancel => WaitAdvances(s, id, luck);
  }

  lemma ResumeKeepsRunners(s: Sys, id: nat, luck: Luck)
    requires RunnersOk(s) && Enabled(s, Resume(id, luck))
    ensures RunnersOk(ResumeRunner(s, id, luck))
  {
    ResumeAdvances(s, id, luck);
    AdvanceKeepsRunners(s, ResumeRunner(s, id, luck), id);
  }

  lemma StartKeepsRunners(s: Sys, id: nat, dryRun: bool, maxHistory: nat)
    requires RunnersOk(s) && id !in s.tasks
    ensures RunnersOk(StartTask(s, id, dryRun, maxHistory))
  {
    var s' := StartTask(s, id, dryRun, maxHistory);
    forall other | other in s'.runners ensures RunnerOk(s', other) {
      if other in s.runners {
        assert RunnerOk(s, other);
      }
    }
  }

  lemma CancelKeepsRunners(s: Sys, id: nat)
    requires RunnersOk(s) && id in s.runners
    ensures RunnersOk(At(s, id, s.runners[id].(cancelled := true)))
  {
    var s' := At(s, id, s.runners[id].(cancelled := true));
    forall other | other in s'.runners ensures RunnerOk(s', other) {
      assert RunnerOk(s, other);
    }
  }

  lemma ThreadKeepsRunners(s: Sys, id: nat, c: Callback)
    requires RunnersOk(s) && id in s.runners && s.runners[id].threadAlive && c.id == id
    ensures RunnersOk(At(s, id, s.runners[id].(threadAlive := !c.Completed?)).(ready := s.ready + [c]))
  {
    var s' := At(s, id, s.runners[id].(threadAlive := !c.Completed?)).(ready := s.ready + [c]);
    assert RunnerOk(s, id);
    forall other | other in s'.runners ensures RunnerOk(s', other) {
      assert RunnerOk(s, other);
    }
  }

  lemma ReadyKeepsRunners(s: Sys)
    requires RunnersOk(s) && s.ready != []
    ensures RunnersOk(RunCallback(s.(ready := s.ready[1..]), s.ready[0]))
  {
    var c := s.ready[0];
    var s' := RunCallback(s.(ready := s.ready[1..]), c);
    assert forall i :: 0 <= i < |s.ready| - 1 ==> s.ready[1..][i] == s.ready[i + 1];
    forall other | other in s'.runners ensures RunnerOk(s', other) {
      assert RunnerOk(s, other);
    }
  }

  lemma {:induction false} StepKeepsRunners(s: Sys, step: Step, maxHistory: nat)
    requires RunnersOk(s)
    ensures RunnersOk(Next(s, step, maxHistory))
  {
    if Enabled(s, step) {
      match step
      case Start(id, dryRun) => StartKeepsRunners(s, id, dryRun, maxHistory);
      case Resume(id, luck) => ResumeKeepsRunners(s, id, luck);
      case Cancel(id) => CancelKeepsRunners(s, id);
      case Report(id, progress) =>
        ThreadKeepsRunners(s, id, Reported(id, progress));
        assert s.runners[id := s.runners[id].(threadAlive := true)] == s.runners;
      case EndThread(id, outcome) => ThreadKeepsRunners(s, id, Completed(id, outcome));
      case RunReady => ReadyKeepsRunners(s);
    }
  }

  lemma {:induction false} RunnersAlwaysOk(steps: seq<Step>, maxHistory: nat)
    ensures RunnersOk(Run(steps, maxHistory))
  {
    if steps != [] {
      RunnersAlwaysOk(steps[..|steps| - 1], maxHistory);
      StepKeepsRunners(Run(steps[..|steps| - 1], maxHistory), steps[|steps| - 1], maxHistory);
    }
  }

  /** However builds fail and are cancelled: one worker thread at most, and none while the slot is free. */
  lemma {:induction false} OneWorker(steps: seq<Step>, maxHistory: nat, a: nat, b: nat)
    requires var s := Run(steps, maxHistory);
             a in s.runners && s.runners[a].threadAlive && b in s.runners && s.runners[b].threadAlive
    ensures a == b && Run(steps, maxHistory).active == Some(a)
  {
    var s := Run(steps, maxHistory);
    RunnersAlwaysOk(steps, maxHistory);
    assert RunnerOk(s, a) && RunnerOk(s, b);
  }

  // ---- The events of a task are one block ----

  predicate Terminal(e: BuildEvent) { e.StateEvent? && e.state != Running }

  predicate Opening(e: BuildEvent) { e.StateEvent? && e.state == Running }

  /** An opening event begins a new task; any other one continues the block of the event before it. */
  ghost predicate EventOk(events: seq<BuildEvent>, i: nat)
    requires i < |events|
  {
    if Opening(events[i]) then forall j :: 0 <= j < i ==> events[j].id != events[i].id
    else i > 0 && events[i - 1].id == events[i].id && !Terminal(events[i - 1])
  }

  ghost predicate LogOk(events: seq<BuildEvent>) {
    forall i {:trigger EventOk(events, i)} :: 0 <= i < |events| ==> EventOk(events, i)
  }

  /** The last progress published of a task. */
  function LastProgress(events: seq<BuildEvent>, id: nat): Option<BuildProgress> {
    if events == [] then None
    else
      var e := events[|events| - 1];
      if e.ProgressEvent? && e.id == id then Some(e.progress) else LastProgress(events[..|events| - 1], id)
  }

  /** How a task ended, if that has been published. */
  function EndOf(events: seq<BuildEvent>, id: nat): Option<(BuildState, Option<string>)> {
    if events == [] then None
    else
      var e := events[|events| - 1];
      if Terminal(e) && e.id == id then Some((e.state, e.error)) else EndOf(events[..|events| - 1], id)
  }

  lemma {:induction false} OneMoreEvent(events: seq<BuildEvent>, e: BuildEvent, id: nat)
    ensures LastProgress(events + [e], id) == if e.ProgressEvent? && e.id == id then Some(e.progress)
            else LastProgress(events, id)
    ensures EndOf(events + [e], id) == if Terminal(e) && e.id == id then Some((e.state, e.error)) else EndOf(events, id)
  {
    assert (events + [e])[..|events|] == events;
  }

  lemma LogGrows(events: seq<BuildEvent>, e: BuildEvent)
    requires LogOk(events)
    requires if Opening(e) then forall j :: 0 <= j < |events| ==> events[j].id != e.id
             else events != [] && events[|events| - 1].id == e.id && !Terminal(events[|events| - 1])
    ensures LogOk(events + [e])
  {
    forall i | 0 <= i < |events + [e]| ensures EventOk(events + [e], i) {
      assert i < |events| ==> EventOk(events, i);
    }
  }

  /** A build has the state that fits the place where its runner is suspended. */
  ghost predicate PcFits(s: Sys, id: nat)
    requires id in s.tasks && id in s.runners
  {
    && (s.runners[id].pc == NotStarted || s.runners[id].pc == AwaitingWorker ==> s.tasks[id].state == Running)
    && (s.runners[id].pc == WaitingAfterCancel ==> s.tasks[id].state != Running)
  }

  /** A task and what was published of it. */
  ghost predicate TaskOk(s: Sys, id: nat)
    requires id in s.tasks && id in s.runners
  {
    var (t, end) := (s.tasks[id], EndOf(s.events, id));
    && (t.state == Running ==> s.active == Some(id) && t.error.None?)
    && (s.active == Some(id) ==> end.None?)
    && (end.Some? ==> end == Some((t.state, t.error)))
    && t.progress == LastProgress(s.events, id)
    && PcFits(s, id)
  }

  ghost predicate SlotOk(s: Sys) {
    && (forall i :: 0 <= i < |s.events| ==> s.events[i].id in s.tasks)
    && (s.active.Some? ==>
          && s.active.value in s.tasks
          && s.events != [] && s.events[|s.events| - 1].id == s.active.value && !Terminal(s.events[|s.events| - 1])
          && s.history != [] && s.history[|s.history| - 1] == s.active.value)
  }

  ghost predicate TasksOk(s: Sys) {
    && RunnersOk(s) && LogOk(s.events) && SlotOk(s)
    && (forall id {:trigger TaskOk(s, id)} :: id in s.tasks ==> TaskOk(s, id))
  }

  /** A step that touches one build, the one in the slot: it may publish, end it and free the slot. */
  ghost predicate Touches(s: Sys, s': Sys, id: nat) {
    && s.active == Some(id) && id in s.tasks && id in s'.tasks && id in s.runners && id in s'.runners
    && s'.tasks == s.tasks[id := s'.tasks[id]] && s'.runners == s.runners[id := s'.runners[id]] &&
         s'.history == s.history
    && (s.tasks[id].state != Running ==> s'.tasks[id] == s.tasks[id])
    && var (t, t') := (s.tasks[id], s'.tasks[id]);
       || (s'.events == s.events && s'.active == s.active && t'.progress == t.progress
           && (t' == t || t'.state == Failed))
       || (s'.events == s.events && s'.active.None? && t'.progress == t.progress && t'.state != Running)
       || (s'.active.None? && t'.progress == t.progress && t'.state != Running
           && s'.events == s.events + [StateEvent(id, t'.state, t'.error)])
       || (s'.active == s.active && t'.progress.Some? && t' == t.(progress := t'.progress)
           && s'.events == s.events + [ProgressEvent(id, t'.progress.value)])
  }

  lemma TouchedLog(s: Sys, s': Sys, id: nat)
    requires TasksOk(s) && Touches(s, s', id)
    ensures LogOk(s'.events) && SlotOk(s')
  {
    if s'.events != s.events {
      LogGrows(s.events, s'.events[|s.events|]);
    }
  }

  lemma TouchedTask(s: Sys, s': Sys, id: nat, other: nat)
    requires TasksOk(s) && Touches(s, s', id) && other in s.tasks && PcFits(s', id)
    ensures TaskOk(s', other)
  {
    assert TaskOk(s, other);
    if s'.events != s.events {
      OneMoreEvent(s.events, s'.events[|s.events|], other);
    }
  }

  lemma FinishTouches(s: Sys, failed: Sys, id: nat, luck: Luck)
    requires s.active == Some(id) && id in s.tasks && id in s.runners && id in failed.tasks
    requires failed == s.(tasks := s.tasks[id := failed.tasks[id]])
    requires failed.tasks[id].progress == s.tasks[id].progress && failed.tasks[id].state != Running
    requires s.tasks[id].state != Running ==> failed.tasks[id] == s.tasks[id]
    ensures Touches(s, Finish(failed, id, luck), id) && PcFits(Finish(failed, id, luck), id)
  {
  }

  lemma SettleTouches(s: Sys, id: nat, luck: Luck)
    requires s.active == Some(id) && id in s.tasks && id in s.runners && s.runners[id].pc == AwaitingWorker &&
             PcFits(s, id)
    ensures Touches(s, Settle(s, id, luck), id) && PcFits(Settle(s, id, luck), id)
  {
    var (r, t) := (s.runners[id], s.tasks[id]);
    if r.cancelled {
      FinishTouches(s, Fail(s, id, CANCELLED), id, luck);
    } else if r.outcome.Some? {
      var error := if r.outcome.value.Broke? then r.outcome.value.error
          else if luck.refreshError.Some? then luck.refreshError.value else "";
      FinishTouches(s, Fail(s, id, error), id, luck);
      FinishTouches(s, WithTask(s, id, t.(state := Succeeded)), id, luck);
    }
  }

  lemma BeginTouches(s: Sys, id: nat, luck: Luck)
    requires s.active == Some(id) && id in s.tasks && id in s.runners && s.runners[id].pc == NotStarted && PcFits(s, id)
    ensures Touches(s, Begin(s, id, luck), id) && PcFits(Begin(s, id, luck), id)
  {
    if !s.runners[id].cancelled && luck.factoryError.Some? {
      FinishTouches(s, Fail(s, id, luck.factoryError.value), id, luck);
    }
  }

  lemma WaitTouches(s: Sys, id: nat, luck: Luck)
    requires s.active == Some(id) && id in s.tasks && id in s.runners && s.runners[id].pc == WaitingAfterCancel &&
             PcFits(s, id)
    ensures Touches(s, Wait(s, id, luck), id) && PcFits(Wait(s, id, luck), id)
  {
    if s.runners[id].outcome.Some? {
      FinishTouches(s, s, id, luck);
    }
  }

  lemma ResumeTouches(s: Sys, id: nat, luck: Luck)
    requires TasksOk(s) && Enabled(s, Resume(id, luck))
    ensures Touches(s, ResumeRunner(s, id, luck), id) && PcFits(ResumeRunner(s, id, luck), id)
  {
    assert RunnerOk(s, id) && TaskOk(s, id);
    match s.runners[id].pc
    case NotStarted => BeginTouches(s, id, luck);
    case AwaitingWorker => SettleTouches(s, id, luck);
    case WaitingAfterCancel => WaitTouches(s, id, luck);
  }

  lemma ResumeKeepsTasks(s: Sys, id: nat, luck: Luck)
    requires TasksOk(s) && Enabled(s, Resume(id, luck))
    ensures TasksOk(ResumeRunner(s, id, luck))
  {
    var s' := ResumeRunner(s, id, luck);
    ResumeKeepsRunners(s, id, luck);
    ResumeTouches(s, id, luck);
    TouchedLog(s, s', id);
    forall other | other in s'.tasks ensures TaskOk(s', other) {
      TouchedTask(s, s', id, other);
    }
  }

  lemma ProgressKeepsTasks(s: Sys, id: nat, progress: BuildProgress)
    requires TasksOk(s)
    ensures TasksOk(OnProgress(s, id, progress))
  {
    var s' := OnProgress(s, id, progress);
    if s' != s {
      assert TaskOk(s, id) && RunnerOk(s, id);
      TouchedLog(s, s', id);
      forall other | other in s'.tasks ensures TaskOk(s', other) && RunnerOk(s', other) {
        assert RunnerOk(s, other);
        TouchedTask(s, s', id, other);
      }
    }
  }

  lemma {:induction false} NothingOf(events: seq<BuildEvent>, id: nat)
    requires forall i :: 0 <= i < |events| ==> events[i].id != id
    ensures LastProgress(events, id).None? && EndOf(events, id).None?
  {
    if events != [] {
      NothingOf(events[..|events| - 1], id);
    }
  }

  /** Trimming forgets the oldest tasks only, and never the one that just became active. */
  lemma TrimmedKeepsNewest(history: seq<nat>, id: nat, maxHistory: nat)
    ensures var (all, kept) := (history + [id], Trimmed(history + [id], maxHistory));
            && kept != [] && kept[|kept| - 1] == id && kept == all[|all| - |kept|..]
            && (|kept| == |all| || |kept| == maxHistory || |kept| == 1) && |kept| <= maxHistory + 1
            && (|all| <= maxHistory ==> kept == all) && (|all| > maxHistory > 0 ==> |kept| == maxHistory)
            && (maxHistory > 0 ==> |kept| <= maxHistory)
  {
  }

  lemma NewestLast(history: seq<nat>, id: nat, maxHistory: nat)
    ensures var kept := Trimmed(history + [id], maxHistory); kept != [] && kept[|kept| - 1] == id
  {
    TrimmedKeepsNewest(history, id, maxHistory);
  }

  lemma StartedSlot(s: Sys, id: nat, dryRun: bool, maxHistory: nat)
    requires TasksOk(s) && id !in s.tasks && s.active.None?
    ensures LogOk(StartTask(s, id, dryRun, maxHistory).events) && SlotOk(StartTask(s, id, dryRun, maxHistory))
  {
    NewestLast(s.history, id, maxHistory);
    LogGrows(s.events, StateEvent(id, Running, None));
  }

  lemma StartedTask(s: Sys, s': Sys, id: nat, dryRun: bool, other: nat)
    requires TasksOk(s) && id !in s.tasks && s.active.None? && other in s'.tasks
    requires s'.tasks == s.tasks[id := BuildTask(dryRun, Running, None, None)] && s'.active == Some(id)
    requires s'.runners == s.runners[id := Runner(NotStarted, false, false, None)]
    requires s'.events == s.events + [StateEvent(id, Running, None)]
    ensures TaskOk(s', other)
  {
    OneMoreEvent(s.events, StateEvent(id, Running, None), other);
    if other == id {
      NothingOf(s.events, id);
    } else {
      assert TaskOk(s, other);
    }
  }

  lemma StartKeepsTasks(s: Sys, id: nat, dryRun: bool, maxHistory: nat)
    requires TasksOk(s) && id !in s.tasks
    ensures TasksOk(StartTask(s, id, dryRun, maxHistory))
  {
    var s' := StartTask(s, id, dryRun, maxHistory);
    StartKeepsRunners(s, id, dryRun, maxHistory);
    if s.active.None? {
      StartedSlot(s, id, dryRun, maxHistory);
      forall other | other in s'.tasks ensures TaskOk(s', other) {
        StartedTask(s, s', id, dryRun, other);
      }
    }
  }

  /** Steps that only move callbacks and flags about. */
  lemma QuietKeepsTasks(s: Sys, s': Sys)
    requires TasksOk(s) && RunnersOk(s') && s'.tasks == s.tasks && s'.events == s.events && s'.active == s.active
    requires s'.history == s.history && forall id :: id in s.runners ==>
             id in s'.runners && s'.runners[id].pc == s.runners[id].pc
    ensures TasksOk(s')
  {
    forall id | id in s'.tasks ensures TaskOk(s', id) {
      assert TaskOk(s, id);
    }
  }

  lemma ReadyKeepsTasks(s: Sys)
    requires TasksOk(s) && s.ready != []
    ensures TasksOk(RunCallback(s.(ready := s.ready[1..]), s.ready[0]))
  {
    var popped := s.(ready := s.ready[1..]);
    assert forall i :: 0 <= i < |s.ready| - 1 ==> s.ready[1..][i] == s.ready[i + 1];
    forall id | id in popped.runners ensures RunnerOk(popped, id) {
      assert RunnerOk(s, id);
    }
    QuietKeepsTasks(s, popped);
    match s.ready[0]
    case Reported(id, progress) => ProgressKeepsTasks(popped, id, progress);
    case Completed(id, outcome) =>
      ReadyKeepsRunners(s);
      QuietKeepsTasks(s, RunCallback(popped, s.ready[0]));
  }

  lemma {:induction false} StepKeepsTasks(s: Sys, step: Step, maxHistory: nat)
    requires TasksOk(s)
    ensures TasksOk(Next(s, step, maxHistory))
  {
    if Enabled(s, step) {
      StepKeepsRunners(s, step, maxHistory);
      match step
      case Start(id, dryRun) => StartKeepsTasks(s, id, dryRun, maxHistory);
      case Resume(id, luck) => ResumeKeepsTasks(s, id, luck);
      case Cancel(_) => QuietKeepsTasks(s, Next(s, step, maxHistory));
      case Report(_, _) => QuietKeepsTasks(s, Next(s, step, maxHistory));
      case EndThread(_, _) => QuietKeepsTasks(s, Next(s, step, maxHistory));
      case RunReady => ReadyKeepsTasks(s);
    }
  }

  lemma {:induction false} TasksAlwaysOk(steps: seq<Step>, maxHistory: nat)
    ensures TasksOk(Run(steps, maxHistory))
  {
    if steps != [] {
      TasksAlwaysOk(steps[..|steps| - 1], maxHistory);
      StepKeepsTasks(Run(steps[..|steps| - 1], maxHistory), steps[|steps| - 1], maxHistory);
    }
  }

  lemma {:induction false} BlockBetween(events: seq<BuildEvent>, i: nat, j: nat, k: nat)
    requires LogOk(events) && i <= j <= k < |events| && events[i].id == events[k].id
    ensures events[j].id == events[i].id && (j > i ==> !Opening(events[j])) && (j < k ==> !Terminal(events[j]))
    decreases k
  {
    assert EventOk(events, k);
    if i < k {
      if j < k {
        BlockBetween(events, i, j, k - 1);
      }
    }
  }

  /**
   * The events of a task are one uninterleaved block: its running state first, progress in
   * between, and at most one final state, which is last.
   */
  lemma {:induction false} EventsAreBlocks(steps: seq<Step>, maxHistory: nat, i: nat, j: nat, k: nat)
    requires i <= j <= k < |Run(steps, maxHistory).events|
    requires Run(steps, maxHistory).events[i].id == Run(steps, maxHistory).events[k].id
    ensures var events := Run(steps, maxHistory).events;
            && events[j].id == events[i].id
            && (i < j ==> !Opening(events[j])) && (j < k ==> !Terminal(events[j])) &&
                 (i < j < k ==> events[j].ProgressEvent?)
            && exists first :: 0 <= first <= i && Opening(events[first]) && events[first].id == events[i].id
  {
    TasksAlwaysOk(steps, maxHistory);
    var events := Run(steps, maxHistory).events;
    BlockBetween(events, i, j, k);
    var first := BlockStart(events, i);
  }

  lemma {:induction false} BlockStart(events: seq<BuildEvent>, i: nat) returns (first: nat)
    requires LogOk(events) && i < |events|
    ensures first <= i && Opening(events[first]) && events[first].id == events[i].id
    decreases i
  {
    assert EventOk(events, i);
    if Opening(events[i]) {
      first := i;
    } else {
      first := BlockStart(events, i - 1);
    }
  }

  /** What a task object says is what was published of it, once its end was published. */
  lemma {:induction false} EventsTellTask(steps: seq<Step>, maxHistory: nat, id: nat)
    requires id in Run(steps, maxHistory).tasks
    ensures var s := Run(steps, maxHistory);
            && s.tasks[id].progress == LastProgress(s.events, id)
            && (EndOf(s.events, id).Some? ==> EndOf(s.events, id).value == (s.tasks[id].state, s.tasks[id].error))
            && (s.tasks[id].state == Running ==> s.active == Some(id) && EndOf(s.events, id).None?)
  {
    TasksAlwaysOk(steps, maxHistory);
    assert TaskOk(Run(steps, maxHistory), id);
  }

  // ---- Where a result comes from ----

  function EndedBy(s: Sys, step: Step): set<(nat, Outcome)> {
    if step.EndThread? && Enabled(s, step) then {(step.id, step.outcome)} else {}
  }

  /** The worker threads that have ended, and how. */
  ghost function EndedThreads(steps: seq<Step>, maxHistory: nat): set<(nat, Outcome)> {
    if steps == [] then {}
    else
      var (before, step) := (steps[..|steps| - 1], steps[|steps| - 1]);
      EndedThreads(before, maxHistory)
      + EndedBy(Run(before, maxHistory), step)
  }

  ghost predicate ResultOk(s: Sys, id: nat, ended: set<(nat, Outcome)>)
    requires id in s.tasks
  {
    var t := s.tasks[id];
    && (t.state == Succeeded ==> (id, Built) in ended && t.error.None?)
    && (t.state == Failed ==> t.error.Some?)
    && (t.state == Running ==> t.error.None?)
  }

  ghost predicate OutcomesOk(s: Sys, ended: set<(nat, Outcome)>) {
    && (forall id :: id in s.runners && s.runners[id].outcome.Some? ==> (id, s.runners[id].outcome.value) in ended)
    && (forall i :: 0 <= i < |s.ready| && s.ready[i].Completed? ==> (s.ready[i].id, s.ready[i].outcome) in ended)
    && (forall id {:trigger ResultOk(s, id, ended)} :: id in s.tasks ==> ResultOk(s, id, ended))
  }

  lemma FinishResult(s: Sys, id: nat, luck: Luck, ended: set<(nat, Outcome)>)
    requires id in s.tasks && id in s.runners && ResultOk(s, id, ended)
    ensures id in Finish(s, id, luck).tasks && ResultOk(Finish(s, id, luck), id, ended)
  {
  }

  lemma SettleResult(s: Sys, id: nat, luck: Luck, ended: set<(nat, Outcome)>)
    requires id in s.tasks && id in s.runners && ResultOk(s, id, ended) && s.tasks[id].state == Running
    requires s.runners[id].outcome.Some? ==> (id, s.runners[id].outcome.value) in ended
    ensures ResultOk(Settle(s, id, luck), id, ended)
  {
    var (r, t) := (s.runners[id], s.tasks[id]);
    if r.outcome == Some(Built) && !r.cancelled {
      FinishResult(WithTask(s, id, t.(state := Succeeded)), id, luck, ended);
    }
  }

  lemma ResumeResult(s: Sys, id: nat, luck: Luck, ended: set<(nat, Outcome)>)
    requires TasksOk(s) && Enabled(s, Resume(id, luck)) && ResultOk(s, id, ended)
    requires s.runners[id].outcome.Some? ==> (id, s.runners[id].outcome.value) in ended
    ensures ResultOk(ResumeRunner(s, id, luck), id, ended)
  {
    assert TaskOk(s, id);
    if s.runners[id].pc == AwaitingWorker {
      SettleResult(s, id, luck, ended);
    }
  }

  lemma TouchedOutcomes(s: Sys, s': Sys, id: nat, ended: set<(nat, Outcome)>)
    requires OutcomesOk(s, ended) && Touches(s, s', id) && ResultOk(s', id, ended)
    requires s'.ready == s.ready && s'.runners[id].outcome == s.runners[id].outcome
    ensures OutcomesOk(s', ended)
  {
    forall other | other in s'.tasks ensures ResultOk(s', other, ended) {
      assert other != id ==> ResultOk(s, other, ended);
    }
  }

  lemma ResumeKeepsOutcomes(s: Sys, id: nat, luck: Luck, ended: set<(nat, Outcome)>)
    requires TasksOk(s) && OutcomesOk(s, ended) && Enabled(s, Resume(id, luck))
    ensures OutcomesOk(ResumeRunner(s, id, luck), ended)
  {
    assert ResultOk(s, id, ended);
    ResumeTouches(s, id, luck);
    ResumeResult(s, id, luck, ended);
    ResumeAdvances(s, id, luck);
    TouchedOutcomes(s, ResumeRunner(s, id, luck), id, ended);
  }

  lemma ReadyKeepsOutcomes(s: Sys, ended: set<(nat, Outcome)>)
    requires OutcomesOk(s, ended) && s.ready != []
    ensures OutcomesOk(RunCallback(s.(ready := s.ready[1..]), s.ready[0]), ended)
  {
    var s' := RunCallback(s.(ready := s.ready[1..]), s.ready[0]);
    assert forall i :: 0 <= i < |s.ready| - 1 ==> s.ready[1..][i] == s.ready[i + 1];
    forall id | id in s'.tasks ensures ResultOk(s', id, ended) {
      assert ResultOk(s, id, ended);
    }
  }

  lemma OtherKeepsOutcomes(s: Sys, step: Step, maxHistory: nat, ended: set<(nat, Outcome)>)
    requires OutcomesOk(s, ended) && Enabled(s, step) && !step.Resume? && !step.RunReady?
    ensures OutcomesOk(Next(s, step, maxHistory), ended + EndedBy(s, step))
  {
    var s', ended' := Next(s, step, maxHistory), ended + EndedBy(s, step);
    forall id | id in s'.tasks ensures ResultOk(s', id, ended') {
      assert id in s.tasks ==> ResultOk(s, id, ended);
    }
  }

  lemma {:induction false} OutcomesAlwaysOk(steps: seq<Step>, maxHistory: nat)
    ensures OutcomesOk(Run(steps, maxHistory), EndedThreads(steps, maxHistory))
  {
    if steps != [] {
      var before, step := steps[..|steps| - 1], steps[|steps| - 1];
      var s, ended := Run(before, maxHistory), EndedThreads(before, maxHistory);
      OutcomesAlwaysOk(before, maxHistory);
      TasksAlwaysOk(before, maxHistory);
      assert ended + {} == ended;
      if Enabled(s, step) {
        match step
        case Resume(id, luck) => ResumeKeepsOutcomes(s, id, luck, ended);
        case RunReady => ReadyKeepsOutcomes(s, ended);
        case _ => OtherKeepsOutcomes(s, step, maxHistory, ended);
      }
    }
  }

  /** A build has succeeded only if its worker thread ended well, and has an error exactly when it failed. */
  lemma {:induction false} SucceededWasBuilt(steps: seq<Step>, maxHistory: nat, id: nat)
    requires id in Run(steps, maxHistory).tasks
    ensures var t := Run(steps, maxHistory).tasks[id];
            && (t.state == Succeeded ==> (id, Built) in EndedThreads(steps, maxHistory))
            && (t.state == Failed <==> t.error.Some?)
  {
    OutcomesAlwaysOk(steps, maxHistory);
    assert ResultOk(Run(steps, maxHistory), id, EndedThreads(steps, maxHistory));
  }

  // ---- A runner cancelled before its first step ----

  /** A cancellation that reaches a runner before its first step. */
  predicate CancelsEarly(s: Sys, step: Step, id: nat) {
    step == Cancel(id) && id in s.runners && s.runners[id].pc == NotStarted
  }

  predicate CancelledEarly(steps: seq<Step>, maxHistory: nat, id: nat) {
    steps != [] &&
    var (before, step) := (steps[..|steps| - 1], steps[|steps| - 1]);
    CancelledEarly(before, maxHistory, id) || CancelsEarly(Run(before, maxHistory), step, id)
  }

  /** An early cancellation is still to be delivered or has left the slot taken; without one neither is so. */
  ghost predicate SlotFits(s: Sys, id: nat, early: bool) {
    if !early then
      id in s.runners ==> !(s.runners[id].pc == NotStarted && s.runners[id].cancelled)
                          && !(s.runners[id].pc == Ended && s.active == Some(id))
    else
      && id in s.runners
      && (s.runners[id].pc == NotStarted || s.runners[id].pc == Ended)
      && (s.runners[id].pc == NotStarted ==> s.runners[id].cancelled)
      && s.active == Some(id)
  }

  /** A runner cancelled before its first step ends with the slot; any other one that ends frees it. */
  lemma ResumeEnds(s: Sys, id: nat, luck: Luck)
    requires RunnersOk(s) && Enabled(s, Resume(id, luck))
    ensures var (r, s') := (s.runners[id], ResumeRunner(s, id, luck));
            && id in s'.runners
            && (s'.runners[id].pc == Ended && s'.active == Some(id) <==> r.pc == NotStarted && r.cancelled)
  {
    assert RunnerOk(s, id);
    ResumeAdvances(s, id, luck);
    match s.runners[id].pc
    case NotStarted =>
    case AwaitingWorker =>
    case WaitingAfterCancel =>
  }

  lemma ResumeFits(s: Sys, id: nat, early: bool, other: nat, luck: Luck)
    requires RunnersOk(s) && SlotFits(s, id, early) && Enabled(s, Resume(other, luck))
    ensures SlotFits(ResumeRunner(s, other, luck), id, early)
  {
    assert RunnerOk(s, other);
    ResumeAdvances(s, other, luck);
    ResumeEnds(s, other, luck);
    if id in s.runners {
      assert RunnerOk(s, id);
    }
  }

  lemma StepFits(s: Sys, step: Step, maxHistory: nat, id: nat, early: bool)
    requires RunnersOk(s) && SlotFits(s, id, early)
    ensures SlotFits(Next(s, step, maxHistory), id, early || CancelsEarly(s, step, id))
  {
    if Enabled(s, step) {
      if step.Resume? {
        ResumeFits(s, id, early, step.id, step.luck);
      } else if id in s.runners {
        assert RunnerOk(s, id);
      }
    }
  }

  lemma {:induction false} SlotAlwaysFits(steps: seq<Step>, maxHistory: nat, id: nat)
    ensures SlotFits(Run(steps, maxHistory), id, CancelledEarly(steps, maxHistory, id))
  {
    if steps != [] {
      var before := steps[..|steps| - 1];
      SlotAlwaysFits(before, maxHistory, id);
      RunnersAlwaysOk(before, maxHistory);
      StepFits(Run(before, maxHistory), steps[|steps| - 1], maxHistory, id, CancelledEarly(before, maxHistory, id));
    }
  }

  /** A runner that has ended still holds the slot exactly when it was cancelled before its first step. */
  lemma {:induction false} EndedHoldsSlotIff(steps: seq<Step>, maxHistory: nat, id: nat)
    requires id in Run(steps, maxHistory).runners && Run(steps, maxHistory).runners[id].pc == Ended
    ensures Run(steps, maxHistory).active == Some(id) <==> CancelledEarly(steps, maxHistory, id)
  {
    SlotAlwaysFits(steps, maxHistory, id);
  }

  lemma {:induction false} StaysCancelledEarly(steps: seq<Step>, later: seq<Step>, maxHistory: nat, id: nat)
    requires CancelledEarly(steps, maxHistory, id)
    ensures CancelledEarly(steps + later, maxHistory, id)
  {
    if later == [] {
      assert steps + later == steps;
    } else {
      StaysCancelledEarly(steps, later[..|later| - 1], maxHistory, id);
      assert (steps + later)[..|steps + later| - 1] == steps + later[..|later| - 1];
    }
  }

  /** Such a cancellation skips the `finally` block: from then on the slot is taken and no build can start. */
  lemma {:induction false} CancelledBeforeStart(steps: seq<Step>, later: seq<Step>, maxHistory: nat, id: nat)
    requires CancelledEarly(steps, maxHistory, id)
    ensures var s := Run(steps + later, maxHistory);
            s.active == Some(id) && forall other, d :: other !in s.tasks ==> Next(s, Start(other, d), maxHistory) == s
  {
    StaysCancelledEarly(steps, later, maxHistory, id);
    SlotAlwaysFits(steps + later, maxHistory, id);
  }

  /** And it can happen to the first build there is. */
  lemma {:induction false} EarlyCancelHappens(id: nat, dryRun: bool, luck: Luck, maxHistory: nat)
    ensures var steps := [Start(id, dryRun), Cancel(id), Resume(id, luck)];
            && CancelledEarly(steps, maxHistory, id)
            && id in Run(steps, maxHistory).runners && Run(steps, maxHistory).runners[id].pc == Ended
  {
    var a, b, c := Start(id, dryRun), Cancel(id), Resume(id, luck);
    assert [a, b, c][..2] == [a, b] && [a, b][..1] == [a] && [a][..0] == [];
    assert Run([a], maxHistory) == Next(IDLE, a, maxHistory);
    assert Run([a, b], maxHistory) == Next(Run([a], maxHistory), b, maxHistory);
    assert CancelledEarly([a, b], maxHistory, id);
  }
}
