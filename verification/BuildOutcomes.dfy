/**
 * How builds end (src/bunsho/orchestration/build_tasks.py: `_run`), told from the steps of a run alone: which
 * cancellations were delivered when, what the event loop heard of the worker, and what went wrong on the way.
 */
module BuildOutcomes {
  import opened ReviewTypes
  import opened BuildTasks

  /**
   * What the steps of a run say of one build. `early` is a cancellation delivered before the first step of its
   * runner, `interrupted` a later one; `luck` is that of the last step its runner took. `ended` is whether the runner
   * has come to its end, `alive` whether the worker thread was started and has not ended.
   */
  datatype History = History(dryRun: bool, begun: bool, ended: bool, alive: bool, cancelWaits: bool, early: bool,
                             interrupted: bool, progress: Option<BuildProgress>, noticed: Option<Outcome>, luck: Luck)

  const FINE: Luck := Luck(None, None, false)

  function Fresh(dryRun: bool): History {
    History(dryRun, false, false, false, false, false, false, None, None, FINE)
  }

  /**
   * The runner takes a step, and a cancellation that waits is delivered. With the first step it ends or starts the
   * worker; with a later one it ends if it has heard of the worker's end.
   */
  function Resumed(h: History, luck: Luck): History {
    var fails := h.cancelWaits || luck.factoryError.Some?;
    if !h.begun then
      h.(begun := true, cancelWaits := false, early := h.cancelWaits, ended := fails, alive := !fails, luck := luck)
    else
      h.(cancelWaits := false, interrupted := h.interrupted || h.cancelWaits, ended := h.noticed.Some?, luck := luck)
  }

  /** What a callback tells of the build; a report is too late once the worker's end or a cancellation came. */
  function Heard(h: History, c: Callback): History {
    match c
    case Reported(_, p) => if h.interrupted || h.noticed.Some? then h else h.(progress := Some(p))
    case Completed(_, outcome) => h.(noticed := Some(outcome))
  }

  function Noted(h: History, s: Sys, step: Step, id: nat): History {
    match step
    case Start(other, dryRun) => if other == id && id !in s.tasks && s.active.None? then Fresh(dryRun) else h
    case Resume(other, luck) => if other == id && Enabled(s, step) then Resumed(h, luck) else h
    case Cancel(other) => if other == id && Enabled(s, step) then h.(cancelWaits := true) else h
    case EndThread(other, _) => if other == id && Enabled(s, step) then h.(alive := false) else h
    case RunReady => if s.ready != [] && s.ready[0].id == id then Heard(h, s.ready[0]) else h
    case _ => h
  }

  function HistoryOf(steps: seq<Step>, maxHistory: nat, id: nat): History {
    if steps == [] then Fresh(false)
    else
      var before := steps[..|steps| - 1];
      Noted(HistoryOf(before, maxHistory, id), Run(before, maxHistory), steps[|steps| - 1], id)
  }

  /** The state and the error of a build with this history. */
  ghost predicate EndsAs(h: History, state: BuildState, error: Option<string>) {
    if h.interrupted then state == Failed && error == Some(CANCELLED)
    else if !h.ended || h.early then state == Running && error.None?
    else
      match h.noticed
      case None => state == Failed && h.luck.factoryError.Some? && error == h.luck.factoryError
      case Some(Broke(e)) => state == Failed && error == Some(e)
      case Some(Built) =>
        if h.dryRun || h.luck.refreshError.None? then state == Succeeded && error.None?
        else state == Failed && error == h.luck.refreshError
  }

  ghost predicate Quiet(ready: seq<Callback>, id: nat) {
    forall i :: 0 <= i < |ready| ==> ready[i].id != id
  }

  /** A worker says nothing after its end, and one whose end was heard has nothing left to say. */
  ghost predicate SaysInOrder(s: Sys, id: nat, h: History) {
    && (forall i, j :: 0 <= i < j < |s.ready| && s.ready[i].Completed? && s.ready[i].id == id ==> s.ready[j].id != id)
    && (!h.begun || h.noticed.Some? ==> Quiet(s.ready, id))
  }

  ghost predicate PcTells(pc: Pc, h: History) {
    match pc
    case NotStarted => !h.begun && !h.ended && !h.early && !h.interrupted
    case AwaitingWorker => h.begun && !h.ended && !h.early && !h.interrupted
    case WaitingAfterCancel => h.begun && !h.ended && !h.early && h.interrupted
    case Ended => h.begun && h.ended && !(h.early && h.interrupted)
  }

  ghost predicate Fits(s: Sys, id: nat, h: History)
    requires id in s.tasks && id in s.runners
  {
    var (t, r) := (s.tasks[id], s.runners[id]);
    && PcTells(r.pc, h) && r == Runner(r.pc, h.cancelWaits, h.alive, h.noticed)
    && t.dryRun == h.dryRun && t.progress == h.progress && EndsAs(h, t.state, t.error)
    && (EndOf(s.events, id).Some? <==> h.ended && !h.early && !h.luck.clockFails)
    && SaysInOrder(s, id, h) && (h.ended ==> Quiet(s.ready, id))
  }

  ghost predicate Recorded(s: Sys, id: nat, h: History) {
    if id in s.tasks then id in s.runners && Fits(s, id, h)
    else h == Fresh(false) && Quiet(s.ready, id) && EndOf(s.events, id).None?
  }

  lemma {:induction false} NotMentioned(events: seq<BuildEvent>, id: nat)
    requires forall i :: 0 <= i < |events| ==> events[i].id != id
    ensures EndOf(events, id).None?
  {
    if events != [] {
      NotMentioned(events[..|events| - 1], id);
    }
  }

  /** A step that leaves the build, its runner, its events and its callbacks alone. */
  lemma {:induction false} UntouchedFits(s: Sys, s': Sys, id: nat, h: History)
    requires Recorded(s, id, h) && (id in s.tasks <==> id in s'.tasks) && s'.ready == s.ready
    requires EndOf(s'.events, id) == EndOf(s.events, id)
    requires id in s.tasks ==>
               && id in s.runners && id in s'.runners
               && s'.tasks[id] == s.tasks[id] && s'.runners[id] == s.runners[id]
    ensures Recorded(s', id, h)
  {
  }

  lemma {:induction false} StartRecorded(s: Sys, id: nat, dryRun: bool, maxHistory: nat, other: nat, h: History)
    requires TasksOk(s) && other !in s.tasks && Recorded(s, id, h)
    ensures Recorded(StartTask(s, other, dryRun, maxHistory), id, Noted(h, s, Start(other, dryRun), id))
  {
    if s.active.None? {
      OneMoreEvent(s.events, StateEvent(other, Running, None), id);
      if other != id {
        UntouchedFits(s, StartTask(s, other, dryRun, maxHistory), id, h);
      }
    }
  }

  lemma {:induction false} CancelRecorded(s: Sys, id: nat, other: nat, h: History)
    requires TasksOk(s) && Enabled(s, Cancel(other)) && Recorded(s, id, h)
    ensures Recorded(At(s, other, s.runners[other].(cancelled := true)), id, Noted(h, s, Cancel(other), id))
  {
  }

  lemma {:induction false} SaidRecorded(s: Sys, id: nat, c: Callback, h: History)
    requires TasksOk(s) && Recorded(s, id, h) && c.id in s.runners && s.runners[c.id].threadAlive
    ensures Recorded(At(s, c.id, s.runners[c.id].(threadAlive := !c.Completed?)).(ready := s.ready + [c]), id,
                     if c.id == id then h.(alive := !c.Completed?) else h)
  {
    if c.id == id {
      assert RunnerOk(s, id);
    }
  }

  lemma {:induction false} NextSays(s: Sys, s': Sys, id: nat, h: History)
    requires s.ready != [] && s'.ready == s.ready[1..] && SaysInOrder(s, id, h)
    ensures SaysInOrder(s', id, h) && (Quiet(s.ready, id) ==> Quiet(s'.ready, id))
    ensures s.ready[0].id == id && s.ready[0].Completed? ==> Quiet(s'.ready, id)
  {
    assert forall i :: 0 <= i < |s.ready| - 1 ==> s.ready[1..][i] == s.ready[i + 1];
  }

  lemma {:induction false} EndHeard(s: Sys, id: nat, outcome: Outcome, h: History)
    requires TasksOk(s) && Recorded(s, id, h) && s.ready != [] && s.ready[0] == Completed(id, outcome)
    ensures Recorded(RunCallback(s.(ready := s.ready[1..]), s.ready[0]), id, Heard(h, s.ready[0]))
  {
    NextSays(s, RunCallback(s.(ready := s.ready[1..]), s.ready[0]), id, h);
  }

  lemma {:induction false} ReportHeard(s: Sys, id: nat, progress: BuildProgress, h: History)
    requires TasksOk(s) && Recorded(s, id, h) && s.ready != [] && s.ready[0] == Reported(id, progress)
    ensures Recorded(RunCallback(s.(ready := s.ready[1..]), s.ready[0]), id, Heard(h, s.ready[0]))
  {
    NextSays(s, RunCallback(s.(ready := s.ready[1..]), s.ready[0]), id, h);
    OneMoreEvent(s.events, ProgressEvent(id, progress), id);
  }

  lemma {:induction false} OtherHeard(s: Sys, id: nat, h: History)
    requires TasksOk(s) && Recorded(s, id, h) && s.ready != [] && s.ready[0].id != id
    ensures Recorded(RunCallback(s.(ready := s.ready[1..]), s.ready[0]), id, h)
  {
    var c := s.ready[0];
    NextSays(s, RunCallback(s.(ready := s.ready[1..]), c), id, h);
    if c.Reported? {
      OneMoreEvent(s.events, ProgressEvent(c.id, c.progress), id);
    }
  }

  lemma {:induction false} HeardRecorded(s: Sys, id: nat, h: History)
    requires TasksOk(s) && Recorded(s, id, h) && s.ready != []
    ensures Recorded(RunCallback(s.(ready := s.ready[1..]), s.ready[0]), id, Noted(h, s, RunReady, id))
  {
    if s.ready[0].id != id {
      OtherHeard(s, id, h);
    } else if s.ready[0].Reported? {
      ReportHeard(s, id, s.ready[0].progress, h);
    } else {
      EndHeard(s, id, s.ready[0].outcome, h);
    }
  }

  lemma {:induction false} FinishRecorded(s: Sys, failed: Sys, id: nat, luck: Luck, h: History)
    requires Recorded(s, id, h) && id in s.tasks && id in failed.tasks && EndOf(s.events, id).None?
    requires failed == s.(tasks := s.tasks[id := failed.tasks[id]])
    requires failed.tasks[id].dryRun == s.tasks[id].dryRun && failed.tasks[id].progress == s.tasks[id].progress
    requires var h' := Resumed(h, luck);
             && !h'.early && h'.ended && EndsAs(h', failed.tasks[id].state, failed.tasks[id].error)
             && h'.alive == s.runners[id].threadAlive
             && failed.tasks[id].state != Running && Quiet(s.ready, id)
    ensures Recorded(Finish(failed, id, luck), id, Resumed(h, luck))
  {
    OneMoreEvent(s.events, StateEvent(id, failed.tasks[id].state, failed.tasks[id].error), id);
  }

  lemma {:induction false} BeginRecorded(s: Sys, id: nat, luck: Luck, h: History)
    requires TasksOk(s) && Recorded(s, id, h) && id in s.tasks && s.runners[id].pc == NotStarted
    ensures Recorded(Begin(s, id, luck), id, Resumed(h, luck))
  {
    assert RunnerOk(s, id);
    if !s.runners[id].cancelled && luck.factoryError.Some? {
      FinishRecorded(s, Fail(s, id, luck.factoryError.value), id, luck, h);
    }
  }

  lemma {:induction false} SettleRecorded(s: Sys, id: nat, luck: Luck, h: History)
    requires TasksOk(s) && Recorded(s, id, h) && id in s.tasks && s.runners[id].pc == AwaitingWorker
    ensures Recorded(Settle(s, id, luck), id, Resumed(h, luck))
  {
    var (r, t) := (s.runners[id], s.tasks[id]);
    if r.outcome.Some? {
      if r.cancelled {
        FinishRecorded(s, Fail(s, id, CANCELLED), id, luck, h);
      } else if r.outcome.value.Broke? {
        FinishRecorded(s, Fail(s, id, r.outcome.value.error), id, luck, h);
      } else if !t.dryRun && luck.refreshError.Some? {
        FinishRecorded(s, Fail(s, id, luck.refreshError.value), id, luck, h);
      } else {
        FinishRecorded(s, WithTask(s, id, t.(state := Succeeded)), id, luck, h);
      }
    }
  }

  lemma {:induction false} WaitRecorded(s: Sys, id: nat, luck: Luck, h: History)
    requires TasksOk(s) && Recorded(s, id, h) && id in s.tasks && s.runners[id].pc == WaitingAfterCancel
    ensures Recorded(Wait(s, id, luck), id, Resumed(h, luck))
  {
    if s.runners[id].outcome.Some? {
      FinishRecorded(s, s, id, luck, h);
    }
  }

  lemma {:induction false} ResumeRecorded(s: Sys, id: nat, other: nat, luck: Luck, h: History)
    requires TasksOk(s) && Recorded(s, id, h) && Enabled(s, Resume(other, luck))
    ensures Recorded(ResumeRunner(s, other, luck), id, Noted(h, s, Resume(other, luck), id))
  {
    if other == id {
      match s.runners[id].pc
      case NotStarted => BeginRecorded(s, id, luck, h);
      case AwaitingWorker => SettleRecorded(s, id, luck, h);
      case WaitingAfterCancel => WaitRecorded(s, id, luck, h);
    } else {
      var s' := ResumeRunner(s, other, luck);
      ResumeTouches(s, other, luck);
      ResumeAdvances(s, other, luck);
      if s'.events != s.events {
        OneMoreEvent(s.events, s'.events[|s.events|], id);
      }
      UntouchedFits(s, s', id, h);
    }
  }

  lemma {:induction false} StepRecorded(s: Sys, step: Step, maxHistory: nat, id: nat, h: History)
    requires TasksOk(s) && Recorded(s, id, h)
    ensures Recorded(Next(s, step, maxHistory), id, Noted(h, s, step, id))
  {
    if Enabled(s, step) {
      match step
      case Start(other, dryRun) => StartRecorded(s, id, dryRun, maxHistory, other, h);
      case Resume(other, luck) => ResumeRecorded(s, id, other, luck, h);
      case Cancel(other) => CancelRecorded(s, id, other, h);
      case Report(other, progress) =>
        SaidRecorded(s, id, Reported(other, progress), h);
        assert s.runners[other := s.runners[other].(threadAlive := true)] == s.runners;
      case EndThread(other, outcome) => SaidRecorded(s, id, Completed(other, outcome), h);
      case RunReady => HeardRecorded(s, id, h);
    }
  }

  lemma {:induction false} AlwaysRecorded(steps: seq<Step>, maxHistory: nat, id: nat)
    ensures Recorded(Run(steps, maxHistory), id, HistoryOf(steps, maxHistory, id))
  {
    if steps != [] {
      var before := steps[..|steps| - 1];
      AlwaysRecorded(before, maxHistory, id);
      TasksAlwaysOk(before, maxHistory);
      StepRecorded(Run(before, maxHistory), steps[|steps| - 1], maxHistory, id, HistoryOf(before, maxHistory, id));
    }
  }

  // ---- The worker's callbacks run in the order it scheduled them ----

  function SaidBy(s: Sys, step: Step): seq<Callback> {
    match step
    case Report(id, progress) => if id in s.runners && s.runners[id].threadAlive then [Reported(id, progress)] else []
    case EndThread(id, outcome) => if id in s.runners && s.runners[id].threadAlive then [Completed(id, outcome)] else []
    case _ => []
  }

  function RanBy(s: Sys, step: Step): seq<Callback> {
    if step.RunReady? && s.ready != [] then [s.ready[0]] else []
  }

  /** What the workers have scheduled, and what the event loop has run of it. */
  function Said(steps: seq<Step>, maxHistory: nat): seq<Callback> {
    if steps == [] then []
    else Said(steps[..|steps| - 1], maxHistory) + SaidBy(Run(steps[..|steps| - 1], maxHistory), steps[|steps| - 1])
  }

  function Ran(steps: seq<Step>, maxHistory: nat): seq<Callback> {
    if steps == [] then []
    else Ran(steps[..|steps| - 1], maxHistory) + RanBy(Run(steps[..|steps| - 1], maxHistory), steps[|steps| - 1])
  }

  lemma {:induction false} StepRuns(s: Sys, step: Step, maxHistory: nat)
    requires TasksOk(s)
    ensures s.ready + SaidBy(s, step) == RanBy(s, step) + Next(s, step, maxHistory).ready
  {
    if Enabled(s, step) {
      match step
      case Resume(id, luck) => ResumeAdvances(s, id, luck);
      case RunReady => assert s.ready == [s.ready[0]] + s.ready[1..];
      case _ =>
    }
  }

  lemma Shift(said: seq<Callback>, more: seq<Callback>, ran: seq<Callback>, first: seq<Callback>, ready: seq<Callback>,
              ready': seq<Callback>)
    requires said == ran + ready && ready + more == first + ready'
    ensures said + more == ran + first + ready'
  {
    assert said + more == ran + (ready + more);
    assert ran + (first + ready') == ran + first + ready';
  }

  lemma {:induction false} RanInOrder(steps: seq<Step>, maxHistory: nat)
    ensures Said(steps, maxHistory) == Ran(steps, maxHistory) + Run(steps, maxHistory).ready
  {
    if steps != [] {
      var before, step := steps[..|steps| - 1], steps[|steps| - 1];
      var s := Run(before, maxHistory);
      RanInOrder(before, maxHistory);
      TasksAlwaysOk(before, maxHistory);
      StepRuns(s, step, maxHistory);
      Shift(Said(before, maxHistory), SaidBy(s, step), Ran(before, maxHistory), RanBy(s, step), s.ready,
            Next(s, step, maxHistory).ready);
    }
  }

  /** The history tells a cancellation before the first step, delivered or not. */
  lemma {:induction false} StepTellsEarly(s: Sys, step: Step, id: nat, h: History)
    requires TasksOk(s) && Recorded(s, id, h)
    ensures var h' := Noted(h, s, step, id);
            (h'.early || (h'.cancelWaits && !h'.begun)) <==>
              (h.early || (h.cancelWaits && !h.begun) || CancelsEarly(s, step, id))
  {
  }

  lemma {:induction false} EarlyIsCancelled(steps: seq<Step>, maxHistory: nat, id: nat)
    ensures var h := HistoryOf(steps, maxHistory, id);
            CancelledEarly(steps, maxHistory, id) <==> h.early || (h.cancelWaits && !h.begun)
  {
    if steps != [] {
      var before := steps[..|steps| - 1];
      EarlyIsCancelled(before, maxHistory, id);
      AlwaysRecorded(before, maxHistory, id);
      TasksAlwaysOk(before, maxHistory);
      StepTellsEarly(Run(before, maxHistory), steps[|steps| - 1], id, HistoryOf(before, maxHistory, id));
    }
  }

  /**
   * How a build whose runner has ended, and was not cancelled before its first step, came out: it succeeded exactly
   * when its worker ended well, no cancellation was delivered, and it was dry or the content could be reopened; a
   * failed one carries the error of what went wrong. Its end was published unless the clock failed.
   */
  lemma {:induction false} EndedBuild(steps: seq<Step>, maxHistory: nat, id: nat)
    requires var s := Run(steps, maxHistory);
             && id in s.tasks && id in s.runners
             && HistoryOf(steps, maxHistory, id).ended && !CancelledEarly(steps, maxHistory, id)
    ensures var (t, h) := (Run(steps, maxHistory).tasks[id], HistoryOf(steps, maxHistory, id));
            && (t.state == Succeeded <==>
                  h.noticed == Some(Built) && !h.interrupted && (h.dryRun || h.luck.refreshError.None?))
            && (t.state != Succeeded ==> t.state == Failed)
            && (t.state == Failed ==>
                  t.error == if h.interrupted then Some(CANCELLED)
                             else if h.noticed.None? then h.luck.factoryError
                             else if h.noticed.value.Broke? then Some(h.noticed.value.error)
                             else h.luck.refreshError)
            && (t.state == Succeeded <==> t.error.None?)
            && EndOf(Run(steps, maxHistory).events, id)
               == if h.luck.clockFails then None else Some((t.state, t.error))
  {
    AlwaysRecorded(steps, maxHistory, id);
    TasksAlwaysOk(steps, maxHistory);
    EarlyIsCancelled(steps, maxHistory, id);
    assert TaskOk(Run(steps, maxHistory), id);
  }

  /** Until then it runs, or has failed by an interruption; a build cancelled early is never settled. */
  lemma {:induction false} UnendedBuild(steps: seq<Step>, maxHistory: nat, id: nat)
    requires var s := Run(steps, maxHistory);
             && id in s.tasks && id in s.runners
             && (!HistoryOf(steps, maxHistory, id).ended || CancelledEarly(steps, maxHistory, id))
    ensures var (t, h) := (Run(steps, maxHistory).tasks[id], HistoryOf(steps, maxHistory, id));
            && (if h.interrupted then t.state == Failed && t.error == Some(CANCELLED)
                else t.state == Running && t.error.None?)
            && EndOf(Run(steps, maxHistory).events, id).None?
  {
    AlwaysRecorded(steps, maxHistory, id);
    EarlyIsCancelled(steps, maxHistory, id);
  }

  /** The progress a build shows is the last one heard of before its end and before an interruption. */
  lemma {:induction false} ProgressIsLastHeard(steps: seq<Step>, maxHistory: nat, id: nat)
    requires id in Run(steps, maxHistory).tasks
    ensures var (t, h) := (Run(steps, maxHistory).tasks[id], HistoryOf(steps, maxHistory, id));
            t.progress == h.progress && t.dryRun == h.dryRun
  {
    AlwaysRecorded(steps, maxHistory, id);
  }

  /** Where the runner is, and whether its worker thread lives, is what the steps say. */
  lemma {:induction false} RunnerFollows(steps: seq<Step>, maxHistory: nat, id: nat)
    requires id in Run(steps, maxHistory).runners
    ensures var (r, h) := (Run(steps, maxHistory).runners[id], HistoryOf(steps, maxHistory, id));
            && r.pc == (if !h.begun then NotStarted else if h.ended then Ended
                        else if h.interrupted then WaitingAfterCancel else AwaitingWorker)
            && r.threadAlive == h.alive
  {
    AlwaysRecorded(steps, maxHistory, id);
    TasksAlwaysOk(steps, maxHistory);
  }
}
