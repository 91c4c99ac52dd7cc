/**
 * From the build manager to a browser: one subscriber's queue (src/bunsho/api/routers/ws.py) and the
 * browser's fold of what it receives (frontend/src/realtime/applyMessage.ts).
 */
module BuildFeed {
  import opened ReviewTypes
  import opened BuildTasks
  import opened TaskManager

  /** The cached latest build, of which only what the events change matters here. */
  datatype Status = Status(id: nat, state: BuildState, progress: Option<BuildProgress>, error: Option<string>)

  predicate IsFinished(status: Status) { status.state != Running }

  /** `buildJustFinished`. */
  predicate JustFinished(previous: Option<Status>, next: Status) {
    previous.Some? && IsFinished(next) && (previous.value.id != next.id || !IsFinished(previous.value))
  }

  function StatusOf(s: Sys, id: nat): Status
    requires id in s.tasks
  {
    Status(id, s.tasks[id].state, s.tasks[id].progress, s.tasks[id].error)
  }

  /** The browser: its cached build and how often it refreshed what depends on the content. */
  datatype Browser = Browser(cached: Option<Status>, refreshes: nat)

  /** `applyMessage` for a snapshot: it replaces the cached build. */
  function ApplySnapshot(b: Browser, snapshot: Status): Browser {
    Browser(Some(snapshot), b.refreshes + if JustFinished(b.cached, snapshot) then 1 else 0)
  }

  function EventState(e: BuildEvent): BuildState { if e.StateEvent? then e.state else Running }

  function EventProgress(e: BuildEvent): Option<BuildProgress> { if e.ProgressEvent? then Some(e.progress) else None }

  function EventError(e: BuildEvent): Option<string> { if e.StateEvent? then e.error else None }

  function OrElse<T>(a: Option<T>, b: Option<T>): Option<T> { if a.Some? then a else b }

  /** `applyMessage` for an event; the answers of the refetches it asks for are left out. */
  function ApplyEvent(b: Browser, e: BuildEvent): Browser {
    var same := b.cached.Some? && b.cached.value.id == e.id;
    var cached :=
      if !same then b.cached
      else Some(Status(e.id, EventState(e), OrElse(EventProgress(e), b.cached.value.progress),
          OrElse(EventError(e), b.cached.value.error)));
    var alreadyFinished := same && IsFinished(b.cached.value);
    Browser(cached, b.refreshes + if EventState(e) != Running && !alreadyFinished then 1 else 0)
  }

  /** The server, the browser, and the queue of its socket while it has one. */
  datatype Link = Link(server: Sys, online: bool, queue: seq<BuildEvent>, browser: Browser)

  datatype LinkStep = Serve(step: Step) | Deliver | Disconnect | Rejoin

  /** A new build starts with this step. */
  predicate StartsBuild(s: Sys, step: Step) { step.Start? && Enabled(s, step) && s.active.None? }

  /** That is a step that adds a task. */
  lemma StartingAddsTask(s: Sys, step: Step, maxHistory: nat)
    requires RunnersOk(s)
    ensures StartsBuild(s, step) <==> Next(s, step, maxHistory).tasks.Keys != s.tasks.Keys
  {
    if Enabled(s, step) {
      match step
      case Start(id, dryRun) => assert s.active.None? ==> id in StartTask(s, id, dryRun, maxHistory).tasks.Keys;
      case Resume(id, luck) => ResumeAdvances(s, id, luck);
      case _ =>
    }
  }

  /** What the server published between two states of it goes into the queue. */
  function Queued(queue: seq<BuildEvent>, capacity: int, s: Sys, s': Sys): seq<BuildEvent> {
    if |s'.events| > |s.events| then Push(queue, capacity, s'.events[|s.events|]) else queue
  }

  /** A browser that joins: `ready`, the snapshot of the latest build, and an empty queue from then on. */
  function Joined(s: Sys, id: nat, b: Browser): Link
    requires id in s.tasks
  {
    Link(s, true, [], ApplySnapshot(b, StatusOf(s, id)))
  }

  /** The server takes a step, the next event is sent and folded, or the socket is lost or replaced by a new one. */
  function LinkNext(l: Link, step: LinkStep, capacity: int, maxHistory: nat): Link {
    match step
    case Serve(step) =>
      var server := Next(l.server, step, maxHistory);
      Link(server, l.online, if l.online then Queued(l.queue, capacity, l.server, server) else l.queue, l.browser)
    case Deliver =>
      if !l.online || l.queue == [] then l else Link(l.server, true, l.queue[1..], ApplyEvent(l.browser, l.queue[0]))
    case Disconnect => Link(l.server, false, [], l.browser)
    case Rejoin =>
      if l.online || l.server.history == [] || l.server.history[|l.server.history| - 1] !in l.server.tasks then l
      else Joined(l.server, l.server.history[|l.server.history| - 1], l.browser)
  }

  function LinkAfter(l: Link, steps: seq<LinkStep>, capacity: int, maxHistory: nat): Link {
    if steps == [] then l
    else LinkNext(LinkAfter(l, steps[..|steps| - 1], capacity, maxHistory), steps[|steps| - 1], capacity, maxHistory)
  }

  /** With `always`, no build starts; otherwise none starts while the browser is online. */
  ghost predicate NoNewerBuild(l: Link, steps: seq<LinkStep>, capacity: int, maxHistory: nat, always: bool) {
    forall i :: 0 <= i < |steps| && steps[i].Serve? ==>
      var before := LinkAfter(l, steps[..i], capacity, maxHistory);
      always || before.online ==> !StartsBuild(before.server, steps[i].step)
  }

  ghost predicate HasLatest(s: Sys) {
    s.history != [] && IsLatest(s, s.history[|s.history| - 1])
  }

  ghost predicate IsLatest(s: Sys, id: nat) {
    id in s.tasks && id in s.runners && s.history != [] && s.history[|s.history| - 1] == id
  }

  /** What one step that starts no build does to the latest task and its events. */
  ghost predicate Moved(s: Sys, s': Sys, id: nat)
    requires id in s.tasks && id in s'.tasks
  {
    var (t, t') := (s.tasks[id], s'.tasks[id]);
    && (t.state != Running ==> t' == t) && (t' != t ==> s.active == Some(id))
    && ( || (s'.events == s.events && t'.progress == t.progress && (t' == t || t'.state != Running))
         || (s.active == Some(id) && s'.active.None? && t'.progress == t.progress && t'.state != Running
             && s'.events == s.events + [StateEvent(id, t'.state, t'.error)])
         || (s.active == Some(id) && t.state == Running && t'.progress.Some? && t' == t.(progress := t'.progress)
             && s'.events == s.events + [ProgressEvent(id, t'.progress.value)]))
  }

  lemma {:induction false} StepMoves(s: Sys, step: Step, maxHistory: nat, id: nat)
    requires TasksOk(s) && IsLatest(s, id) && !StartsBuild(s, step)
    ensures TasksOk(Next(s, step, maxHistory)) && IsLatest(Next(s, step, maxHistory), id)
    ensures Moved(s, Next(s, step, maxHistory), id)
  {
    var s' := Next(s, step, maxHistory);
    StepKeepsTasks(s, step, maxHistory);
    assert TaskOk(s, id);
    if Enabled(s, step) {
      if step.Resume? {
        ResumeTouches(s, step.id, step.luck);
      } else if step.RunReady? && s.ready[0].Reported? && s.ready[0].id in s.tasks {
        assert TaskOk(s, s.ready[0].id);
      }
    }
  }

  // ---- What holds of a live link ----

  /** Events still queued: progress of this build, and perhaps its end as the last one. */
  ghost predicate QueueOk(queue: seq<BuildEvent>, id: nat) {
    && (forall i :: 0 <= i < |queue| ==> queue[i].id == id && !Opening(queue[i]))
    && (forall i :: 0 <= i < |queue| - 1 ==> queue[i].ProgressEvent?)
  }

  /** The browser and the queue together tell how the build stands. */
  ghost predicate Told(t: BuildTask, published: bool, queue: seq<BuildEvent>, v: Status) {
    && t.progress == OrElse(LastProgress(queue, v.id), v.progress)
    && (IsFinished(v) ==>
          v.state == t.state && v.error == t.error && forall i :: 0 <= i < |queue| ==> Terminal(queue[i]))
    && (!IsFinished(v) ==> v.error.None?)
    && (EndOf(queue, v.id).Some? ==> published && EndOf(queue, v.id) == Some((t.state, t.error)) && t.state != Running)
    && (EndOf(queue, v.id).None? && published ==> IsFinished(v))
  }

  /** Online, the browser and its queue tell the latest build; offline, a build shown as finished is one that has. */
  ghost predicate LinkOk(l: Link) {
    && TasksOk(l.server) && HasLatest(l.server) && l.browser.cached.Some?
    && var v := l.browser.cached.value;
       && v.id in l.server.tasks
       && if l.online then
            && IsLatest(l.server, v.id) && QueueOk(l.queue, v.id)
            && Told(l.server.tasks[v.id], EndOf(l.server.events, v.id).Some?, l.queue, v)
          else
            l.queue == [] && (IsFinished(v) ==> v.state == l.server.tasks[v.id].state)
  }

  /** The first event of a queue matters only if no later one does. */
  lemma {:induction false} HeadFirst(queue: seq<BuildEvent>, id: nat)
    requires queue != [] && queue[0].id == id
    ensures LastProgress(queue, id) == OrElse(LastProgress(queue[1..], id), EventProgress(queue[0]))
    ensures var first := if Terminal(queue[0]) then Some((queue[0].state, queue[0].error)) else None;
            EndOf(queue, id) == OrElse(EndOf(queue[1..], id), first)
  {
    var n := |queue| - 1;
    if n == 0 {
      assert queue[1..] == [] && queue[..n] == [];
    } else {
      assert queue[..n][1..] == queue[1..][..n - 1] && queue[1..][n - 1] == queue[n];
      HeadFirst(queue[..n], id);
    }
  }

  lemma {:induction false} OnlyProgress(queue: seq<BuildEvent>, id: nat)
    requires QueueOk(queue, id) && EndOf(queue, id).None?
    ensures forall i :: 0 <= i < |queue| ==> queue[i].ProgressEvent?
    ensures queue != [] ==> LastProgress(queue, id) == Some(queue[|queue| - 1].progress)
  {
    if queue != [] {
      assert !Opening(queue[|queue| - 1]);
    }
  }

  lemma {:induction false} NoEnd(queue: seq<BuildEvent>, id: nat)
    requires forall i :: 0 <= i < |queue| ==> !Terminal(queue[i])
    ensures EndOf(queue, id).None?
  {
    if queue != [] {
      NoEnd(queue[..|queue| - 1], id);
    }
  }

  /** With room for two events, dropping the oldest never loses the newest progress or the end. */
  lemma {:induction false} PushTells(queue: seq<BuildEvent>, capacity: int, e: BuildEvent, id: nat)
    requires QueueOk(queue, id) && EndOf(queue, id).None? && e.id == id && !Opening(e) &&
             (capacity <= 0 || capacity >= 2)
    ensures var queue' := Push(queue, capacity, e);
            && QueueOk(queue', id)
            && LastProgress(queue', id) == OrElse(EventProgress(e), LastProgress(queue, id))
            && EndOf(queue', id) == (if Terminal(e) then Some((e.state, e.error)) else None)
            && (queue == [] ==> queue' == [e])
  {
    OnlyProgress(queue, id);
    var kept := if capacity > 0 && |queue| >= capacity then queue[1..] else queue;
    assert kept != queue ==> kept[|kept| - 1] == queue[|queue| - 1];
    NoEnd(kept, id);
    OnlyProgress(kept, id);
    OneMoreEvent(kept, e, id);
  }

  // ---- Every step keeps the link in line ----

  lemma {:induction false} ServedProgress(t: BuildTask, t': BuildTask, queue: seq<BuildEvent>,
                                          queue': seq<BuildEvent>, p: BuildProgress, v: Status)
    requires Told(t, false, queue, v) && QueueOk(queue, v.id) && t.state == Running && t' == t.(progress := Some(p))
    requires LastProgress(queue', v.id) == Some(p) && EndOf(queue', v.id).None?
    ensures Told(t', false, queue', v)
  {
  }

  lemma {:induction false} ServedEnd(t: BuildTask, t': BuildTask, queue: seq<BuildEvent>, queue': seq<BuildEvent>,
                                     v: Status)
    requires Told(t, false, queue, v) && QueueOk(queue, v.id) && t'.progress == t.progress && t'.state != Running
    requires t.state != Running ==> t' == t
    requires LastProgress(queue', v.id) == LastProgress(queue, v.id) &&
             EndOf(queue', v.id) == Some((t'.state, t'.error))
    requires EndOf(queue, v.id).None? && (queue == [] ==> forall i :: 0 <= i < |queue'| ==> Terminal(queue'[i]))
    ensures Told(t', true, queue', v)
  {
    OnlyProgress(queue, v.id);
    if IsFinished(v) {
      assert queue == [];
    }
  }

  lemma {:induction false} ServedQuietly(t: BuildTask, t': BuildTask, published: bool, queue: seq<BuildEvent>,
                                         v: Status)
    requires Told(t, published, queue, v) && t'.progress == t.progress
    requires t' == t || (t.state == Running && t'.state != Running && !published)
    ensures Told(t', published, queue, v)
  {
  }

  /** One more published event keeps browser and queue telling the build. */
  lemma {:induction false} PublishTells(t: BuildTask, t': BuildTask, queue: seq<BuildEvent>, capacity: int,
                                        e: BuildEvent, v: Status)
    requires QueueOk(queue, v.id) && Told(t, false, queue, v) && (capacity <= 0 || capacity >= 2)
    requires t.state != Running ==> t' == t
    requires || (t.state == Running && t'.progress.Some? && t' == t.(progress := t'.progress)
                 && e == ProgressEvent(v.id, t'.progress.value))
             || (t'.progress == t.progress && t'.state != Running && e == StateEvent(v.id, t'.state, t'.error))
    ensures QueueOk(Push(queue, capacity, e), v.id) && Told(t', Terminal(e), Push(queue, capacity, e), v)
  {
    PushTells(queue, capacity, e, v.id);
    if e.ProgressEvent? {
      ServedProgress(t, t', queue, Push(queue, capacity, e), e.progress, v);
    } else {
      ServedEnd(t, t', queue, Push(queue, capacity, e), v);
    }
  }

  lemma {:induction false} PublishKeeps(l: Link, s': Sys, capacity: int)
    requires LinkOk(l) && l.online && (capacity <= 0 || capacity >= 2)
    requires var id := l.browser.cached.value.id;
             TasksOk(s') && IsLatest(s', id) && Moved(l.server, s', id) && s'.events != l.server.events
    ensures LinkOk(Link(s', true, Queued(l.queue, capacity, l.server, s'), l.browser))
  {
    var s, e, id := l.server, s'.events[|l.server.events|], l.browser.cached.value.id;
    assert TaskOk(s, id);
    OneMoreEvent(s.events, e, id);
    PublishTells(s.tasks[id], s'.tasks[id], l.queue, capacity, e, l.browser.cached.value);
  }

  lemma {:induction false} ServeKeeps(l: Link, step: Step, capacity: int, maxHistory: nat)
    requires LinkOk(l) && l.online && !StartsBuild(l.server, step) && (capacity <= 0 || capacity >= 2)
    ensures LinkOk(LinkNext(l, Serve(step), capacity, maxHistory))
  {
    var s, s', id := l.server, Next(l.server, step, maxHistory), l.browser.cached.value.id;
    StepMoves(s, step, maxHistory, id);
    if s'.events != s.events {
      PublishKeeps(l, s', capacity);
    } else {
      assert TaskOk(s, id);
      ServedQuietly(s.tasks[id], s'.tasks[id], EndOf(s.events, id).Some?, l.queue, l.browser.cached.value);
    }
  }

  /** A build that has ended stays as it is. */
  lemma {:induction false} FinishedStays(s: Sys, step: Step, maxHistory: nat, id: nat)
    requires TasksOk(s) && id in s.tasks
    ensures id in Next(s, step, maxHistory).tasks
    ensures s.tasks[id].state != Running ==> Next(s, step, maxHistory).tasks[id] == s.tasks[id]
  {
    if Enabled(s, step) && step.Resume? {
      ResumeTouches(s, step.id, step.luck);
    }
  }

  lemma {:induction false} StillLatest(s: Sys, step: Step, maxHistory: nat)
    requires TasksOk(s) && HasLatest(s)
    ensures HasLatest(Next(s, step, maxHistory)) && TasksOk(Next(s, step, maxHistory))
  {
    var id := s.history[|s.history| - 1];
    if StartsBuild(s, step) {
      StepKeepsTasks(s, step, maxHistory);
      NewestLast(s.history, step.id, maxHistory);
    } else {
      StepMoves(s, step, maxHistory, id);
    }
  }

  lemma {:induction false} ServeOffline(l: Link, step: Step, capacity: int, maxHistory: nat)
    requires LinkOk(l) && !l.online
    ensures LinkOk(LinkNext(l, Serve(step), capacity, maxHistory))
  {
    StillLatest(l.server, step, maxHistory);
    FinishedStays(l.server, step, maxHistory, l.browser.cached.value.id);
  }

  lemma {:induction false} DeliverKeeps(t: BuildTask, published: bool, queue: seq<BuildEvent>, b: Browser)
    requires queue != [] && b.cached.Some? && QueueOk(queue, b.cached.value.id) &&
             Told(t, published, queue, b.cached.value)
    ensures var (b', v) := (ApplyEvent(b, queue[0]), b.cached.value);
            && QueueOk(queue[1..], v.id)
            && b'.cached.Some? && b'.cached.value.id == v.id && Told(t, published, queue[1..], b'.cached.value)
            && b'.refreshes == b.refreshes + if IsFinished(b'.cached.value) && !IsFinished(v) then 1 else 0
  {
    var v, e := b.cached.value, queue[0];
    HeadFirst(queue, v.id);
    assert forall i :: 0 <= i < |queue| - 1 ==> queue[1..][i] == queue[i + 1];
    if e.StateEvent? {
      assert |queue| == 1 && queue[1..] == [];
    }
  }

  // ---- One refresh for each completion ----

  /** What the browser shows goes from `u` to `v`, and by that a build is newly shown as ended. */
  predicate Completes(u: Status, v: Status) {
    v.state != Running && (u.id != v.id || u.state == Running)
  }

  /** A join refreshes what depends on the content exactly when it completes a build the browser did not know ended. */
  lemma JoinRefreshes(b: Browser, snapshot: Status)
    ensures var b' := ApplySnapshot(b, snapshot);
            && b'.cached == Some(snapshot)
            && b'.refreshes == b.refreshes + if b.cached.Some? && Completes(b.cached.value, snapshot) then 1 else 0
  {
  }

  /** An event of a build the browser does not show leaves what it shows, and refreshes exactly at that build's end. */
  lemma UnseenEvent(b: Browser, e: BuildEvent)
    requires b.cached.None? || b.cached.value.id != e.id
    ensures ApplyEvent(b, e).cached == b.cached
    ensures ApplyEvent(b, e).refreshes == b.refreshes + if e.StateEvent? && e.state != Running then 1 else 0
  {
  }

  /** How often the run newly showed a build as ended. */
  function Completions(l: Link, steps: seq<LinkStep>, capacity: int, maxHistory: nat): nat {
    if steps == [] then 0
    else
      var earlier := steps[..|steps| - 1];
      var (u, v) := (LinkAfter(l, earlier, capacity, maxHistory).browser.cached,
                     LinkAfter(l, steps, capacity, maxHistory).browser.cached);
      Completions(l, earlier, capacity, maxHistory)
      + if u.Some? && v.Some? && Completes(u.value, v.value) then 1 else 0
  }

  lemma {:induction false} JoinedOk(s: Sys, id: nat, b: Browser)
    requires TasksOk(s) && IsLatest(s, id)
    ensures LinkOk(Joined(s, id, b))
  {
    assert TaskOk(s, id);
  }

  /** Every step keeps the link in line, and refreshes once for each build it newly shows as ended. */
  lemma {:induction false} LinkStepOk(l: Link, step: LinkStep, capacity: int, maxHistory: nat)
    requires LinkOk(l) && (capacity <= 0 || capacity >= 2)
    requires step.Serve? && l.online ==> !StartsBuild(l.server, step.step)
    ensures var l' := LinkNext(l, step, capacity, maxHistory);
            && LinkOk(l')
            && l'.browser.refreshes == l.browser.refreshes
               + if Completes(l.browser.cached.value, l'.browser.cached.value) then 1 else 0
  {
    var v := l.browser.cached.value;
    match step
    case Serve(step) =>
      if l.online {
        ServeKeeps(l, step, capacity, maxHistory);
      } else {
        ServeOffline(l, step, capacity, maxHistory);
      }
    case Deliver =>
      if l.online && l.queue != [] {
        DeliverKeeps(l.server.tasks[v.id], EndOf(l.server.events, v.id).Some?, l.queue, l.browser);
      }
    case Disconnect =>
    case Rejoin =>
      var id := l.server.history[|l.server.history| - 1];
      JoinedOk(l.server, id, l.browser);
      JoinRefreshes(l.browser, StatusOf(l.server, id));
  }

  /**
   * Losing the socket changes nothing that is shown; a new one shows the latest build, with nothing left to deliver.
   */
  lemma {:induction false} LosingAndRejoining(l: Link, capacity: int, maxHistory: nat)
    requires LinkOk(l)
    ensures var l' := LinkNext(l, Disconnect, capacity, maxHistory); !l'.online && l'.browser == l.browser
    ensures var l' := LinkNext(l, Rejoin, capacity, maxHistory);
            && l'.online && l'.server == l.server && (l.online ==> l' == l)
            && (!l.online ==>
                  && l'.queue == [] && l'.browser.cached.Some? && l'.browser.cached.value.id in l.server.tasks
                  && IsLatest(l.server, l'.browser.cached.value.id)
                  && l'.browser.cached.value == StatusOf(l.server, l'.browser.cached.value.id))
  {
  }

  lemma {:induction false} OneMoreLinkStep(l: Link, steps: seq<LinkStep>, step: LinkStep, capacity: int,
                                           maxHistory: nat)
    ensures LinkAfter(l, steps + [step], capacity, maxHistory)
         == LinkNext(LinkAfter(l, steps, capacity, maxHistory), step, capacity, maxHistory)
  {
    assert (steps + [step])[..|steps|] == steps;
  }

  lemma {:induction false} EarlierNoNewer(l: Link, steps: seq<LinkStep>, capacity: int, maxHistory: nat, always: bool)
    requires steps != [] && NoNewerBuild(l, steps, capacity, maxHistory, always)
    ensures NoNewerBuild(l, steps[..|steps| - 1], capacity, maxHistory, always)
  {
    var n := |steps| - 1;
    forall i | 0 <= i < n && steps[..n][i].Serve?
      ensures var before := LinkAfter(l, steps[..n][..i], capacity, maxHistory);
              always || before.online ==> !StartsBuild(before.server, steps[..n][i].step)
    {
      assert steps[..n][..i] == steps[..i] && steps[..n][i] == steps[i];
    }
  }

  lemma {:induction false} LinkStaysOk(l: Link, steps: seq<LinkStep>, capacity: int, maxHistory: nat)
    requires LinkOk(l) && NoNewerBuild(l, steps, capacity, maxHistory, false) && (capacity <= 0 || capacity >= 2)
    ensures var l' := LinkAfter(l, steps, capacity, maxHistory);
            LinkOk(l') && l'.browser.refreshes == l.browser.refreshes + Completions(l, steps, capacity, maxHistory)
  {
    if steps != [] {
      EarlierNoNewer(l, steps, capacity, maxHistory, false);
      LinkStaysOk(l, steps[..|steps| - 1], capacity, maxHistory);
      LinkStepOk(LinkAfter(l, steps[..|steps| - 1], capacity, maxHistory), steps[|steps| - 1], capacity, maxHistory);
    }
  }

  /**
   * What a browser shows while it is online: the latest build; with the queue drained its progress, and its state and
   * error too unless it is ending and that was not published.
   */
  ghost predicate CaughtUp(l: Link) {
    l.online ==>
      && l.browser.cached.Some? && IsLatest(l.server, l.browser.cached.value.id)
      && var (t, v) := (l.server.tasks[l.browser.cached.value.id], l.browser.cached.value);
         && (l.queue == [] ==> v.progress == t.progress)
         && (l.queue == [] && (t.state == Running || EndOf(l.server.events, v.id).Some?) ==>
              v == StatusOf(l.server, v.id))
  }

  /**
   * Whatever the server did before, however its steps, the deliveries, lost sockets and new ones interleave
   * afterwards, and whatever builds start while the browser is offline: with a queue for two events or more the
   * browser catches up, and has refreshed what depends on the content once for each build it newly showed as ended.
   */
  lemma {:induction false} BrowserCatchesUp(before: seq<Step>, b: Browser, steps: seq<LinkStep>, capacity: int,
                                            maxHistory: nat, id: nat)
    requires IsLatest(Run(before, maxHistory), id) && (capacity <= 0 || capacity >= 2)
    requires NoNewerBuild(Joined(Run(before, maxHistory), id, b), steps, capacity, maxHistory, false)
    ensures var s := Run(before, maxHistory);
            var l := LinkAfter(Joined(s, id, b), steps, capacity, maxHistory);
            && CaughtUp(l)
            && l.browser.refreshes == b.refreshes + Completions(Joined(s, id, b), steps, capacity, maxHistory)
               + if b.cached.Some? && Completes(b.cached.value, StatusOf(s, id)) then 1 else 0
  {
    var s := Run(before, maxHistory);
    TasksAlwaysOk(before, maxHistory);
    JoinedOk(s, id, b);
    JoinRefreshes(b, StatusOf(s, id));
    LinkStaysOk(Joined(s, id, b), steps, capacity, maxHistory);
    var l := LinkAfter(Joined(s, id, b), steps, capacity, maxHistory);
    assert TaskOk(l.server, l.browser.cached.value.id);
  }

  /** While no build starts, the one shown stays the same, and once shown as ended it stays ended. */
  lemma {:induction false} SameBuild(l: Link, step: LinkStep, capacity: int, maxHistory: nat)
    requires LinkOk(l) && (capacity <= 0 || capacity >= 2) && IsLatest(l.server, l.browser.cached.value.id)
    requires step.Serve? ==> !StartsBuild(l.server, step.step)
    ensures var (l', id) := (LinkNext(l, step, capacity, maxHistory), l.browser.cached.value.id);
            && l'.browser.cached.Some? && l'.browser.cached.value.id == id && IsLatest(l'.server, id)
            && (l.browser.cached.value.state != Running ==> l'.browser.cached.value.state != Running)
  {
    var v := l.browser.cached.value;
    match step
    case Serve(step) => StepMoves(l.server, step, maxHistory, v.id);
    case Deliver =>
      if l.online && l.queue != [] {
        DeliverKeeps(l.server.tasks[v.id], EndOf(l.server.events, v.id).Some?, l.queue, l.browser);
      }
    case Disconnect =>
    case Rejoin =>
  }

  /** While no build starts there is one refresh when the one shown is shown as ended, and none after that. */
  lemma {:induction false} StaysOnce(l: Link, steps: seq<LinkStep>, capacity: int, maxHistory: nat)
    requires LinkOk(l) && (capacity <= 0 || capacity >= 2) && IsLatest(l.server, l.browser.cached.value.id)
    requires NoNewerBuild(l, steps, capacity, maxHistory, true)
    ensures var (l', v) := (LinkAfter(l, steps, capacity, maxHistory), l.browser.cached.value);
            && LinkOk(l') && l'.browser.cached.value.id == v.id && IsLatest(l'.server, v.id)
            && (v.state != Running ==> l'.browser.cached.value.state != Running)
            && l'.browser.refreshes == l.browser.refreshes
               + if v.state == Running && l'.browser.cached.value.state != Running then 1 else 0
  {
    if steps != [] {
      var n := |steps| - 1;
      EarlierNoNewer(l, steps, capacity, maxHistory, true);
      StaysOnce(l, steps[..n], capacity, maxHistory);
      LinkStepOk(LinkAfter(l, steps[..n], capacity, maxHistory), steps[n], capacity, maxHistory);
      SameBuild(LinkAfter(l, steps[..n], capacity, maxHistory), steps[n], capacity, maxHistory);
    }
  }

  /**
   * In any run: a build shown as running at one moment and as ended at a later one was refreshed exactly once in
   * between, and one shown as ended is not refreshed again, however often the socket was lost and replaced.
   */
  lemma {:induction false} OncePerCompletion(before: seq<Step>, b: Browser, id: nat, first: seq<LinkStep>,
                                             later: seq<LinkStep>, capacity: int, maxHistory: nat)
    requires IsLatest(Run(before, maxHistory), id) && (capacity <= 0 || capacity >= 2)
    requires NoNewerBuild(Joined(Run(before, maxHistory), id, b), first, capacity, maxHistory, false)
    requires var l := LinkAfter(Joined(Run(before, maxHistory), id, b), first, capacity, maxHistory);
             && l.browser.cached.Some? && IsLatest(l.server, l.browser.cached.value.id)
             && NoNewerBuild(l, later, capacity, maxHistory, true)
    ensures var l := LinkAfter(Joined(Run(before, maxHistory), id, b), first, capacity, maxHistory);
            var l' := LinkAfter(l, later, capacity, maxHistory);
            && l'.browser.cached.Some? && l'.browser.cached.value.id == l.browser.cached.value.id
            && (l.browser.cached.value.state != Running ==>
                  l'.browser.cached.value.state != Running && l'.browser.refreshes == l.browser.refreshes)
            && (l.browser.cached.value.state == Running ==>
                  l'.browser.refreshes == l.browser.refreshes
                    + if l'.browser.cached.value.state != Running then 1 else 0)
  {
    var joined := Joined(Run(before, maxHistory), id, b);
    TasksAlwaysOk(before, maxHistory);
    JoinedOk(Run(before, maxHistory), id, b);
    LinkStaysOk(joined, first, capacity, maxHistory);
    StaysOnce(LinkAfter(joined, first, capacity, maxHistory), later, capacity, maxHistory);
  }

  // ---- Why one place in the queue is not enough ----

  /** A build about to report progress and then to end well. */
  ghost predicate AboutToEnd(s: Sys, id: nat, p: BuildProgress) {
    && id in s.tasks && id in s.runners && s.ready == [Reported(id, p), Completed(id, Built)]
    && s.runners[id] == Runner(AwaitingWorker, false, false, None)
    && s.tasks[id].state == Running && s.tasks[id].dryRun && s.tasks[id].progress != Some(p)
  }

  /** A run in which a dry build is about to report progress and to end. */
  lemma {:induction false} AboutToEndHappens(p: BuildProgress, maxHistory: nat)
    ensures var steps := [Start(0, true), Resume(0, Luck(None, None, false)), Report(0, p), EndThread(0, Built)];
            AboutToEnd(Run(steps, maxHistory), 0, p)
  {
    var steps := [Start(0, true), Resume(0, Luck(None, None, false)), Report(0, p), EndThread(0, Built)];
    assert steps[..3][..2] == steps[..2] && steps[..2][..1] == steps[..1] && steps[..1][..0] == [];
    assert Run(steps[..1], maxHistory) == Next(IDLE, steps[0], maxHistory);
    var s2 := Run(steps[..2], maxHistory);
    assert s2 == Next(Run(steps[..1], maxHistory), steps[1], maxHistory);
    assert s2.runners[0] == Runner(AwaitingWorker, false, true, None) &&
        s2.tasks[0] == BuildTask(true, Running, None, None);
    var s3 := Run(steps[..3], maxHistory);
    assert s3 == Next(s2, steps[2], maxHistory);
  }

  /** With room for one event the end pushes the last progress out, and the browser never shows it. */
  lemma OnePlaceLosesProgress(s: Sys, id: nat, p: BuildProgress, b: Browser, maxHistory: nat)
    requires AboutToEnd(s, id, p)
    ensures var fine := Luck(None, None, false);
            var l := LinkNext(LinkNext(LinkNext(LinkNext(Joined(s, id, b), Serve(RunReady), 1, maxHistory),
                       Serve(RunReady), 1, maxHistory), Serve(Resume(id, fine)), 1, maxHistory), Deliver, 1,
                           maxHistory);
            && l.queue == [] && id in l.server.tasks && l.server.tasks[id].state == Succeeded
            && l.browser.cached.Some? && l.browser.cached.value.state == Succeeded
            && l.browser.cached.value.progress != l.server.tasks[id].progress
  {
    var fine := Luck(None, None, false);
    var l0 := Joined(s, id, b);
    var l1 := LinkNext(l0, Serve(RunReady), 1, maxHistory);
    assert l1.queue == [ProgressEvent(id, p)] && l1.server.ready == [Completed(id, Built)];
    var l2 := LinkNext(l1, Serve(RunReady), 1, maxHistory);
    assert l2.queue == l1.queue && l2.server.runners[id] == Runner(AwaitingWorker, false, false, Some(Built));
    var l3 := LinkNext(l2, Serve(Resume(id, fine)), 1, maxHistory);
    assert l3.queue == [StateEvent(id, Succeeded, l3.server.tasks[id].error)];
  }
}
