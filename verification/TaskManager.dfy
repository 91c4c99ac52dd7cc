/**
 * The manager's fields, changed in place as src/bunsho/orchestration/build_tasks.py changes them:
 * every method is one piece of event-loop work, proved to do what module BuildTasks says of it.
 */
module TaskManager {
  import opened ReviewTypes
  import opened BuildTasks

  /** `put_nowait` after dropping the oldest event of a full queue; a size of 0 or less means no bound. */
  function Push(items: seq<BuildEvent>, maxsize: int, e: BuildEvent): seq<BuildEvent> {
    if maxsize > 0 && |items| >= maxsize then items[1..] + [e] else items + [e]
  }

  function PushAll(items: seq<BuildEvent>, maxsize: int, es: seq<BuildEvent>): seq<BuildEvent> {
    if es == [] then items else Push(PushAll(items, maxsize, es[..|es| - 1]), maxsize, es[|es| - 1])
  }

  lemma {:induction false} PushOne(items: seq<BuildEvent>, maxsize: int, e: BuildEvent)
    ensures PushAll(items, maxsize, [e]) == Push(items, maxsize, e)
  {
    assert [e][..0] == [];
  }

  /** `published` are the last of the events. */
  ghost predicate Newest(events: seq<BuildEvent>, published: seq<BuildEvent>) {
    |published| <= |events| && published == events[|events| - |published|..]
  }

  lemma NewestGrows(events: seq<BuildEvent>, published: seq<BuildEvent>, e: BuildEvent)
    requires Newest(events, published)
    ensures Newest(events + [e], published + [e])
  {
  }

  /** A subscriber's queue: always the newest of the events published since it subscribed. */
  class EventQueue {
    const maxsize: int
    var items: seq<BuildEvent>
    ghost var published: seq<BuildEvent>

    ghost predicate Valid() reads this {
      && |items| <= |published| && items == published[|published| - |items|..]
      && (maxsize > 0 ==> |items| <= maxsize)
    }

    constructor (maxsize: int)
      ensures Valid() && this.maxsize == maxsize && items == [] && published == []
    {
      this.maxsize := maxsize;
      items, published := [], [];
    }

    predicate Full() reads this { maxsize > 0 && |items| >= maxsize }

    method GetNowait() returns (e: BuildEvent)
      requires Valid() && items != []
      modifies this
      ensures Valid() && e == old(items)[0] && items == old(items)[1..] && published == old(published)
    {
      e := items[0];
      items := items[1..];
    }

    method PutNowait(e: BuildEvent)
      requires Valid() && !Full()
      modifies this
      ensures Valid() && items == old(items) + [e] && published == old(published) + [e]
    {
      items := items + [e];
      published := published + [e];
    }

    /** What `_publish` does to one queue. */
    method Offer(e: BuildEvent)
      requires Valid()
      modifies this
      ensures Valid() && items == Push(old(items), maxsize, e) && published == old(published) + [e]
      ensures items == PushAll(old(items), maxsize, [e])
    {
      PushOne(items, maxsize, e);
      if Full() {
        var _ := GetNowait();
      }
      PutNowait(e);
    }
  }

  /** What the events `es` made of a queue that had these items and had been offered these events. */
  ghost predicate Received(q: EventQueue, items: seq<BuildEvent>, published: seq<BuildEvent>, es: seq<BuildEvent>)
    reads q
  {
    q.published == published + es && q.items == PushAll(items, q.maxsize, es)
  }

  class BuildTaskManager {
    const maxHistory: nat
    const queueSize: int
    var tasks: map<nat, BuildTask>
    var history: seq<nat>
    var active: Option<nat>
    var runners: map<nat, Runner>
    var ready: seq<Callback>
    var subscribers: set<EventQueue>
    ghost var events: seq<BuildEvent>

    ghost function View(): Sys reads this { Sys(tasks, history, active, runners, ready, events) }

    /** Every queue was offered the manager's own newest events: all that were published since it subscribed. */
    ghost predicate QueuesValid() reads this, subscribers {
      forall q :: q in subscribers ==> q.Valid() && Newest(events, q.published)
    }

    constructor (maxHistory: nat, queueSize: int)
      ensures View() == IDLE && subscribers == {} && this.maxHistory == maxHistory && this.queueSize == queueSize
    {
      this.maxHistory, this.queueSize := maxHistory, queueSize;
      tasks, history, active, runners, ready, subscribers, events := map[], [], None, map[], [], {}, [];
    }

    /** `latest`: the newest remembered task. */
    method Latest() returns (id: Option<nat>)
      ensures id == if history == [] then None else Some(history[|history| - 1])
    {
      id := if history == [] then None else Some(history[|history| - 1]);
    }

    method Subscribe() returns (queue: EventQueue)
      requires QueuesValid()
      modifies this`subscribers
      ensures fresh(queue) && queue.items == [] && queue.published == [] && queue.maxsize == queueSize
      ensures subscribers == old(subscribers) + {queue} && QueuesValid()
    {
      queue := new EventQueue(queueSize);
      subscribers := subscribers + {queue};
    }

    method Unsubscribe(queue: EventQueue)
      requires QueuesValid()
      modifies this`subscribers
      ensures subscribers == old(subscribers) - {queue} && QueuesValid()
    {
      subscribers := subscribers - {queue};
    }

    /** The loop of `_publish`: a full queue loses its oldest event. */
    method OfferAll(e: BuildEvent)
      requires forall q :: q in subscribers ==> q.Valid()
      modifies subscribers
      ensures forall q :: q in subscribers ==> q.Valid() && Received(q, old(q.items), old(q.published), [e])
    {
      var rest := subscribers;
      while rest != {}
        invariant rest <= subscribers
        invariant forall q :: q in rest ==> q.Valid() && unchanged(q)
        invariant forall q :: q in subscribers && q !in rest ==>
                  q.Valid() && Received(q, old(q.items), old(q.published), [e])
        decreases |rest|
      {
        var queue :| queue in rest;
        queue.Offer(e);
        rest := rest - {queue};
      }
    }

    /** `_publish`. */
    method Publish(e: BuildEvent)
      requires QueuesValid()
      modifies this`events, subscribers
      ensures QueuesValid() && events == old(events) + [e]
      ensures forall q :: q in subscribers ==> Received(q, old(q.items), old(q.published), [e])
    {
      forall q | q in subscribers ensures Newest(events + [e], q.published + [e]) {
        NewestGrows(events, q.published, e);
      }
      events := events + [e];
      OfferAll(e);
    }

    /** `_trim_history`: walk the remembered tasks from the oldest, sparing the active one. */
    method TrimHistory()
      requires history != [] && active == Some(history[|history| - 1])
      requires forall i :: 0 <= i < |history| - 1 ==> history[i] != history[|history| - 1]
      modifies this`history
      ensures history == Trimmed(old(history), maxHistory)
    {
      var n := |history|;
      var dropped := 0;
      while dropped < n && |history| > maxHistory
        invariant dropped < n && history == old(history)[dropped..]
        invariant dropped > 0 ==> |history| >= maxHistory
      {
        if active == Some(history[0]) {
          break;
        }
        history := history[1..];
        dropped := dropped + 1;
      }
    }

    /** `start`. */
    method Start(id: nat, dryRun: bool) returns (started: bool)
      requires QueuesValid() && id !in tasks && id !in history
      modifies this, subscribers
      ensures started == old(active).None? && QueuesValid()
      ensures View() == StartTask(old(View()), id, dryRun, maxHistory)
      ensures old(events) <= events && subscribers == old(subscribers)
      ensures forall q :: q in subscribers ==> Received(q, old(q.items), old(q.published), events[|old(events)|..])
    {
      if active.Some? {
        return false;
      }
      active := Some(id);
      tasks := tasks[id := BuildTask(dryRun, Running, None, None)];
      history := history + [id];
      TrimHistory();
      runners := runners[id := Runner(NotStarted, false, false, None)];
      assert QueuesValid() && history == Trimmed(old(history) + [id], maxHistory);
      ghost var announced := View();
      Publish(StateEvent(id, Running, None));
      assert View() == BuildTasks.Publish(announced, StateEvent(id, Running, None));
      return true;
    }

    /** `_on_progress`. */
    method Progress(id: nat, progress: BuildProgress)
      requires QueuesValid() && id in tasks
      modifies this, subscribers
      ensures QueuesValid() && View() == OnProgress(old(View()), id, progress)
      ensures old(events) <= events && subscribers == old(subscribers)
      ensures forall q :: q in subscribers ==> Received(q, old(q.items), old(q.published), events[|old(events)|..])
    {
      if tasks[id].state != Running {
        return;
      }
      tasks := tasks[id := tasks[id].(progress := Some(progress))];
      Publish(ProgressEvent(id, progress));
    }

    /** The `finally` block of `_run`. */
    method Release(id: nat, luck: Luck)
      requires QueuesValid() && id in tasks && id in runners
      modifies this, subscribers
      ensures QueuesValid() && View() == Finish(old(View()), id, luck)
      ensures old(events) <= events && subscribers == old(subscribers)
      ensures forall q :: q in subscribers ==> Received(q, old(q.items), old(q.published), events[|old(events)|..])
    {
      runners := runners[id := runners[id].(pc := Ended, cancelled := false)];
      active := None;
      if luck.clockFails {
        return;
      }
      Publish(StateEvent(id, tasks[id].state, tasks[id].error));
    }

    method SetFailed(id: nat, error: string)
      requires id in tasks
      modifies this`tasks
      ensures View() == Fail(old(View()), id, error)
    {
      tasks := tasks[id := tasks[id].(state := Failed, error := Some(error))];
    }

    /** `_run` up to its first await. */
    method BeginRun(id: nat, luck: Luck)
      requires QueuesValid() && id in tasks && id in runners
      modifies this, subscribers
      ensures QueuesValid() && View() == Begin(old(View()), id, luck)
      ensures old(events) <= events && subscribers == old(subscribers)
      ensures forall q :: q in subscribers ==> Received(q, old(q.items), old(q.published), events[|old(events)|..])
    {
      if runners[id].cancelled {
        runners := runners[id := runners[id].(pc := Ended, cancelled := false)];
      } else if luck.factoryError.Some? {
        SetFailed(id, luck.factoryError.value);
        Release(id, luck);
      } else {
        runners := runners[id := runners[id].(pc := AwaitingWorker, threadAlive := true)];
      }
    }

    /** `_run` from the shielded await on. */
    method SettleRun(id: nat, luck: Luck)
      requires QueuesValid() && id in tasks && id in runners
      modifies this, subscribers
      ensures QueuesValid() && View() == Settle(old(View()), id, luck)
      ensures old(events) <= events && subscribers == old(subscribers)
      ensures forall q :: q in subscribers ==> Received(q, old(q.items), old(q.published), events[|old(events)|..])
    {
      var r := runners[id];
      if r.cancelled {
        SetFailed(id, CANCELLED);
        if r.outcome.Some? {
          Release(id, luck);
        } else {
          runners := runners[id := r.(pc := WaitingAfterCancel, cancelled := false)];
        }
      } else if r.outcome.Some? {
        if r.outcome.value.Broke? {
          SetFailed(id, r.outcome.value.error);
        } else {
          tasks := tasks[id := tasks[id].(state := Succeeded)];
          if !tasks[id].dryRun && luck.refreshError.Some? {
            SetFailed(id, luck.refreshError.value);
          }
        }
        Release(id, luck);
      }
    }

    /** `_wait_for_worker`. */
    method WaitRun(id: nat, luck: Luck)
      requires QueuesValid() && id in tasks && id in runners
      modifies this, subscribers
      ensures QueuesValid() && View() == Wait(old(View()), id, luck)
      ensures old(events) <= events && subscribers == old(subscribers)
      ensures forall q :: q in subscribers ==> Received(q, old(q.items), old(q.published), events[|old(events)|..])
    {
      if runners[id].outcome.Some? {
        Release(id, luck);
      } else {
        runners := runners[id := runners[id].(cancelled := false)];
      }
    }
  }
}
