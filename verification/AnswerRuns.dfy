/**
 * Concurrent calls of `ReviewSessionOrchestrator.answer` (src/bunsho/orchestration/review_session.py).
 *
 * Every await of `answer` is a point where another request can run, so a call is a sequence of
 * small steps with a program counter. A run is any interleaving of the steps of any number of calls.
 */
module AnswerRuns {
  import opened ReviewTypes
  import opened ReviewTables

  datatype Result = Answered | UnknownItem | StaleToken | StaleWrite

  datatype Pc =
    | Begun
    | Loaded
    | HasRead(before: CardSchedule)
    | Accepted(before: CardSchedule)
    | Graded(before: CardSchedule, after: CardSchedule)
    | Done(result: Result)

  datatype Request = Request(key: CardKey, grade: Grade, token: Option<Time>, now: Time, pc: Pc)

  /** One committed review, with the schedules the log does not keep. */
  datatype Committed = Committed(entry: LogEntry, token: Option<Time>, now: Time, before: CardSchedule,
                                 after: CardSchedule)

  datatype Sys = Sys(tables: Tables, history: seq<Committed>, requests: map<nat, Request>)

  datatype Step =
    | Begin(id: nat, key: CardKey, grade: Grade, token: Option<Time>, now: Time)
    | Load(id: nat, found: bool)
    | Read(id: nat)
    | CheckToken(id: nat)
    | Schedule(id: nat, after: CardSchedule)
    | Commit(id: nat)

  const EMPTY: Sys := Sys(Tables(map[], [], []), [], map[])

  function At(s: Sys, id: nat, pc: Pc): Sys
    requires id in s.requests
  {
    s.(requests := s.requests[id := s.requests[id].(pc := pc)])
  }

  /** What the card looked like to a request that reads it now. */
  function Before(t: Tables, key: CardKey, now: Time): CardSchedule {
    if key in t.cards then t.cards[key].schedule else Initial(now)
  }

  /** The scheduler is arbitrary under its contract, so it takes part in the run as a choice. */
  predicate Enabled(s: Sys, step: Step) {
    if step.Begin? then step.id !in s.requests
    else
      step.id in s.requests &&
      var r := s.requests[step.id];
      match step
      case Load(_, _) => r.pc.Begun?
      case Read(_) => r.pc.Loaded?
      case CheckToken(_) => r.pc.HasRead?
      case Schedule(_, after) => r.pc.Accepted? && ScheduledAt(after, r.now)
      case Commit(_) => r.pc.Graded?
  }

  /** What a request adds to the history when its commit succeeds. */
  function Grading(r: Request, before: CardSchedule, after: CardSchedule): Committed
    requires after.lastReview.Some?
  {
    Committed(Entry(r.key, before, after, r.grade), r.token, r.now, before, after)
  }

  function Next(s: Sys, step: Step): Sys {
    if !Enabled(s, step) then s
    else
      match step
      case Begin(id, key, grade, token, now) =>
        s.(requests := s.requests[id := Request(key, grade, token, now, Begun)])
      case Load(id, found) => At(s, id, if found then Loaded else Done(UnknownItem))
      case Read(id) =>
        var r := s.requests[id];
        At(s, id, HasRead(Before(s.tables, r.key, r.now)))
      case CheckToken(id) =>
        var r := s.requests[id];
        At(s, id, if r.pc.before.lastReview != r.token then Done(StaleToken) else Accepted(r.pc.before))
      case Schedule(id, after) => At(s, id, Graded(s.requests[id].pc.before, after))
      case Commit(id) =>
        var r := s.requests[id];
        var (tables, outcome) := Record(s.tables, r.key, r.pc.before, r.pc.after, r.grade);
        if outcome != Recorded || r.pc.after.lastReview.None? then At(s, id, Done(StaleWrite))
        else
          At(s.(tables := tables, history := s.history + [Grading(r, r.pc.before, r.pc.after)]), id, Done(Answered))
  }

  function Run(steps: seq<Step>): Sys {
    if steps == [] then EMPTY else Next(Run(steps[..|steps| - 1]), steps[|steps| - 1])
  }

  // ---- One card's share of the history ----

  function Of(history: seq<Committed>, key: CardKey): seq<Committed> {
    if history == [] then []
    else
      var c := history[|history| - 1];
      var earlier := Of(history[..|history| - 1], key);
      if c.entry.key == key then earlier + [c] else earlier
  }

  lemma {:induction false} OfAppend(history: seq<Committed>, c: Committed, key: CardKey)
    ensures Of(history + [c], key) == if c.entry.key == key then Of(history, key) + [c] else Of(history, key)
  {
    assert (history + [c])[..|history|] == history;
  }

  function LapseCount(h: seq<Committed>): nat {
    if h == [] then 0
    else
      var c := h[|h| - 1];
      LapseCount(h[..|h| - 1]) + if Lapsed(c.entry.grade, c.entry.stateBefore) then 1 else 0
  }

  /** A card's row as its history implies it. */
  ghost predicate RowOf(t: Tables, key: CardKey, h: seq<Committed>) {
    && (key in t.cards <==> h != [])
    && (key in t.cards ==>
          && t.cards[key].schedule == h[|h| - 1].after
          && t.cards[key].reps == |h|
          && t.cards[key].lapses == LapseCount(h))
  }

  ghost predicate Sound(h: seq<Committed>, key: CardKey) {
    forall i :: 0 <= i < |h| ==>
      var c := h[i];
      && ScheduledAt(c.after, c.now)
      && c.entry == Entry(key, c.before, c.after, c.entry.grade)
      && c.token == c.before.lastReview
      && (i == 0 <==> c.before.state == New)
      && (i == 0 ==> c.before == Initial(c.now))
  }

  /** Where a request can have its `before` from: an unreviewed card, or some stored state of it. */
  ghost predicate Origin(h: seq<Committed>, r: Request, before: CardSchedule) {
    before == Initial(r.now) || exists i :: 0 <= i < |h| && h[i].after == before
  }

  ghost predicate RequestOk(h: seq<Committed>, r: Request) {
    match r.pc
    case HasRead(before) => Origin(h, r, before)
    case Accepted(before) => Origin(h, r, before) && before.lastReview == r.token
    case Graded(before, after) => Origin(h, r, before) && before.lastReview == r.token && ScheduledAt(after, r.now)
    case _ => true
  }

  ghost predicate CardInv(s: Sys, key: CardKey) {
    var h := Of(s.history, key);
    && RowOf(s.tables, key, h)
    && Sound(h, key)
    && forall id :: id in s.requests && s.requests[id].key == key ==> RequestOk(h, s.requests[id])
  }

  ghost predicate LogInv(s: Sys) {
    |s.tables.log| == |s.history| && forall i :: 0 <= i < |s.history| ==> s.tables.log[i] == s.history[i].entry
  }

  lemma OriginGrows(h: seq<Committed>, c: Committed, r: Request, before: CardSchedule)
    requires Origin(h, r, before)
    ensures Origin(h + [c], r, before)
  {
    if before != Initial(r.now) {
      var i :| 0 <= i < |h| && h[i].after == before;
      assert (h + [c])[i].after == before;
    }
  }

  lemma StartedFromNothing(h: seq<Committed>, key: CardKey, r: Request, before: CardSchedule)
    requires Sound(h, key) && Origin(h, r, before)
    ensures before.state == New <==> before == Initial(r.now)
    ensures before.state != New ==> before.lastReview.Some?
  {
  }

  lemma RequestGrows(h: seq<Committed>, c: Committed, r: Request)
    requires RequestOk(h, r)
    ensures RequestOk(h + [c], r)
  {
    if r.pc.HasRead? || r.pc.Accepted? || r.pc.Graded? {
      OriginGrows(h, c, r, r.pc.before);
    }
  }

  lemma SoundGrows(h: seq<Committed>, key: CardKey, c: Committed)
    requires Sound(h, key) && ScheduledAt(c.after, c.now) && c.entry == Entry(key, c.before, c.after, c.entry.grade)
    requires c.token == c.before.lastReview && (h == [] <==> c.before.state == New)
    requires c.before.state == New ==> c.before == Initial(c.now)
    ensures Sound(h + [c], key)
  {
  }

  /** A recorded review puts the card's row where its longer history says. */
  lemma RowGrows(t: Tables, key: CardKey, h: seq<Committed>, c: Committed)
    requires RowOf(t, key, h) && Record(t, key, c.before, c.after, c.entry.grade).1 == Recorded
    requires c.after.lastReview.Some? && c.entry == Entry(key, c.before, c.after, c.entry.grade)
    ensures RowOf(Record(t, key, c.before, c.after, c.entry.grade).0, key, h + [c])
    ensures h == [] <==> c.before.state == New
  {
    assert (h + [c])[..|h|] == h;
  }

  lemma RefusedCommitKeepsCard(s: Sys, id: nat, key: CardKey)
    requires CardInv(s, key) && Enabled(s, Commit(id)) && Next(s, Commit(id)).history == s.history
    ensures CardInv(Next(s, Commit(id)), key)
  {
    assert Next(s, Commit(id)) == At(s, id, Done(StaleWrite));
  }

  lemma {:induction false} CommitEffect(s: Sys, id: nat)
    requires Enabled(s, Commit(id)) && Next(s, Commit(id)).history != s.history
    ensures var (r, s') := (s.requests[id], Next(s, Commit(id)));
            && r.pc.after.lastReview.Some?
            && Record(s.tables, r.key, r.pc.before, r.pc.after, r.grade).1 == Recorded
            && s'.tables == Record(s.tables, r.key, r.pc.before, r.pc.after, r.grade).0
            && s'.history == s.history + [Grading(r, r.pc.before, r.pc.after)]
            && s'.requests == s.requests[id := r.(pc := Done(Answered))]
  {
  }

  lemma {:induction false} RequestsGrow(h: seq<Committed>, c: Committed, requests: map<nat, Request>, id: nat,
                                        key: CardKey)
    requires id in requests
    requires forall other :: other in requests && requests[other].key == key ==> RequestOk(h, requests[other])
    ensures var requests' := requests[id := requests[id].(pc := Done(Answered))];
            forall other :: other in requests' && requests'[other].key == key ==> RequestOk(h + [c], requests'[other])
  {
    forall other | other in requests && requests[other].key == key ensures RequestOk(h + [c], requests[other]) {
      RequestGrows(h, c, requests[other]);
    }
  }

  lemma {:induction false} CommitKeepsCard(s: Sys, id: nat, key: CardKey)
    requires CardInv(s, key) && Enabled(s, Commit(id)) && s.requests[id].key == key
    requires Next(s, Commit(id)).history != s.history
    ensures CardInv(Next(s, Commit(id)), key)
  {
    var r := s.requests[id];
    var h := Of(s.history, key);
    assert RequestOk(h, r);
    StartedFromNothing(h, key, r, r.pc.before);
    CommitEffect(s, id);
    var c := Grading(r, r.pc.before, r.pc.after);
    OfAppend(s.history, c, key);
    RowGrows(s.tables, key, h, c);
    SoundGrows(h, key, c);
    RequestsGrow(h, c, s.requests, id, key);
  }

  /** A review of another card leaves this one's row alone. */
  lemma OtherRowStays(t: Tables, other: CardKey, key: CardKey, before: CardSchedule, after: CardSchedule, grade: Grade)
    requires other != key
    ensures var t' := Record(t, other, before, after, grade).0;
            (key in t'.cards <==> key in t.cards) && (key in t.cards ==> t'.cards[key] == t.cards[key])
  {
  }

  /** What concerns one card is kept when its history, its row and its requests at work stay. */
  lemma {:induction false} UntouchedCard(s: Sys, s': Sys, key: CardKey)
    requires CardInv(s, key) && Of(s'.history, key) == Of(s.history, key)
    requires (key in s'.tables.cards <==> key in s.tables.cards)
          && (key in s.tables.cards ==> s'.tables.cards[key] == s.tables.cards[key])
    requires forall id :: id in s'.requests && s'.requests[id].key == key ==>
               id in s.requests && s'.requests[id] == s.requests[id]
    ensures CardInv(s', key)
  {
  }

  lemma {:induction false} OtherAnswered(s: Sys, s': Sys, id: nat, key: CardKey, before: CardSchedule,
                                         after: CardSchedule)
    requires CardInv(s, key) && id in s.requests && s.requests[id].key != key && after.lastReview.Some?
    requires var r := s.requests[id];
             && s'.tables == Record(s.tables, r.key, before, after, r.grade).0
             && s'.history == s.history + [Grading(r, before, after)]
             && s'.requests == s.requests[id := r.(pc := Done(Answered))]
    ensures CardInv(s', key)
  {
    var r := s.requests[id];
    OfAppend(s.history, Grading(r, before, after), key);
    OtherRowStays(s.tables, r.key, key, before, after, r.grade);
    UntouchedCard(s, s', key);
  }

  lemma {:induction false} OtherCommitKeepsCard(s: Sys, id: nat, key: CardKey)
    requires CardInv(s, key) && Enabled(s, Commit(id)) && s.requests[id].key != key
    requires Next(s, Commit(id)).history != s.history
    ensures CardInv(Next(s, Commit(id)), key)
  {
    CommitEffect(s, id);
    OtherAnswered(s, Next(s, Commit(id)), id, key, s.requests[id].pc.before, s.requests[id].pc.after);
  }

  lemma QuietStepKeepsCard(s: Sys, step: Step, key: CardKey)
    requires CardInv(s, key) && Enabled(s, step) && !step.Commit?
    ensures CardInv(Next(s, step), key)
  {
    if step.Read? && s.requests[step.id].key == key {
      ReadHasOrigin(s, step.id, key);
    }
  }

  lemma StepKeepsCard(s: Sys, step: Step, key: CardKey)
    requires CardInv(s, key)
    ensures CardInv(Next(s, step), key)
  {
    if Enabled(s, step) {
      if !step.Commit? {
        QuietStepKeepsCard(s, step, key);
      } else if Next(s, step).history == s.history {
        RefusedCommitKeepsCard(s, step.id, key);
      } else if s.requests[step.id].key == key {
        CommitKeepsCard(s, step.id, key);
      } else {
        OtherCommitKeepsCard(s, step.id, key);
      }
    }
  }

  lemma {:induction false} ReadHasOrigin(s: Sys, id: nat, key: CardKey)
    requires CardInv(s, key) && Enabled(s, Read(id)) && s.requests[id].key == key
    ensures Origin(Of(s.history, key), s.requests[id], Before(s.tables, key, s.requests[id].now))
  {
    var h := Of(s.history, key);
    if key in s.tables.cards {
      assert h[|h| - 1].after == Before(s.tables, key, s.requests[id].now);
    }
  }

  lemma {:induction false} RunInv(steps: seq<Step>, key: CardKey)
    ensures CardInv(Run(steps), key) && LogInv(Run(steps))
  {
    if steps != [] {
      RunInv(steps[..|steps| - 1], key);
      StepKeepsCard(Run(steps[..|steps| - 1]), steps[|steps| - 1], key);
    }
  }

  // ---- The two tables agree ----

  function EntriesOf(log: seq<LogEntry>, key: CardKey): seq<LogEntry> {
    if log == [] then []
    else
      var e := log[|log| - 1];
      var earlier := EntriesOf(log[..|log| - 1], key);
      if e.key == key then earlier + [e] else earlier
  }

  lemma {:induction false} EntriesAreHistory(log: seq<LogEntry>, history: seq<Committed>, key: CardKey)
    requires |log| == |history| && forall i :: 0 <= i < |log| ==> log[i] == history[i].entry
    ensures var es, h := EntriesOf(log, key), Of(history, key);
            |es| == |h| && forall i :: 0 <= i < |h| ==> es[i] == h[i].entry
  {
    if log != [] {
      EntriesAreHistory(log[..|log| - 1], history[..|log| - 1], key);
    }
  }

  function Lapses(es: seq<LogEntry>): nat {
    if es == [] then 0
    else
      var e := es[|es| - 1];
      Lapses(es[..|es| - 1]) + if e.grade == Again && e.stateBefore == Review then 1 else 0
  }

  lemma {:induction false} LapsesAreHistory(es: seq<LogEntry>, h: seq<Committed>)
    requires |es| == |h| && forall i :: 0 <= i < |h| ==> es[i] == h[i].entry
    ensures Lapses(es) == LapseCount(h)
  {
    if es != [] {
      LapsesAreHistory(es[..|es| - 1], h[..|es| - 1]);
    }
  }

  /** In every run a card's row is exactly what its log entries say, whatever the review times were. */
  lemma {:induction false} TablesAgree(steps: seq<Step>, key: CardKey)
    ensures var t := Run(steps).tables;
            var es := EntriesOf(t.log, key);
            && (key in t.cards <==> es != [])
            && (key in t.cards ==>
                  && t.cards[key].reps == |es|
                  && t.cards[key].schedule.lastReview == Some(es[|es| - 1].reviewedAt)
                  && t.cards[key].lapses == Lapses(es))
            && forall i :: 0 <= i < |es| ==> (es[i].stateBefore == New <==> i == 0)
  {
    var s := Run(steps);
    RunInv(steps, key);
    EntriesAreHistory(s.tables.log, s.history, key);
    LapsesAreHistory(EntriesOf(s.tables.log, key), Of(s.history, key));
  }

  ghost predicate FirstsOnce(t: Tables) {
    && (forall i :: 0 <= i < |t.log| ==> t.log[i].key in t.cards)
    && NoSecondFirst(t.log)
  }

  /** A second review of a card is not of a new card. */
  ghost predicate NotFirst(log: seq<LogEntry>, i: nat, j: nat)
    requires i < j < |log|
  {
    log[i].key == log[j].key ==> log[j].stateBefore != New
  }

  lemma StepFirstsOnce(s: Sys, step: Step)
    requires FirstsOnce(s.tables)
    ensures FirstsOnce(Next(s, step).tables)
  {
    var log, log' := s.tables.log, Next(s, step).tables.log;
    forall i, j | 0 <= i < j < |log'| ensures NotFirst(log', i, j) {
      assert j < |log| ==> NotFirst(log, i, j);
    }
  }

  lemma {:induction false} RunFirstsOnce(steps: seq<Step>)
    ensures FirstsOnce(Run(steps).tables)
  {
    if steps != [] {
      RunFirstsOnce(steps[..|steps| - 1]);
      StepFirstsOnce(Run(steps[..|steps| - 1]), steps[|steps| - 1]);
    }
  }

  /** The cards whose first review falls in a window. */
  ghost function IntroducedCards(log: seq<LogEntry>, itemType: ItemType, from: Time, until: Time): set<CardKey> {
    if log == [] then {}
    else
      var e := log[|log| - 1];
      var earlier := IntroducedCards(log[..|log| - 1], itemType, from, until);
      if FirstReviewIn(e, from, until) && e.key.Type() == itemType then earlier + {e.key} else earlier
  }

  /** Entry `i` is the card's first review, in the window. */
  ghost predicate Introduces(log: seq<LogEntry>, i: nat, key: CardKey, from: Time, until: Time)
    requires i < |log|
  {
    log[i].key == key && log[i].stateBefore == New && from <= log[i].reviewedAt < until
  }

  lemma {:induction false} IntroducedMeans(log: seq<LogEntry>, itemType: ItemType, from: Time, until: Time,
                                           key: CardKey)
    ensures key in IntroducedCards(log, itemType, from, until) <==>
              key.Type() == itemType && exists i :: 0 <= i < |log| && Introduces(log, i, key, from, until)
  {
    if log != [] {
      var n := |log| - 1;
      IntroducedMeans(log[..n], itemType, from, until, key);
      if i :| 0 <= i < n && Introduces(log[..n], i, key, from, until) {
        assert Introduces(log, i, key, from, until);
      }
      if i :| 0 <= i < |log| && Introduces(log, i, key, from, until) {
        assert i < n ==> Introduces(log[..n], i, key, from, until);
        assert i == n ==> log[n].key == key && FirstReviewIn(log[n], from, until);
      }
      assert Introduces(log, n, key, from, until) <==> log[n].key == key && FirstReviewIn(log[n], from, until);
    }
  }

  /** No card is introduced twice. */
  ghost predicate NoSecondFirst(log: seq<LogEntry>) {
    forall i, j {:trigger NotFirst(log, i, j)} :: 0 <= i < j < |log| ==> NotFirst(log, i, j)
  }

  lemma NoSecondFirstBefore(log: seq<LogEntry>)
    requires log != [] && NoSecondFirst(log)
    ensures NoSecondFirst(log[..|log| - 1])
  {
    var n := |log| - 1;
    forall i, j | 0 <= i < j < n ensures NotFirst(log[..n], i, j) {
      assert NotFirst(log, i, j);
    }
  }

  lemma {:induction false} NotYetIntroduced(log: seq<LogEntry>, itemType: ItemType, from: Time, until: Time)
    requires log != [] && NoSecondFirst(log) && log[|log| - 1].stateBefore == New
    ensures log[|log| - 1].key !in IntroducedCards(log[..|log| - 1], itemType, from, until)
  {
    var n := |log| - 1;
    var key := log[n].key;
    IntroducedMeans(log[..n], itemType, from, until, key);
    if i :| 0 <= i < n && Introduces(log[..n], i, key, from, until) {
      assert NotFirst(log, i, n);
    }
  }

  lemma {:induction false} CountsDistinctCards(log: seq<LogEntry>, itemType: ItemType, from: Time, until: Time)
    requires NoSecondFirst(log)
    ensures Introduced(log, itemType, from, until) == |IntroducedCards(log, itemType, from, until)|
  {
    if log != [] {
      NoSecondFirstBefore(log);
      CountsDistinctCards(log[..|log| - 1], itemType, from, until);
      if log[|log| - 1].stateBefore == New {
        NotYetIntroduced(log, itemType, from, until);
      }
    }
  }

  /** `new_cards_introduced` counts each card at most once: the cards whose first review is in the window. */
  lemma {:induction false} IntroducedOnce(steps: seq<Step>, itemType: ItemType, from: Time, until: Time)
    ensures var t := Run(steps).tables;
            var keys := IntroducedCards(t.log, itemType, from, until);
            && keys <= t.cards.Keys && Introduced(t.log, itemType, from, until) == |keys|
            && forall key :: key in keys <==>
                 key.Type() == itemType && exists i :: 0 <= i < |t.log| && Introduces(t.log, i, key, from, until)
  {
    RunFirstsOnce(steps);
    var log := Run(steps).tables.log;
    CountsDistinctCards(log, itemType, from, until);
    forall key
      ensures key in IntroducedCards(log, itemType, from, until) <==>
                key.Type() == itemType && exists i :: 0 <= i < |log| && Introduces(log, i, key, from, until)
    {
      IntroducedMeans(log, itemType, from, until, key);
    }
  }

  /** The keys of the first reviews, in the order they were logged. */
  function FirstKeys(log: seq<LogEntry>): seq<CardKey> {
    if log == [] then []
    else
      var e := log[|log| - 1];
      FirstKeys(log[..|log| - 1]) + if e.stateBefore == New then [e.key] else []
  }

  /** The rows were inserted in that order. */
  lemma {:induction false} RowsInOrder(steps: seq<Step>)
    ensures Run(steps).tables.order == FirstKeys(Run(steps).tables.log)
  {
    if steps != [] {
      var t, t' := Run(steps[..|steps| - 1]).tables, Run(steps).tables;
      RowsInOrder(steps[..|steps| - 1]);
      if t'.log != t.log {
        assert t'.log[..|t.log|] == t.log;
      }
    }
  }

  // ---- What a commit does, and when it is refused ----

  /**
   * Before that: an unknown item is refused, the card is read as it is, and a token other than its last review
   * refused.
   */
  lemma EarlierSteps(s: Sys, step: Step)
    requires Enabled(s, step) && (step.Load? || step.Read? || step.CheckToken?)
    ensures var (r, s') := (s.requests[step.id], Next(s, step));
            && step.id in s'.requests && s'.tables == s.tables
            && var pc := s'.requests[step.id].pc;
               match step
               case Load(_, found) => if found then pc.Loaded? else pc == Done(UnknownItem)
               case Read(_) =>
                 pc.HasRead? && if r.key in s.tables.cards then pc.before == s.tables.cards[r.key].schedule
                                else pc.before.state == New && pc.before.lastReview.None? && pc.before.due == r.now
               case CheckToken(_) =>
                 if r.pc.before.lastReview == r.token then pc == Accepted(r.pc.before) else pc == Done(StaleToken)
  {
  }

  /**
   * A commit is answered exactly when the card is as the request read it: still without a row, or last reviewed at
   * the same time. Then the row holds the new schedule, and the log one more entry of what the request said.
   */
  lemma CommitStores(s: Sys, id: nat)
    requires Enabled(s, Commit(id)) && s.requests[id].pc.after.lastReview.Some?
    requires s.requests[id].pc.before.state != New ==> s.requests[id].pc.before.lastReview.Some?
    ensures var (r, t, s') := (s.requests[id], s.tables, Next(s, Commit(id)));
            var (before, after) := (r.pc.before, r.pc.after);
            && id in s'.requests && s'.requests[id].pc.Done?
            && (s'.requests[id].pc.result == Answered <==>
                  if before.state == New then r.key !in t.cards
                  else r.key in t.cards && t.cards[r.key].schedule.lastReview == before.lastReview)
            && (s'.requests[id].pc.result != Answered ==> s'.requests[id].pc.result == StaleWrite && s'.tables == t)
            && (s'.requests[id].pc.result == Answered ==>
                  && r.key in s'.tables.cards && s'.tables.cards[r.key].schedule == after
                  && (forall key :: key != r.key ==>
                        (key in s'.tables.cards <==> key in t.cards)
                        && (key in t.cards ==> s'.tables.cards[key] == t.cards[key]))
                  && |s'.tables.log| == |t.log| + 1 && t.log <= s'.tables.log
                  && var e := s'.tables.log[|t.log|];
                     && e.key == r.key && e.grade == r.grade && Some(e.reviewedAt) == after.lastReview
                     && e.stateBefore == before.state && e.stabilityBefore == before.stability
                     && e.difficultyBefore == before.difficulty)
  {
  }

  // ---- Refusals ----

  /** The tables change only when a commit answers its request; every refusal leaves them as they were. */
  lemma RefusalChangesNothing(s: Sys, step: Step)
    ensures var s' := Next(s, step);
            s'.tables != s.tables ==>
              && step.Commit? && step.id in s'.requests && s'.requests[step.id].pc == Done(Answered)
              && |s'.tables.log| == |s.tables.log| + 1
    ensures var s' := Next(s, step);
            forall id | id in s.requests && !s.requests[id].pc.Done? ::
              s'.requests[id].pc.Done? && s'.requests[id].pc.result != Answered ==>
                s'.tables == s.tables && s'.history == s.history
  {
  }

  // ---- The log of a card is a chain ----

  ghost predicate DistinctTimes(h: seq<Committed>) {
    forall i, j :: 0 <= i < j < |h| ==> h[i].entry.reviewedAt != h[j].entry.reviewedAt
  }

  /** No two reviews but perhaps the last one share a time. */
  ghost predicate Unambiguous(h: seq<Committed>) {
    forall i, j :: 0 <= i < j < |h| - 1 ==> h[i].entry.reviewedAt != h[j].entry.reviewedAt
  }

  /** Every review was based on exactly the state its predecessor stored. */
  ghost predicate Chain(h: seq<Committed>) {
    forall i :: 0 < i < |h| ==> h[i].before == h[i - 1].after
  }

  lemma {:induction false} CommitExtendsChain(s: Sys, id: nat, key: CardKey)
    requires CardInv(s, key) && Enabled(s, Commit(id)) && s.requests[id].key == key
    requires Next(s, Commit(id)).history != s.history
    requires DistinctTimes(Of(s.history, key))
    ensures s.requests[id].pc.before == Before(s.tables, key, s.requests[id].now)
  {
    var r := s.requests[id];
    var h := Of(s.history, key);
    assert RequestOk(h, r);
    StartedFromNothing(h, key, r, r.pc.before);
    if r.pc.before.state != New {
      var i :| 0 <= i < |h| && h[i].after == r.pc.before;
      assert h[i].entry.reviewedAt == h[|h| - 1].entry.reviewedAt;
    }
  }

  /** What one step adds to a card's history. */
  lemma {:induction false} StepExtends(s: Sys, step: Step, key: CardKey)
    ensures var h, h' := Of(s.history, key), Of(Next(s, step).history, key);
            || h' == h
            || (Enabled(s, step) && step.Commit? && s.requests[step.id].key == key && Next(s, step).history != s.history
                && h' == h + [h'[|h|]] && h'[|h|].before == s.requests[step.id].pc.before)
  {
    var s' := Next(s, step);
    if s'.history != s.history {
      OfAppend(s.history, s'.history[|s.history|], key);
    }
  }

  /** Before a review is added all the times count, and with one left out there are fewer to differ. */
  lemma UnambiguousBefore(h: seq<Committed>, h': seq<Committed>)
    requires h <= h' && Unambiguous(h')
    ensures Unambiguous(h) && (h != h' ==> DistinctTimes(h))
  {
    assert forall i :: 0 <= i < |h| ==> h[i] == h'[i];
  }

  lemma {:induction false} StepKeepsChain(s: Sys, step: Step, key: CardKey)
    requires CardInv(s, key) && Chain(Of(s.history, key)) && Unambiguous(Of(Next(s, step).history, key))
    ensures Chain(Of(Next(s, step).history, key))
  {
    var h, h' := Of(s.history, key), Of(Next(s, step).history, key);
    StepExtends(s, step, key);
    UnambiguousBefore(h, h');
    if h' != h {
      CommitExtendsChain(s, step.id, key);
      assert h != [] ==> key in s.tables.cards && s.tables.cards[key].schedule == h[|h| - 1].after;
    }
  }

  /** In any interleaving, if no two reviews of a card but the last one share a time, its log is a chain. */
  lemma {:induction false} LogIsChain(steps: seq<Step>, key: CardKey)
    requires Unambiguous(Of(Run(steps).history, key))
    ensures Chain(Of(Run(steps).history, key))
  {
    if steps != [] {
      var earlier, step := steps[..|steps| - 1], steps[|steps| - 1];
      var s := Run(earlier);
      assert Run(steps) == Next(s, step);
      StepExtends(s, step, key);
      UnambiguousBefore(Of(s.history, key), Of(Next(s, step).history, key));
      LogIsChain(earlier, key);
      RunInv(earlier, key);
      StepKeepsChain(s, step, key);
    }
  }

  /** Each token (the `last_review` a client was shown) is spent by at most one answer. */
  lemma {:induction false} TokenSpentOnce(steps: seq<Step>, key: CardKey)
    requires Unambiguous(Of(Run(steps).history, key))
    ensures var h := Of(Run(steps).history, key);
            && (forall i :: 0 <= i < |h| ==> h[i].token == if i == 0 then None else Some(h[i - 1].entry.reviewedAt))
            && (forall i, j :: 0 <= i < j < |h| ==> h[i].token != h[j].token)
  {
    RunInv(steps, key);
    LogIsChain(steps, key);
    var h := Of(Run(steps).history, key);
    forall i | 0 <= i < |h|
      ensures h[i].token == if i == 0 then None else Some(h[i - 1].entry.reviewedAt)
    {
      if i > 0 {
        assert h[i].before == h[i - 1].after;
      }
    }
    forall i, j | 0 <= i < j < |h|
      ensures h[i].token != h[j].token
    {
      assert h[j].token == Some(h[j - 1].entry.reviewedAt);
      if i > 0 {
        assert h[i - 1].entry.reviewedAt != h[j - 1].entry.reviewedAt;
      }
    }
  }

  /** So a log entry tells what the review before it left, and how long that was ago. */
  lemma {:induction false} EntriesTellStates(steps: seq<Step>, key: CardKey, i: nat)
    requires Unambiguous(Of(Run(steps).history, key)) && i < |Of(Run(steps).history, key)|
    ensures var h := Of(Run(steps).history, key);
            var e := h[i].entry;
            if i == 0 then
              e.stateBefore == New && e.stabilityBefore.None? && e.difficultyBefore.None? && e.elapsed.None?
            else
              var left := h[i - 1].after;
              && e.stateBefore == left.state && e.stabilityBefore == left.stability
              && e.difficultyBefore == left.difficulty
              && e.elapsed == Some(e.reviewedAt - h[i - 1].entry.reviewedAt)
  {
    RunInv(steps, key);
    LogIsChain(steps, key);
    var h := Of(Run(steps).history, key);
    if i > 0 {
      assert h[i].before == h[i - 1].after;
      assert h[i - 1].entry == Entry(key, h[i - 1].before, h[i - 1].after, h[i - 1].entry.grade);
    }
  }

  // ---- Concurrent answers have the effect of one answer at a time ----

  /** An answer nobody interleaves with: read, check the token, write. */
  function AnswerAlone(t: Tables, key: CardKey, grade: Grade, token: Option<Time>, now: Time,
                       after: CardSchedule): Tables {
    var before := Before(t, key, now);
    if before.lastReview != token then t else Record(t, key, before, after, grade).0
  }

  /** Alone, an answer is recorded exactly when its token is the last review of the card, `None` for a new one. */
  lemma AloneNeedsToken(t: Tables, key: CardKey, grade: Grade, token: Option<Time>, now: Time, after: CardSchedule)
    requires ScheduledAt(after, now)
    requires key in t.cards ==> t.cards[key].schedule.state != New && t.cards[key].schedule.lastReview.Some?
    ensures var t' := AnswerAlone(t, key, grade, token, now, after);
            if token == (if key in t.cards then t.cards[key].schedule.lastReview else None) then
              key in t'.cards && t'.cards[key].schedule == after && |t'.log| == |t.log| + 1
            else t' == t
  {
  }

  function Replay(history: seq<Committed>): Tables {
    if history == [] then EMPTY.tables
    else
      var c := history[|history| - 1];
      AnswerAlone(Replay(history[..|history| - 1]), c.entry.key, c.entry.grade, c.token, c.now, c.after)
  }

  /** The tables after any interleaving are those of its committed answers, replayed one at a time. */
  lemma {:induction false} Linearizable(steps: seq<Step>)
    requires forall key :: Unambiguous(Of(Run(steps).history, key))
    ensures Run(steps).tables == Replay(Run(steps).history)
  {
    if steps != [] {
      var before, step := steps[..|steps| - 1], steps[|steps| - 1];
      var s, s' := Run(before), Run(steps);
      forall key ensures Unambiguous(Of(s.history, key)) {
        StepExtends(s, step, key);
        UnambiguousBefore(Of(s.history, key), Of(s'.history, key));
      }
      Linearizable(before);
      if s'.history != s.history {
        CommitReplays(before, step);
      }
    }
  }

  /** A committed answer does to the tables what it would have done alone. */
  lemma {:induction false} CommitReplays(before: seq<Step>, step: Step)
    requires var (s, s') := (Run(before), Next(Run(before), step));
             s'.history != s.history && forall key :: Unambiguous(Of(s'.history, key))
    ensures var (s, s') := (Run(before), Next(Run(before), step));
            var c := s'.history[|s.history|];
            && s'.history == s.history + [c]
            && s'.tables == AnswerAlone(s.tables, c.entry.key, c.entry.grade, c.token, c.now, c.after)
  {
    var s, s' := Run(before), Next(Run(before), step);
    var r := s.requests[step.id];
    RunInv(before, r.key);
    assert RequestOk(Of(s.history, r.key), r);
    OfAppend(s.history, s'.history[|s.history|], r.key);
    UnambiguousBefore(Of(s.history, r.key), Of(s'.history, r.key));
    CommitExtendsChain(s, step.id, r.key);
  }

  // ---- Why the review times must differ ----

  function NextAll(s: Sys, steps: seq<Step>): Sys {
    if steps == [] then s else Next(NextAll(s, steps[..|steps| - 1]), steps[|steps| - 1])
  }

  lemma {:induction false} NextConcat(s: Sys, a: seq<Step>, b: seq<Step>)
    ensures NextAll(s, a + b) == NextAll(NextAll(s, a), b)
  {
    if b == [] {
      assert a + b == a;
    } else {
      NextConcat(s, a, b[..|b| - 1]);
      assert (a + b)[..|a + b| - 1] == a + b[..|b| - 1];
    }
  }

  lemma {:induction false} RunIsNextAll(steps: seq<Step>)
    ensures Run(steps) == NextAll(EMPTY, steps)
  {
    if steps != [] {
      RunIsNextAll(steps[..|steps| - 1]);
    }
  }

  /** A request that runs up to its token check. */
  function Reading(id: nat, key: CardKey, grade: Grade, token: Option<Time>, now: Time): seq<Step> {
    [Begin(id, key, grade, token, now), Load(id, true), Read(id), CheckToken(id)]
  }

  lemma {:induction false} ReadingAccepts(s: Sys, id: nat, key: CardKey, grade: Grade, token: Option<Time>, now: Time)
    requires id !in s.requests && Before(s.tables, key, now).lastReview == token
    ensures NextAll(s, Reading(id, key, grade, token, now))
         == s.(requests := s.requests[id := Request(key, grade, token, now, Accepted(Before(s.tables, key, now)))])
  {
    var steps := Reading(id, key, grade, token, now);
    assert steps[..3][..2] == steps[..2] && steps[..2][..1] == steps[..1] && steps[..1][..0] == [];
    var s1 := NextAll(s, steps[..1]);
    assert s1 == Next(NextAll(s, []), steps[0]);
    var s2 := NextAll(s, steps[..2]);
    assert s2 == Next(s1, steps[1]);
    var s3 := NextAll(s, steps[..3]);
    assert s3 == Next(s2, steps[2]);
  }

  /** An accepted request that grades and commits. */
  lemma {:induction false} GradingCommits(s: Sys, id: nat, after: CardSchedule)
    requires id in s.requests && s.requests[id].pc.Accepted? && ScheduledAt(after, s.requests[id].now)
    requires var r := s.requests[id];
             Matches(s.tables, r.key, r.pc.before) && (r.pc.before.state == New || r.pc.before.lastReview.Some?)
    ensures var r := s.requests[id];
            var s' := NextAll(s, [Schedule(id, after), Commit(id)]);
            && s'.tables == Record(s.tables, r.key, r.pc.before, after, r.grade).0
            && s'.history == s.history + [Grading(r, r.pc.before, after)]
            && s'.requests == s.requests[id := r.(pc := Done(Answered))]
  {
    var steps := [Schedule(id, after), Commit(id)];
    assert steps[..1] == [Schedule(id, after)] && steps[..1][..0] == [];
    assert NextAll(s, steps[..1]) == Next(NextAll(s, []), steps[0]);
  }

  /** What review number `k` stores, told from the others by its due time. */
  function Stored(ts: seq<Time>, k: nat): CardSchedule
    requires k < |ts|
  {
    CardSchedule(Learning, None, None, None, k, Some(ts[k]))
  }

  /** The first `n` reviews of the card were made at these times, and stored these states. */
  ghost predicate Reviewed(s: Sys, key: CardKey, ts: seq<Time>, n: nat)
    requires n <= |ts|
  {
    var h := Of(s.history, key);
    && |h| == n
    && (forall k :: 0 <= k < n ==> h[k].entry.reviewedAt == ts[k] && h[k].after == Stored(ts, k))
    && (n == 0 ==> key !in s.tables.cards)
    && (n > 0 ==> key in s.tables.cards && s.tables.cards[key].schedule == Stored(ts, n - 1))
  }

  /** Only the requests `from` up to `until` were at work between the two states. */
  ghost predicate OnlyRequests(s: Sys, s': Sys, from: nat, until: nat) {
    forall id :: !(from <= id < until) ==>
      (id in s'.requests <==> id in s.requests) && (id in s.requests ==> s'.requests[id] == s.requests[id])
  }

  lemma {:induction false} ReviewedGrows(s: Sys, s': Sys, key: CardKey, ts: seq<Time>, n: nat, c: Committed)
    requires n < |ts| && Reviewed(s, key, ts, n)
    requires c.entry.key == key && c.entry.reviewedAt == ts[n] && c.after == Stored(ts, n)
    requires s'.history == s.history + [c] && key in s'.tables.cards && s'.tables.cards[key].schedule == c.after
    ensures Reviewed(s', key, ts, n + 1) && Of(s'.history, key) == Of(s.history, key) + [c]
  {
    OfAppend(s.history, c, key);
  }

  /** The accepted request `n` commits its review, whatever state of the card it had read. */
  lemma {:induction false} CommitNext(s: Sys, key: CardKey, ts: seq<Time>, n: nat)
    requires n < |ts| && Reviewed(s, key, ts, n) && n in s.requests
    requires var r := s.requests[n];
             && r.key == key && r.now == ts[n] && r.pc.Accepted? && Matches(s.tables, key, r.pc.before)
             && (r.pc.before.state == New || r.pc.before.lastReview.Some?)
    ensures var s' := NextAll(s, [Schedule(n, Stored(ts, n)), Commit(n)]);
            && Reviewed(s', key, ts, n + 1)
            && Of(s.history, key) <= Of(s'.history, key) && Of(s'.history, key)[n].before == s.requests[n].pc.before
            && OnlyRequests(s, s', n, n + 1)
  {
    var s' := NextAll(s, [Schedule(n, Stored(ts, n)), Commit(n)]);
    GradingCommits(s, n, Stored(ts, n));
    ReviewedGrows(s, s', key, ts, n, Grading(s.requests[n], s.requests[n].pc.before, Stored(ts, n)));
  }

  function TokenAt(ts: seq<Time>, n: nat): Option<Time>
    requires n <= |ts|
  {
    if n == 0 then None else Some(ts[n - 1])
  }

  /** Request `n` reads the card as `n` reviews left it. */
  lemma {:induction false} ReadNext(s: Sys, key: CardKey, ts: seq<Time>, n: nat, id: nat, now: Time)
    requires n <= |ts| && Reviewed(s, key, ts, n) && id !in s.requests
    ensures var s' := NextAll(s, Reading(id, key, Good, TokenAt(ts, n), now));
            && s'.tables == s.tables && s'.history == s.history
            && s'.requests == s.requests[id := Request(key, Good, TokenAt(ts, n), now,
                 Accepted(Before(s.tables, key, now)))]
  {
    ReadingAccepts(s, id, key, Good, TokenAt(ts, n), now);
  }

  function Reviewing(key: CardKey, ts: seq<Time>, n: nat): seq<Step>
    requires n < |ts|
  {
    Reading(n, key, Good, TokenAt(ts, n), ts[n]) + [Schedule(n, Stored(ts, n)), Commit(n)]
  }

  /** Request `n` answers the card with nothing in between. */
  lemma {:induction false} ReviewOnce(s: Sys, key: CardKey, ts: seq<Time>, n: nat)
    requires n < |ts| && Reviewed(s, key, ts, n) && n !in s.requests
    ensures var s' := NextAll(s, Reviewing(key, ts, n));
            && Reviewed(s', key, ts, n + 1) && Of(s.history, key) <= Of(s'.history, key)
            && OnlyRequests(s, s', n, n + 1)
  {
    var a := Reading(n, key, Good, TokenAt(ts, n), ts[n]);
    ReadNext(s, key, ts, n, n, ts[n]);
    CommitNext(NextAll(s, a), key, ts, n);
    NextConcat(s, a, [Schedule(n, Stored(ts, n)), Commit(n)]);
  }

  /** One review after the other, up to `m`, while other requests wait. */
  lemma {:induction false} ReviewOn(s: Sys, key: CardKey, ts: seq<Time>, n: nat, m: nat) returns (steps: seq<Step>)
    requires n <= m <= |ts| && Reviewed(s, key, ts, n) && forall id :: n <= id < m ==> id !in s.requests
    ensures var s' := NextAll(s, steps);
            Reviewed(s', key, ts, m) && Of(s.history, key) <= Of(s'.history, key) && OnlyRequests(s, s', n, m)
    decreases m - n
  {
    steps := [];
    if n < m {
      ReviewOnce(s, key, ts, n);
      var s1 := NextAll(s, Reviewing(key, ts, n));
      var rest := ReviewOn(s1, key, ts, n + 1, m);
      NextConcat(s, Reviewing(key, ts, n), rest);
      steps := Reviewing(key, ts, n) + rest;
    }
  }

  /** `late` reviews, and a request for the next one that read the card after review `i`. */
  lemma {:induction false} LateReader(key: CardKey, ts: seq<Time>, i: nat, late: nat) returns (steps: seq<Step>)
    requires i < late < |ts|
    ensures var s := NextAll(EMPTY, steps);
            && Reviewed(s, key, ts, late) && (forall id :: id in s.requests ==> id <= late)
            && late in s.requests
            && s.requests[late] == Request(key, Good, TokenAt(ts, i + 1), ts[late], Accepted(Stored(ts, i)))
  {
    var a := ReviewOn(EMPTY, key, ts, 0, i + 1);
    var s1 := NextAll(EMPTY, a);
    var r := Reading(late, key, Good, TokenAt(ts, i + 1), ts[late]);
    ReadNext(s1, key, ts, i + 1, late, ts[late]);
    var s2 := NextAll(s1, r);
    var b := ReviewOn(s2, key, ts, i + 1, late);
    steps := a + r + b;
    NextConcat(EMPTY, a, r);
    NextConcat(EMPTY, a + r, b);
  }

  /**
   * Any repeated time before the last review can break the chain: the compare-and-set looks at `last_review`
   * only. A request that read the card after review `i` writes over the state that review `j` of the same
   * time stored.
   */
  lemma {:induction false} SameTimeBreaksChain(key: CardKey, ts: seq<Time>, i: nat, j: nat) returns (steps: seq<Step>)
    requires i < j < |ts| - 1 && ts[i] == ts[j]
    ensures var h := Of(Run(steps).history, key);
            |h| == |ts| && (forall k :: 0 <= k < |h| ==> h[k].entry.reviewedAt == ts[k]) && !Chain(h)
  {
    var late := j + 1;
    var a := LateReader(key, ts, i, late);
    var s1 := NextAll(EMPTY, a);
    CommitNext(s1, key, ts, late);
    var c := [Schedule(late, Stored(ts, late)), Commit(late)];
    var s2 := NextAll(s1, c);
    var d := ReviewOn(s2, key, ts, late + 1, |ts|);
    steps := a + c + d;
    NextConcat(EMPTY, a, c);
    NextConcat(EMPTY, a + c, d);
    RunIsNextAll(steps);
    var h := Of(Run(steps).history, key);
    assert h[late].before == Stored(ts, i) && h[j].after == Stored(ts, j);
  }

  ghost predicate ReviewedAt(h: seq<Committed>, ts: seq<Time>) {
    |h| == |ts| && forall k :: 0 <= k < |h| ==> h[k].entry.reviewedAt == ts[k]
  }

  /**
   * Of the review times of a card alone: every run with these times is a chain exactly when none but the last repeats
   * one.
   */
  lemma ChainIffUnambiguous(key: CardKey, ts: seq<Time>)
    ensures (forall steps :: ReviewedAt(Of(Run(steps).history, key), ts) ==> Chain(Of(Run(steps).history, key)))
       <==> (forall i, j :: 0 <= i < j < |ts| - 1 ==> ts[i] != ts[j])
  {
    if forall i, j :: 0 <= i < j < |ts| - 1 ==> ts[i] != ts[j] {
      forall steps | ReviewedAt(Of(Run(steps).history, key), ts) ensures Chain(Of(Run(steps).history, key)) {
        LogIsChain(steps, key);
      }
    } else {
      var i, j :| 0 <= i < j < |ts| - 1 && ts[i] == ts[j];
      var steps := SameTimeBreaksChain(key, ts, i, j);
      assert ReviewedAt(Of(Run(steps).history, key), ts);
    }
  }

  /** The call itself, when nothing runs between its awaits: it is the atomic answer of `Replay`. */
  method Answer(repo: ProgressRepository, key: CardKey, grade: Grade, token: Option<Time>,
                now: Time, found: bool, after: CardSchedule) returns (result: Result)
    requires ScheduledAt(after, now)
    requires forall k :: k in repo.cards ==>
             repo.cards[k].schedule.state != New && repo.cards[k].schedule.lastReview.Some?
    modifies repo
    ensures repo.View() == if found then AnswerAlone(old(repo.View()), key, grade, token, now, after)
            else old(repo.View())
    ensures result == (if !found then UnknownItem
                       else if Before(old(repo.View()), key, now).lastReview != token then StaleToken else Answered)
  {
    if !found {
      return UnknownItem;
    }
    var stored := repo.GetCard(key);
    var before := if stored.Some? then stored.value.schedule else Initial(now);
    if before.lastReview != token {
      return StaleToken;
    }
    var outcome := repo.RecordReview(key, before, after, grade);
    return if outcome == Recorded then Answered else StaleWrite;
  }
}
