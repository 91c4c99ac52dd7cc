/**
 * The reconnecting client of the stream of build events (frontend/src/realtime/BuildStream.ts).
 *
 * What the browser still owes the client (a token, frames and one close of a socket, the outcome of a
 * refresh) is `waiting`, each continuation named by the generation that asked for it.
 */
module BuildStreams {
  import opened ReviewTypes

  const POLICY_VIOLATION: int := 1008

  datatype ConnectionState = Connecting | Connected | Retrying | Disconnected

  datatype Continuation =
    | Token(generation: nat)
    | Socket(generation: nat)
    | Refresh(generation: nat)
    | Timer(generation: nat)

  datatype Frame = Unreadable | Ready | Payload(text: string)

  /** `shown` and `forwarded` are what `onState` and `onMessage` were called with. */
  datatype Stream = Stream(
    socket: Option<nat>,
    timer: bool,
    attempt: nat,
    authRetried: bool,
    stopped: bool,
    generation: nat,
    waiting: set<Continuation>,
    shown: seq<ConnectionState>,
    forwarded: seq<string>)

  datatype Event =
    | Started
    | Stopped
    | TokenResolved(generation: nat, ok: bool)
    | FrameArrived(generation: nat, frame: Frame)
    | Closed(generation: nat, code: int)
    | RefreshResolved(generation: nat, ok: bool)
    | TimerFired

  const FRESH: Stream := Stream(None, false, 0, false, true, 0, {}, [], [])

  function Show(s: Stream, state: ConnectionState): Stream { s.(shown := s.shown + [state]) }

  function ConnectFrom(s: Stream): Stream {
    Show(s.(generation := s.generation + 1, waiting := s.waiting + {Token(s.generation + 1)}), Connecting)
  }

  function ScheduleRetryFrom(s: Stream): Stream {
    Show(s, Retrying).(attempt := s.attempt + 1, timer := true)
  }

  function StartFrom(s: Stream): Stream {
    if !s.stopped then s else ConnectFrom(s.(stopped := false, attempt := 0, authRetried := false))
  }

  /** Stopping clears the timer and takes the handlers off the socket, so it is silent from then on. */
  function StopFrom(s: Stream): Stream {
    Show(s.(stopped := true, generation := s.generation + 1, timer := false, socket := None,
            waiting := if s.socket.Some? then s.waiting - {Socket(s.socket.value)} else s.waiting), Disconnected)
  }

  function ResolveToken(s: Stream, g: nat, ok: bool): Stream {
    var s' := s.(waiting := s.waiting - {Token(g)});
    if s.stopped || g != s.generation then s'
    else if !ok then ScheduleRetryFrom(s')
    else s'.(socket := Some(g), waiting := s'.waiting + {Socket(g)})
  }

  function HandleFrame(s: Stream, frame: Frame): Stream {
    match frame
    case Unreadable => s
    case Ready => Show(s.(attempt := 0, authRetried := false), Connected)
    case Payload(text) => s.(forwarded := s.forwarded + [text])
  }

  function HandleClose(s: Stream, g: nat, code: int): Stream {
    var s' := s.(socket := None);
    if code != POLICY_VIOLATION then ScheduleRetryFrom(s')
    else if s.authRetried then Show(s', Disconnected)
    else s'.(authRetried := true, waiting := s'.waiting + {Refresh(g)})
  }

  function Close(s: Stream, g: nat, code: int): Stream {
    var s' := s.(waiting := s.waiting - {Socket(g)});
    if g == s.generation then HandleClose(s', g, code) else s'
  }

  function ResolveRefresh(s: Stream, g: nat, ok: bool): Stream {
    var s' := s.(waiting := s.waiting - {Refresh(g)});
    if s.stopped || g != s.generation then s'
    else if ok then ConnectFrom(s')
    else Show(s', Disconnected)
  }

  function FireTimer(s: Stream): Stream { ConnectFrom(s.(timer := false)) }

  /** A socket closes once and is then silent (section 7.1.4 of RFC 6455); promises settle once. */
  predicate Enabled(s: Stream, e: Event) {
    match e
    case Started => true
    case Stopped => true
    case TokenResolved(g, _) => Token(g) in s.waiting
    case FrameArrived(g, _) => Socket(g) in s.waiting
    case Closed(g, _) => Socket(g) in s.waiting
    case RefreshResolved(g, _) => Refresh(g) in s.waiting
    case TimerFired => s.timer
  }

  function Next(s: Stream, e: Event): Stream {
    if !Enabled(s, e) then s
    else
      match e
      case Started => StartFrom(s)
      case Stopped => StopFrom(s)
      case TokenResolved(g, ok) => ResolveToken(s, g, ok)
      case FrameArrived(g, frame) => if g == s.generation then HandleFrame(s, frame) else s
      case Closed(g, code) => Close(s, g, code)
      case RefreshResolved(g, ok) => ResolveRefresh(s, g, ok)
      case TimerFired => FireTimer(s)
  }

  function After(events: seq<Event>): Stream {
    if events == [] then FRESH else Next(After(events[..|events| - 1]), events[|events| - 1])
  }

  // ---- One continuation at a time ----

  /** Everything that can still move the client on: what the current generation waits for, and the timer. */
  function Live(s: Stream): set<Continuation> {
    (set c | c in s.waiting && c.generation == s.generation) + if s.timer then {Timer(s.generation)} else {}
  }

  function LastShown(s: Stream): Option<ConnectionState> {
    if s.shown == [] then None else Some(s.shown[|s.shown| - 1])
  }

  /** What a continuation goes with: the field that holds it and the state that was shown last. */
  ghost predicate Fits(s: Stream, c: Continuation) {
    && c.generation == s.generation
    && (s.socket == if c.Socket? then Some(s.generation) else None)
    && (s.timer <==> c.Timer?)
    && (c.Token? ==> LastShown(s) == Some(Connecting))
    && (c.Timer? ==> LastShown(s) == Some(Retrying))
    && (c.Socket? ==> LastShown(s) == Some(Connecting) || LastShown(s) == Some(Connected))
    && (c.Refresh? ==> LastShown(s) == Some(Connecting) || LastShown(s) == Some(Connected))
  }

  ghost predicate Idle(s: Stream) {
    Live(s) == {} && s.socket.None? && !s.timer
  }

  ghost predicate StreamOk(s: Stream) {
    && (forall c :: c in s.waiting ==>
          c.generation <= s.generation && !c.Timer? && (c.Socket? ==> c.generation == s.generation))
    && (s.stopped ==> Idle(s) && (s.shown == [] || LastShown(s) == Some(Disconnected)))
    && (!s.stopped ==> (exists c :: Live(s) == {c} && Fits(s, c)) || (Idle(s) && LastShown(s) == Some(Disconnected)))
  }

  lemma NowLive(s: Stream, c: Continuation)
    requires forall d :: d in s.waiting && d.generation == s.generation ==> d == c
    requires if c.Timer? then s.timer && c.generation == s.generation && c !in s.waiting else c in s.waiting && !s.timer
    requires Fits(s, c)
    ensures Live(s) == {c} && Fits(s, c)
  {
  }

  lemma ConnectOk(s: Stream)
    requires forall c :: c in s.waiting ==> c.generation <= s.generation && !c.Timer? && !c.Socket?
    requires s.socket.None? && !s.timer && !s.stopped
    ensures StreamOk(ConnectFrom(s))
  {
    NowLive(ConnectFrom(s), Token(s.generation + 1));
  }

  lemma RetryOk(s: Stream)
    requires forall c :: c in s.waiting ==> c.generation < s.generation && !c.Timer? && !c.Socket?
    requires s.socket.None? && !s.stopped
    ensures StreamOk(ScheduleRetryFrom(s))
  {
    NowLive(ScheduleRetryFrom(s), Timer(s.generation));
  }

  lemma StopOk(s: Stream)
    requires StreamOk(s)
    ensures StreamOk(StopFrom(s))
  {
    forall c | c in s.waiting && c.Socket? ensures s.socket == Some(c.generation) {
      assert c in Live(s);
    }
  }

  lemma {:induction false} OnlyLive(s: Stream, c: Continuation)
    requires StreamOk(s) && c in s.waiting && c.generation == s.generation
    ensures !s.stopped && Live(s) == {c} && Fits(s, c)
    ensures forall d :: d in s.waiting && d != c ==> d.generation < s.generation && !d.Socket?
  {
    assert c in Live(s);
    forall d | d in s.waiting && d != c ensures d.generation < s.generation && !d.Socket? {
      assert d.generation == s.generation ==> d in Live(s);
    }
  }

  /** A continuation of an earlier generation, or of a stopped client, settles without any effect. */
  lemma StaleSettles(s: Stream, c: Continuation)
    requires StreamOk(s) && c in s.waiting && c.generation != s.generation
    ensures StreamOk(s.(waiting := s.waiting - {c}))
  {
    var s' := s.(waiting := s.waiting - {c});
    assert Live(s') == Live(s);
    if !s.stopped && !Idle(s) {
      var d :| Live(s) == {d} && Fits(s, d);
      assert Live(s') == {d} && Fits(s', d);
    }
  }

  lemma TokenOk(s: Stream, ok: bool)
    requires StreamOk(s) && Token(s.generation) in s.waiting
    ensures StreamOk(ResolveToken(s, s.generation, ok))
  {
    OnlyLive(s, Token(s.generation));
    if ok {
      NowLive(ResolveToken(s, s.generation, ok), Socket(s.generation));
    } else {
      RetryOk(s.(waiting := s.waiting - {Token(s.generation)}));
    }
  }

  lemma FrameOk(s: Stream, frame: Frame)
    requires StreamOk(s) && Socket(s.generation) in s.waiting
    ensures StreamOk(HandleFrame(s, frame))
  {
    OnlyLive(s, Socket(s.generation));
    NowLive(HandleFrame(s, frame), Socket(s.generation));
  }

  lemma CloseOk(s: Stream, code: int)
    requires StreamOk(s) && Socket(s.generation) in s.waiting
    ensures StreamOk(Close(s, s.generation, code))
  {
    OnlyLive(s, Socket(s.generation));
    var s' := Close(s, s.generation, code);
    if code != POLICY_VIOLATION {
      RetryOk(s.(waiting := s.waiting - {Socket(s.generation)}, socket := None));
    } else if !s.authRetried {
      NowLive(s', Refresh(s.generation));
    } else {
      assert Live(s') == {};
    }
  }

  lemma RefreshOk(s: Stream, ok: bool)
    requires StreamOk(s) && Refresh(s.generation) in s.waiting
    ensures StreamOk(ResolveRefresh(s, s.generation, ok))
  {
    OnlyLive(s, Refresh(s.generation));
    var settled := s.(waiting := s.waiting - {Refresh(s.generation)});
    if ok {
      ConnectOk(settled);
    } else {
      assert Live(Show(settled, Disconnected)) == {};
    }
  }

  lemma TimerOk(s: Stream)
    requires StreamOk(s) && s.timer
    ensures StreamOk(FireTimer(s))
  {
    assert Timer(s.generation) in Live(s);
    forall c | c in s.waiting ensures !c.Socket? {
      assert c.generation == s.generation ==> c in Live(s);
    }
    ConnectOk(s.(timer := false));
  }

  lemma StartOk(s: Stream)
    requires StreamOk(s)
    ensures StreamOk(StartFrom(s))
  {
    if s.stopped {
      forall c | c in s.waiting ensures !c.Socket? {
        assert c.generation == s.generation ==> c in Live(s);
      }
      ConnectOk(s.(stopped := false, attempt := 0, authRetried := false));
    }
  }

  lemma {:induction false} NextOk(s: Stream, e: Event)
    requires StreamOk(s)
    ensures StreamOk(Next(s, e))
  {
    if Enabled(s, e) {
      match e
      case Started => StartOk(s);
      case Stopped => StopOk(s);
      case TimerFired => TimerOk(s);
      case TokenResolved(g, ok) =>
        if g == s.generation {
          TokenOk(s, ok);
        } else {
          StaleSettles(s, Token(g));
        }
      case FrameArrived(g, frame) => FrameOk(s, frame);
      case Closed(g, code) => CloseOk(s, code);
      case RefreshResolved(g, ok) =>
        if g == s.generation {
          RefreshOk(s, ok);
        } else {
          StaleSettles(s, Refresh(g));
        }
    }
  }

  lemma {:induction false} AlwaysOk(events: seq<Event>)
    ensures StreamOk(After(events))
  {
    if events != [] {
      AlwaysOk(events[..|events| - 1]);
      NextOk(After(events[..|events| - 1]), events[|events| - 1]);
    }
  }

  /**
   * While it is not stopped, exactly one thing can move the client on, or it has given up and shows so;
   * once stopped, nothing can.
   */
  lemma {:induction false} OneContinuation(events: seq<Event>)
    ensures var s := After(events);
            && (s.stopped ==> Live(s) == {} && s.socket.None?)
            && (!s.stopped ==> |Live(s)| <= 1 && (Live(s) == {} <==> LastShown(s) == Some(Disconnected)))
            && (!s.stopped ==> (s.timer <==> LastShown(s) == Some(Retrying)))
            && (s.socket.Some? ==> Live(s) == {Socket(s.generation)})
  {
    AlwaysOk(events);
    var s := After(events);
    if !s.stopped && !Idle(s) {
      var c :| Live(s) == {c} && Fits(s, c);
    }
  }

  // ---- Stale callbacks ----

  /** The client with what it waits for left aside. */
  function Visible(s: Stream): Stream { s.(waiting := {}) }

  /** After `stop`, until the next `start`, nothing that was still pending changes or shows anything. */
  lemma {:induction false} StoppedIsSilent(events: seq<Event>, e: Event)
    requires After(events).stopped && !e.Started? && !e.Stopped?
    ensures Visible(Next(After(events), e)) == Visible(After(events))
  {
    AlwaysOk(events);
    var s := After(events);
    forall c | c in s.waiting ensures c.generation != s.generation {
      assert c.generation == s.generation ==> c in Live(s);
    }
  }

  /** Nor does anything left over from an earlier connection attempt, however late it arrives. */
  lemma {:induction false} StaleIsSilent(events: seq<Event>, e: Event)
    requires (e.TokenResolved? || e.FrameArrived? || e.Closed? || e.RefreshResolved?) &&
             e.generation != After(events).generation
    ensures Visible(Next(After(events), e)) == Visible(After(events))
  {
  }

  // ---- One refresh between two ready frames ----

  predicate IsReady(s: Stream, e: Event) {
    e.FrameArrived? && Enabled(s, e) && e.generation == s.generation && e.frame.Ready?
  }

  predicate Restarts(s: Stream, e: Event) { e.Started? && s.stopped }

  function Refreshes(s: Stream): set<Continuation> { set c | c in s.waiting && c.Refresh? }

  /** This event calls `refreshAuth`: the answer of a new refresh is waited for. */
  predicate AsksRefresh(s: Stream, e: Event) { Refreshes(Next(s, e)) - Refreshes(s) != {} }

  /** A refresh is asked for exactly when the current socket is refused and none was asked for before. */
  lemma {:induction false} AsksWhenRefused(s: Stream, e: Event)
    requires StreamOk(s)
    ensures AsksRefresh(s, e) <==>
              e.Closed? && Enabled(s, e) && e.generation == s.generation && e.code == POLICY_VIOLATION && !s.authRetried
  {
    if e.Closed? && Enabled(s, e) && e.generation == s.generation && e.code == POLICY_VIOLATION && !s.authRetried {
      OnlyLive(s, Socket(s.generation));
      assert Refresh(s.generation) in Refreshes(Next(s, e)) - Refreshes(s);
    }
  }

  /** How often `refreshAuth` was called since the last ready frame or start. */
  function RefreshesAsked(events: seq<Event>): nat {
    if events == [] then 0
    else
      var (s, e) := (After(events[..|events| - 1]), events[|events| - 1]);
      if IsReady(s, e) || Restarts(s, e) then 0
      else RefreshesAsked(events[..|events| - 1]) + if AsksRefresh(s, e) then 1 else 0
  }

  lemma {:induction false} StepCountsRefresh(s: Stream, e: Event)
    requires StreamOk(s)
    ensures IsReady(s, e) || Restarts(s, e) ==> !Next(s, e).authRetried
    ensures !IsReady(s, e) && !Restarts(s, e) ==>
              (Next(s, e).authRetried <==> s.authRetried || AsksRefresh(s, e)) && !(s.authRetried && AsksRefresh(s, e))
  {
    AsksWhenRefused(s, e);
  }

  lemma {:induction false} RefreshesOnce(events: seq<Event>)
    ensures RefreshesAsked(events) == if After(events).authRetried then 1 else 0
  {
    if events != [] {
      RefreshesOnce(events[..|events| - 1]);
      AlwaysOk(events[..|events| - 1]);
      StepCountsRefresh(After(events[..|events| - 1]), events[|events| - 1]);
    }
  }

  /** The client gives up only when the server refused it again after a refresh, or the refresh failed. */
  lemma {:induction false} GivesUpOnRefusal(events: seq<Event>, e: Event)
    requires var (s, s') := (After(events), Next(After(events), e));
             !s'.stopped && Live(s') == {} && (s.stopped || Live(s) != {})
    ensures var s := After(events);
            || (e.Closed? && e.generation == s.generation && e.code == POLICY_VIOLATION && s.authRetried &&
                 RefreshesAsked(events) == 1)
            || (e.RefreshResolved? && e.generation == s.generation && !e.ok)
  {
    AlwaysOk(events);
    AlwaysOk(events + [e]);
    assert (events + [e])[..|events|] == events;
    RefreshesOnce(events);
    var (s, s') := (After(events), Next(After(events), e));
    assert LastShown(s') == Some(Disconnected);
    assert s.stopped || LastShown(s) != Some(Disconnected);
  }

  // ---- Backoff ----

  /** A retry is scheduled by this event. */
  predicate SchedulesRetry(s: Stream, e: Event) { Next(s, e).timer && !s.timer }

  /** How many retries were scheduled since the last ready frame or start. */
  function RetriesSince(events: seq<Event>): nat {
    if events == [] then 0
    else
      var (s, e) := (After(events[..|events| - 1]), events[|events| - 1]);
      if IsReady(s, e) || Restarts(s, e) then 0
      else RetriesSince(events[..|events| - 1]) + if SchedulesRetry(s, e) then 1 else 0
  }

  lemma NoTimerWhileWaiting(s: Stream, c: Continuation)
    requires StreamOk(s) && c in s.waiting && c.generation == s.generation
    ensures !s.timer
  {
    OnlyLive(s, c);
  }

  lemma StepCountsRetry(s: Stream, e: Event)
    requires StreamOk(s)
    ensures IsReady(s, e) || Restarts(s, e) ==> Next(s, e).attempt == 0
    ensures !IsReady(s, e) && !Restarts(s, e) ==>
            Next(s, e).attempt == s.attempt + if SchedulesRetry(s, e) then 1 else 0
  {
    if Enabled(s, e) {
      match e
      case TokenResolved(g, _) => if g == s.generation { NoTimerWhileWaiting(s, Token(g)); }
      case Closed(g, _) => if g == s.generation { NoTimerWhileWaiting(s, Socket(g)); }
      case _ =>
    }
  }

  /** The attempt the delay is computed from is the number of retries since the last success. */
  lemma {:induction false} AttemptsAreRetries(events: seq<Event>)
    ensures After(events).attempt == RetriesSince(events)
  {
    if events != [] {
      AlwaysOk(events[..|events| - 1]);
      AttemptsAreRetries(events[..|events| - 1]);
      StepCountsRetry(After(events[..|events| - 1]), events[|events| - 1]);
    }
  }

  function Power(k: nat): nat { if k == 0 then 1 else 2 * Power(k - 1) }

  function Ceiling(attempt: nat): nat {
    if 1000 * Power(attempt) < 30_000 then 1000 * Power(attempt) else 30_000
  }

  /** `nextDelayMs`, for a draw between 0 and 1. */
  function NextDelay(attempt: nat, draw: real): int {
    var jittered := (draw * Ceiling(attempt) as real + 0.5).Floor;
    if jittered < 250 then 250 else jittered
  }

  lemma {:induction false} PowerGrows(k: nat)
    ensures Power(k) >= 1
  {
    if k > 0 {
      PowerGrows(k - 1);
    }
  }

  /** Every delay is at least a quarter of a second and at most its ceiling, which doubles up to half a minute. */
  lemma DelayInRange(attempt: nat, draw: real)
    requires 0.0 <= draw < 1.0
    ensures 250 <= NextDelay(attempt, draw) <= Ceiling(attempt) <= 30_000
    ensures Ceiling(attempt) >= 1000
    ensures Ceiling(attempt + 1) == if 2 * Ceiling(attempt) < 30_000 then 2 * Ceiling(attempt) else 30_000
  {
    PowerGrows(attempt);
    assert Power(attempt + 1) == 2 * Power(attempt);
    DrawBelow(draw, Ceiling(attempt));
  }

  lemma DrawBelow(draw: real, ceiling: nat)
    requires 0.0 <= draw < 1.0
    ensures 0 <= (draw * ceiling as real + 0.5).Floor <= ceiling
  {
    var c := ceiling as real;
    Product(draw, c);
    Product(1.0 - draw, c);
    assert (1.0 - draw) * c == c - draw * c;
  }

  lemma Product(a: real, b: real)
    requires a >= 0.0 && b >= 0.0
    ensures a * b >= 0.0
  {
    if a > 0.0 && b > 0.0 {
      assert a * b > 0.0;
    } else {
      assert a * b == 0.0;
    }
  }

  // ---- The client itself ----

  class BuildStream {
    var socket: Option<nat>
    var timer: bool
    var attempt: nat
    var authRetried: bool
    var stopped: bool
    var generation: nat
    ghost var waiting: set<Continuation>
    ghost var shown: seq<ConnectionState>
    ghost var forwarded: seq<string>

    ghost function View(): Stream reads this {
      Stream(socket, timer, attempt, authRetried, stopped, generation, waiting, shown, forwarded)
    }

    constructor ()
      ensures View() == FRESH
    {
      socket, timer, attempt, authRetried, stopped, generation := None, false, 0, false, true, 0;
      waiting, shown, forwarded := {}, [], [];
    }

    method OnState(state: ConnectionState)
      modifies this`shown
      ensures shown == old(shown) + [state]
    {
      shown := shown + [state];
    }

    method Start()
      modifies this
      ensures View() == Next(old(View()), Started)
    {
      if !stopped {
        return;
      }
      stopped := false;
      attempt := 0;
      authRetried := false;
      Connect();
    }

    method Stop()
      modifies this
      ensures View() == Next(old(View()), Stopped)
    {
      stopped := true;
      generation := generation + 1;
      if timer {
        timer := false;
      }
      DetachSocket();
      OnState(Disconnected);
    }

    method DetachSocket()
      modifies this`socket, this`waiting
      ensures socket.None?
      ensures waiting == if old(socket).Some? then old(waiting) - {Socket(old(socket).value)} else old(waiting)
    {
      var detached := socket;
      socket := None;
      if detached.None? {
        return;
      }
      waiting := waiting - {Socket(detached.value)};
    }

    method Connect()
      modifies this
      ensures View() == ConnectFrom(old(View()))
    {
      generation := generation + 1;
      OnState(Connecting);
      waiting := waiting + {Token(generation)};
    }

    method TokenSettled(g: nat, ok: bool)
      requires Token(g) in waiting
      modifies this
      ensures View() == Next(old(View()), TokenResolved(g, ok))
    {
      waiting := waiting - {Token(g)};
      if !ok {
        if !stopped && g == generation {
          ScheduleRetry();
        }
        return;
      }
      if stopped || g != generation {
        return;
      }
      socket := Some(g);
      waiting := waiting + {Socket(g)};
    }

    method Message(g: nat, frame: Frame)
      requires Socket(g) in waiting
      modifies this
      ensures View() == Next(old(View()), FrameArrived(g, frame))
    {
      if g != generation {
        return;
      }
      match frame
      case Unreadable =>
      case Ready =>
        attempt := 0;
        authRetried := false;
        OnState(Connected);
      case Payload(text) => forwarded := forwarded + [text];
    }

    method SocketClosed(g: nat, code: int)
      requires Socket(g) in waiting
      modifies this
      ensures View() == Next(old(View()), Closed(g, code))
    {
      waiting := waiting - {Socket(g)};
      if g == generation {
        CloseHandled(code, g);
      }
    }

    method CloseHandled(code: int, g: nat)
      modifies this
      ensures View() == HandleClose(old(View()), g, code)
    {
      socket := None;
      if code != POLICY_VIOLATION {
        ScheduleRetry();
        return;
      }
      if authRetried {
        OnState(Disconnected);
        return;
      }
      authRetried := true;
      waiting := waiting + {Refresh(g)};
    }

    method RefreshSettled(g: nat, ok: bool)
      requires Refresh(g) in waiting
      modifies this
      ensures View() == Next(old(View()), RefreshResolved(g, ok))
    {
      waiting := waiting - {Refresh(g)};
      if stopped || g != generation {
        return;
      }
      if ok {
        Connect();
      } else {
        OnState(Disconnected);
      }
    }

    method ScheduleRetry()
      modifies this
      ensures View() == ScheduleRetryFrom(old(View()))
    {
      attempt := attempt + 1;
      OnState(Retrying);
      timer := true;
    }

    method TimerElapsed()
      requires timer
      modifies this
      ensures View() == Next(old(View()), TimerFired)
    {
      timer := false;
      Connect();
    }
  }
}
