/**
 * What the reconnecting client (frontend/src/realtime/BuildStream.ts) is to anyone who watches it: a protocol of six
 * phases, without sockets, timers and promises. Module BuildStreams carries it out.
 */
module StreamProtocol {
  import opened ReviewTypes
  import opened BuildStreams

  datatype Phase = Off | AskingToken | Open | Backoff | Refreshing | GivenUp

  /** `attempt` counts the retries in a row; `refreshed` is whether the session was refreshed since it last worked. */
  datatype Client = Client(phase: Phase, generation: nat, attempt: nat, refreshed: bool, shown: seq<ConnectionState>,
                           forwarded: seq<string>)

  const NEW_CLIENT: Client := Client(Off, 0, 0, false, [], [])

  function Enter(c: Client, phase: Phase, state: ConnectionState): Client {
    c.(phase := phase, shown := c.shown + [state])
  }

  function Connect(c: Client): Client { Enter(c.(generation := c.generation + 1), AskingToken, Connecting) }

  function Retry(c: Client): Client { Enter(c.(attempt := c.attempt + 1), Backoff, Retrying) }

  /** Only what belongs to the phase and to the connection of the moment has an effect. */
  function React(c: Client, e: Event): Client {
    match e
    case Started => if c.phase == Off then Connect(c.(attempt := 0, refreshed := false)) else c
    case Stopped => Enter(c.(generation := c.generation + 1), Off, Disconnected)
    case TimerFired => if c.phase == Backoff then Connect(c) else c
    case TokenResolved(g, ok) =>
      if c.phase != AskingToken || g != c.generation then c
      else if ok then c.(phase := Open)
      else Retry(c)
    case FrameArrived(g, frame) =>
      if c.phase != Open || g != c.generation then c
      else
        (match frame
         case Unreadable => c
         case Ready => Enter(c.(attempt := 0, refreshed := false), Open, Connected)
         case Payload(text) => c.(forwarded := c.forwarded + [text]))
    case Closed(g, code) =>
      if c.phase != Open || g != c.generation then c
      else if code != 1008 then Retry(c)
      else if c.refreshed then Enter(c, GivenUp, Disconnected)
      else c.(phase := Refreshing, refreshed := true)
    case RefreshResolved(g, ok) =>
      if c.phase != Refreshing || g != c.generation then c
      else if ok then Connect(c)
      else Enter(c, GivenUp, Disconnected)
  }

  function Protocol(events: seq<Event>): Client {
    if events == [] then NEW_CLIENT else React(Protocol(events[..|events| - 1]), events[|events| - 1])
  }

  /** What the fields of the client hold in each phase. */
  ghost predicate InPhase(s: Stream, phase: Phase) {
    match phase
    case Off => s.stopped && Idle(s)
    case AskingToken => !s.stopped && Live(s) == {Token(s.generation)} && s.socket.None? && !s.timer
    case Open => !s.stopped && Live(s) == {Socket(s.generation)} && s.socket == Some(s.generation) && !s.timer
    case Backoff => !s.stopped && Live(s) == {Timer(s.generation)} && s.socket.None? && s.timer
    case Refreshing => !s.stopped && Live(s) == {Refresh(s.generation)} && s.socket.None? && !s.timer
    case GivenUp => !s.stopped && Idle(s)
  }

  ghost predicate CarriesOut(s: Stream, c: Client) {
    && s.generation == c.generation && s.attempt == c.attempt && s.authRetried == c.refreshed
    && s.shown == c.shown && s.forwarded == c.forwarded && InPhase(s, c.phase)
  }

  /** In each phase one kind of continuation of the current generation is waited for. */
  lemma WaitsFor(s: Stream, phase: Phase)
    requires StreamOk(s) && InPhase(s, phase)
    ensures Token(s.generation) in s.waiting <==> phase == AskingToken
    ensures Socket(s.generation) in s.waiting <==> phase == Open
    ensures Refresh(s.generation) in s.waiting <==> phase == Refreshing
    ensures s.timer <==> phase == Backoff
  {
    assert Token(s.generation) in Live(s) <==> Token(s.generation) in s.waiting;
    assert Socket(s.generation) in Live(s) <==> Socket(s.generation) in s.waiting;
    assert Refresh(s.generation) in Live(s) <==> Refresh(s.generation) in s.waiting;
  }

  ghost predicate Marked(s: Stream, phase: Phase) {
    match phase
    case Off => s.stopped
    case AskingToken => Token(s.generation) in s.waiting
    case Open => Socket(s.generation) in s.waiting
    case Backoff => !s.stopped && s.timer
    case Refreshing => Refresh(s.generation) in s.waiting
    case GivenUp => !s.stopped && LastShown(s) == Some(Disconnected)
  }

  /** The phase can be read off what is waited for. */
  lemma {:induction false} PhaseIs(s: Stream, phase: Phase)
    requires StreamOk(s) && Marked(s, phase)
    ensures InPhase(s, phase)
  {
    match phase
    case Off =>
    case AskingToken => OnlyLive(s, Token(s.generation));
    case Open => OnlyLive(s, Socket(s.generation));
    case Backoff =>
    case Refreshing => OnlyLive(s, Refresh(s.generation));
    case GivenUp =>
  }

  lemma {:induction false} CountersFollow(s: Stream, c: Client, e: Event)
    requires StreamOk(s) && CarriesOut(s, c)
    ensures var (s', c') := (Next(s, e), React(c, e));
            s'.generation == c'.generation && s'.attempt == c'.attempt && s'.authRetried == c'.refreshed
  {
    WaitsFor(s, c.phase);
  }

  lemma {:induction false} OutputFollows(s: Stream, c: Client, e: Event)
    requires StreamOk(s) && CarriesOut(s, c)
    ensures Next(s, e).shown == React(c, e).shown && Next(s, e).forwarded == React(c, e).forwarded
  {
    WaitsFor(s, c.phase);
  }

  lemma {:induction false} SocketMarks(s: Stream, c: Client, e: Event)
    requires StreamOk(s) && CarriesOut(s, c) && (e.FrameArrived? || e.Closed?)
    ensures Marked(Next(s, e), React(c, e).phase)
  {
    WaitsFor(s, c.phase);
    if c.phase == GivenUp {
      GivenUpShowsIt(s);
    }
  }

  lemma {:induction false} PromiseMarks(s: Stream, c: Client, e: Event)
    requires StreamOk(s) && CarriesOut(s, c) && (e.TokenResolved? || e.RefreshResolved?)
    ensures Marked(Next(s, e), React(c, e).phase)
  {
    WaitsFor(s, c.phase);
    if c.phase == GivenUp {
      GivenUpShowsIt(s);
    }
  }

  lemma {:induction false} CallMarks(s: Stream, c: Client, e: Event)
    requires StreamOk(s) && CarriesOut(s, c) && (e.Started? || e.Stopped? || e.TimerFired?)
    ensures Marked(Next(s, e), React(c, e).phase)
  {
    WaitsFor(s, c.phase);
    if c.phase == GivenUp {
      GivenUpShowsIt(s);
    }
  }

  lemma {:induction false} GivenUpShowsIt(s: Stream)
    requires StreamOk(s) && !s.stopped && Idle(s)
    ensures LastShown(s) == Some(Disconnected)
  {
  }

  lemma {:induction false} PhaseFollows(s: Stream, c: Client, e: Event)
    requires StreamOk(s) && CarriesOut(s, c)
    ensures InPhase(Next(s, e), React(c, e).phase)
  {
    NextOk(s, e);
    if e.FrameArrived? || e.Closed? {
      SocketMarks(s, c, e);
    } else if e.TokenResolved? || e.RefreshResolved? {
      PromiseMarks(s, c, e);
    } else {
      CallMarks(s, c, e);
    }
    PhaseIs(Next(s, e), React(c, e).phase);
  }

  lemma {:induction false} StepCarriesOut(s: Stream, c: Client, e: Event)
    requires StreamOk(s) && CarriesOut(s, c)
    ensures CarriesOut(Next(s, e), React(c, e))
  {
    CountersFollow(s, c, e);
    OutputFollows(s, c, e);
    PhaseFollows(s, c, e);
  }

  /** The client shows and forwards exactly what the protocol says, whatever arrives in whatever order. */
  lemma {:induction false} FollowsProtocol(events: seq<Event>)
    ensures CarriesOut(After(events), Protocol(events))
  {
    if events != [] {
      FollowsProtocol(events[..|events| - 1]);
      AlwaysOk(events[..|events| - 1]);
      StepCarriesOut(After(events[..|events| - 1]), Protocol(events[..|events| - 1]), events[|events| - 1]);
    }
  }

  // ---- Two consequences, in terms of the sockets ----

  /** The frame arrives on the socket that is open then. */
  predicate OnOpenSocket(s: Stream, e: Event) { e.FrameArrived? && s.socket == Some(e.generation) }

  /** The texts that arrived on the socket open at the time, in order. */
  function TextsArrived(events: seq<Event>): seq<string> {
    if events == [] then []
    else
      var (s, e) := (After(events[..|events| - 1]), events[|events| - 1]);
      TextsArrived(events[..|events| - 1]) + if OnOpenSocket(s, e) && e.frame.Payload? then [e.frame.text] else []
  }

  lemma {:induction false} SocketIsOpen(events: seq<Event>)
    ensures var c := Protocol(events);
            After(events).socket == if c.phase == Open then Some(c.generation) else None
  {
    FollowsProtocol(events);
  }

  lemma ReactForwards(c: Client, e: Event)
    ensures React(c, e).forwarded == c.forwarded +
              if c.phase == Open && e.FrameArrived? && e.generation == c.generation && e.frame.Payload?
              then [e.frame.text] else []
  {
  }

  /** Exactly these reach the application. */
  lemma {:induction false} ForwardsWhatArrives(events: seq<Event>)
    ensures After(events).forwarded == Protocol(events).forwarded == TextsArrived(events)
  {
    FollowsProtocol(events);
    if events != [] {
      ForwardsWhatArrives(events[..|events| - 1]);
      SocketIsOpen(events[..|events| - 1]);
      ReactForwards(Protocol(events[..|events| - 1]), events[|events| - 1]);
    }
  }

  /** Whether a ready frame arrived on the socket that is open. */
  function ReadyHere(events: seq<Event>): bool {
    if events == [] then false
    else
      var (s, e) := (After(events[..|events| - 1]), events[|events| - 1]);
      if OnOpenSocket(s, e) && e.frame.Ready? then true
      else if After(events).socket != s.socket then false
      else ReadyHere(events[..|events| - 1])
  }

  ghost predicate ShowsBy(c: Client, ready: bool) {
    && (c.phase == AskingToken ==> c.shown != [] && c.shown[|c.shown| - 1] == Connecting)
    && (c.phase == Open ==> c.shown != [] && c.shown[|c.shown| - 1] == if ready then Connected else Connecting)
  }

  lemma ReactShows(c: Client, e: Event, ready: bool, ready': bool)
    requires ShowsBy(c, ready) && (ready ==> c.phase == Open)
    requires ready' ==
               ((c.phase == Open && e.FrameArrived? && e.generation == c.generation && e.frame.Ready?)
                || (ready && React(c, e).phase == Open && React(c, e).generation == c.generation))
    ensures ShowsBy(React(c, e), ready') && (ready' ==> React(c, e).phase == Open)
  {
  }

  lemma {:induction false} ShowsReady(events: seq<Event>)
    ensures ShowsBy(Protocol(events), ReadyHere(events)) && (ReadyHere(events) ==> Protocol(events).phase == Open)
  {
    if events != [] {
      var before := events[..|events| - 1];
      ShowsReady(before);
      SocketIsOpen(before);
      SocketIsOpen(events);
      ReactShows(Protocol(before), events[|events| - 1], ReadyHere(before), ReadyHere(events));
    }
  }

  /** From a ready frame until its socket closes or the client stops, the connection is shown, and not before. */
  lemma {:induction false} ShowsConnected(events: seq<Event>)
    ensures var s := After(events);
            && (s.socket.Some? ==> LastShown(s) == Some(if ReadyHere(events) then Connected else Connecting))
            && (ReadyHere(events) ==> s.socket.Some?)
  {
    FollowsProtocol(events);
    SocketIsOpen(events);
    ShowsReady(events);
  }
}
