/**
 * Closing the sockets of a session that ends: the registry of src/bunsho/orchestration/session_sockets.py,
 * the stream handlers that use it (src/bunsho/api/routers/ws.py) and the logout that closes them
 * (src/bunsho/orchestration/session_logout.py).
 */
module SocketRegistry {
  import opened SessionRevocation

  /** The sockets of a session; one without an entry has none. */
  function Of(bySid: map<string, set<nat>>, sid: string): set<nat> {
    if sid in bySid then bySid[sid] else {}
  }

  function Registered(bySid: map<string, set<nat>>, sid: string, socket: nat): map<string, set<nat>> {
    bySid[sid := Of(bySid, sid) + {socket}]
  }

  function Unregistered(bySid: map<string, set<nat>>, sid: string, socket: nat): map<string, set<nat>> {
    if sid !in bySid then bySid
    else if bySid[sid] - {socket} == {} then bySid - {sid}
    else bySid[sid := bySid[sid] - {socket}]
  }

  /** What closing one socket comes to; only a cancellation stops the loop. */
  datatype CloseOutcome = Closed | Gone | Failed

  class SessionSockets {
    var bySid: map<string, set<nat>>

    constructor ()
      ensures bySid == map[]
    {
      bySid := map[];
    }

    method Register(sid: string, socket: nat)
      modifies this
      ensures bySid == Registered(old(bySid), sid, socket)
    {
      if sid !in bySid {
        bySid := bySid[sid := {}];
      }
      bySid := bySid[sid := bySid[sid] + {socket}];
    }

    method Unregister(sid: string, socket: nat)
      modifies this
      ensures bySid == Unregistered(old(bySid), sid, socket)
    {
      if sid !in bySid {
        return;
      }
      bySid := bySid[sid := bySid[sid] - {socket}];
      if bySid[sid] == {} {
        bySid := bySid - {sid};
      }
    }

    /**
     * `close_session`: every socket the session had when the list was taken is asked to close, once,
     * however many of the closes fail. `asked` is what was asked, in order.
     */
    method CloseSession(sid: string, outcome: nat -> CloseOutcome) returns (count: nat, warnings: nat,
                        ghost asked: seq<nat>)
      ensures count == |Of(bySid, sid)| == |asked|
      ensures forall socket :: socket in asked <==> socket in Of(bySid, sid)
      ensures forall i, j :: 0 <= i < j < |asked| ==> asked[i] != asked[j]
      ensures warnings <= count && (warnings == 0 <==> forall socket :: socket in Of(bySid, sid) ==>
              !outcome(socket).Failed?)
    {
      var sockets := Of(bySid, sid);
      var rest := sockets;
      asked, warnings := [], 0;
      while rest != {}
        invariant rest <= sockets && |asked| + |rest| == |sockets|
        invariant forall socket :: socket in asked <==> socket in sockets - rest
        invariant forall i, j :: 0 <= i < j < |asked| ==> asked[i] != asked[j]
        invariant warnings <= |asked| && (warnings == 0 <==> forall socket :: socket in sockets - rest ==>
                  !outcome(socket).Failed?)
      {
        var socket :| socket in rest;
        assert socket !in asked && sockets - (rest - {socket}) == (sockets - rest) + {socket};
        asked := asked + [socket];
        if outcome(socket).Failed? {
          warnings := warnings + 1;
        }
        rest := rest - {socket};
      }
      count := |sockets|;
    }
  }

  // ---- Handlers and logouts ----

  /** A stream handler: the token it authenticated with, and whether it still runs. */
  datatype Handler = Handler(token: Token, live: bool)

  /** `lists` are the sockets each completed logout set out to close. */
  datatype Hub = Hub(auth: Sys, bySid: map<string, set<nat>>, handlers: map<nat, Handler>, lists: map<nat, set<nat>>)

  datatype HubStep =
    | Auth(step: Step)
    | Authenticate(socket: nat, token: Token)
    | End(socket: nat)
    | CompleteLogout(id: nat)

  /**
   * A handler registers in the piece of work in which its token is accepted, and unregisters in the one in
   * which it ends; a logout takes its list in the piece of work in which its revocation completes.
   */
  ghost predicate HubEnabled(h: Hub, step: HubStep) {
    match step
    case Auth(step) => !step.Finish? && !step.Crash? && Enabled(h.auth, step)
    case Authenticate(socket, t) => socket !in h.handlers && Accepts(h.auth, t, Access)
    case End(socket) => socket in h.handlers && h.handlers[socket].live
    case CompleteLogout(id) => id !in h.lists && Enabled(h.auth, Finish(id))
  }

  ghost function HubNext(h: Hub, step: HubStep, settings: Settings): Hub {
    if !HubEnabled(h, step) then h
    else
      match step
      case Auth(step) => h.(auth := Next(h.auth, step, settings))
      case Authenticate(socket, t) =>
        h.(bySid := Registered(h.bySid, t.sid, socket), handlers := h.handlers[socket := Handler(t, true)])
      case End(socket) =>
        var handler := h.handlers[socket];
        h.(bySid := Unregistered(h.bySid, handler.token.sid, socket),
            handlers := h.handlers[socket := handler.(live := false)])
      case CompleteLogout(id) =>
        h.(auth := Next(h.auth, Finish(id), settings), lists := h.lists[id := Of(h.bySid, h.auth.pending[id].sid)])
  }

  ghost function HubAfter(h: Hub, steps: seq<HubStep>, settings: Settings): Hub {
    if steps == [] then h else HubNext(HubAfter(h, steps[..|steps| - 1], settings), steps[|steps| - 1], settings)
  }

  ghost function LiveOf(h: Hub, sid: string): set<nat> {
    set socket | socket in h.handlers && h.handlers[socket].live && h.handlers[socket].token.sid == sid
  }

  /** The registry lists exactly the live handlers, and keeps no empty sets. */
  ghost predicate HubOk(h: Hub) {
    && (forall sid {:trigger LiveOf(h, sid)} :: Of(h.bySid, sid) == LiveOf(h, sid))
    && (forall sid :: sid in h.bySid ==> h.bySid[sid] != {})
  }

  lemma HubNextOk(h: Hub, step: HubStep, settings: Settings)
    requires HubOk(h)
    ensures HubOk(HubNext(h, step, settings))
  {
    var h' := HubNext(h, step, settings);
    forall sid ensures Of(h'.bySid, sid) == LiveOf(h', sid) {
      assert Of(h.bySid, sid) == LiveOf(h, sid);
    }
  }

  lemma {:induction false} HubAlwaysOk(h: Hub, steps: seq<HubStep>, settings: Settings)
    requires settings.Valid() && HubOk(h) && StoreOk(h.auth, settings.Lifetime(Refresh))
    ensures HubOk(HubAfter(h, steps, settings)) &&
            StoreOk(HubAfter(h, steps, settings).auth, settings.Lifetime(Refresh))
    ensures h.auth.dead <= HubAfter(h, steps, settings).auth.dead
  {
    if steps != [] {
      var before := HubAfter(h, steps[..|steps| - 1], settings);
      HubAlwaysOk(h, steps[..|steps| - 1], settings);
      HubNextOk(before, steps[|steps| - 1], settings);
      match steps[|steps| - 1]
      case Auth(step) => NextKeeps(before.auth, step, settings);
      case Authenticate(_, _) =>
      case End(_) =>
      case CompleteLogout(id) => NextKeeps(before.auth, Finish(id), settings);
    }
  }

  /** A service that has just started: its store loaded, no socket open. */
  ghost predicate JustStarted(h: Hub, settings: Settings) {
    StoreOk(h.auth, settings.Lifetime(Refresh)) && h.bySid == map[] && h.handlers == map[] && h.lists == map[]
  }

  lemma StartedOk(h: Hub, settings: Settings)
    requires JustStarted(h, settings)
    ensures HubOk(h)
  {
  }

  lemma {:induction false} OneMoreHubStep(h: Hub, steps: seq<HubStep>, step: HubStep, settings: Settings)
    ensures HubAfter(h, steps + [step], settings) == HubNext(HubAfter(h, steps, settings), step, settings)
  {
    assert (steps + [step])[..|steps|] == steps;
  }

  lemma TokensStay(h: Hub, step: HubStep, settings: Settings)
    ensures h.auth.tokens <= HubNext(h, step, settings).auth.tokens
  {
  }

  /** In every run a handler serves an access token, one that was issued. */
  lemma {:induction false} HandlersHaveAccess(h: Hub, steps: seq<HubStep>, settings: Settings, socket: nat)
    requires h.handlers == map[] && socket in HubAfter(h, steps, settings).handlers
    ensures var (end, t) := (HubAfter(h, steps, settings), HubAfter(h, steps, settings).handlers[socket].token);
            t.kind == Access && t in end.auth.tokens
  {
    var before, step := HubAfter(h, steps[..|steps| - 1], settings), steps[|steps| - 1];
    if socket in before.handlers {
      HandlersHaveAccess(h, steps[..|steps| - 1], settings, socket);
      TokensStay(before, step, settings);
    }
  }

  /** And an access token in time, of a session that is not revoked in memory, is served and its socket listed. */
  lemma AccessTokenWorks(h: Hub, settings: Settings, socket: nat, t: Token)
    requires h.auth.serving && t in h.auth.tokens && t.kind == Access && t.iat * SECOND <= h.auth.clock < Ends(t)
    requires t.sid !in h.auth.memory && socket !in h.handlers
    ensures var h' := HubNext(h, Authenticate(socket, t), settings);
            socket in h'.handlers && h'.handlers[socket] == Handler(t, true) && socket in Of(h'.bySid, t.sid)
  {
  }

  /**
   * When a logout takes its list, the list is every live handler of the session, at that moment no token of
   * the session is accepted any more, and of the tokens its revocation shields, those handed out while it was
   * under way among them, none ever will be.
   */
  lemma LogoutMissesNoSocket(h: Hub, steps: seq<HubStep>, id: nat, later: seq<HubStep>, settings: Settings)
    requires settings.Valid() && JustStarted(h, settings) &&
             HubEnabled(HubAfter(h, steps, settings), CompleteLogout(id))
    ensures var (at, p) := (HubAfter(h, steps, settings), HubAfter(h, steps, settings).auth.pending[id]);
            var done := HubNext(at, CompleteLogout(id), settings);
            && done.lists[id] == LiveOf(done, p.sid)
            && (forall socket: nat, t: Token :: t.sid == p.sid ==> !HubEnabled(done, Authenticate(socket, t)))
            && forall socket: nat, t: Token :: t in ShieldedBy(at.auth, id) ==>
                 !HubEnabled(HubAfter(done, later, settings), Authenticate(socket, t))
  {
    StartedOk(h, settings);
    HubAlwaysOk(h, steps, settings);
    var at := HubAfter(h, steps, settings);
    var p, done := at.auth.pending[id], HubNext(at, CompleteLogout(id), settings);
    assert Of(at.bySid, p.sid) == LiveOf(at, p.sid);
    assert LiveOf(done, p.sid) == LiveOf(at, p.sid);
    HubNextOk(at, CompleteLogout(id), settings);
    NextKeeps(at.auth, Finish(id), settings);
    HubAlwaysOk(done, later, settings);
    forall socket: nat, t: Token | t in ShieldedBy(at.auth, id)
      ensures !HubEnabled(HubAfter(done, later, settings), Authenticate(socket, t))
    {
      DeadIsRefused(HubAfter(done, later, settings).auth, t, Access, settings);
    }
  }

  /** So once every socket on the list has been closed and its handler ended, no handler runs on a shielded token. */
  lemma {:induction false} NoHandlerSurvives(h: Hub, steps: seq<HubStep>, id: nat, later: seq<HubStep>,
                                             settings: Settings, socket: nat)
    requires settings.Valid() && JustStarted(h, settings) &&
             HubEnabled(HubAfter(h, steps, settings), CompleteLogout(id))
    requires var done := HubNext(HubAfter(h, steps, settings), CompleteLogout(id), settings);
             var end := HubAfter(done, later, settings);
             socket in end.handlers && end.handlers[socket].token in ShieldedBy(HubAfter(h, steps, settings).auth, id)
    ensures var done := HubNext(HubAfter(h, steps, settings), CompleteLogout(id), settings);
            HubAfter(done, later, settings).handlers[socket].live ==> socket in done.lists[id]
  {
    var at := HubAfter(h, steps, settings);
    var done := HubNext(at, CompleteLogout(id), settings);
    StartedOk(h, settings);
    HubAlwaysOk(h, steps, settings);
    NextKeeps(at.auth, Finish(id), settings);
    LogoutMissesNoSocket(h, steps, id, later, settings);
    HubNextOk(at, CompleteLogout(id), settings);
    StaysKnown(done, later, settings, socket, ShieldedBy(at.auth, id));
  }

  /** A handler on a dead token was there before, and one that is live now was live then. */
  lemma {:induction false} StaysKnown(h: Hub, steps: seq<HubStep>, settings: Settings, socket: nat, dead: set<Token>)
    requires settings.Valid() && HubOk(h) && StoreOk(h.auth, settings.Lifetime(Refresh)) && dead <= h.auth.dead
    requires socket in HubAfter(h, steps, settings).handlers &&
             HubAfter(h, steps, settings).handlers[socket].token in dead
    ensures socket in h.handlers && h.handlers[socket].token == HubAfter(h, steps, settings).handlers[socket].token
    ensures HubAfter(h, steps, settings).handlers[socket].live ==> h.handlers[socket].live
  {
    if steps != [] {
      var n := |steps| - 1;
      var before := HubAfter(h, steps[..n], settings);
      HubAlwaysOk(h, steps[..n], settings);
      if steps[n].Authenticate? && steps[n].token in dead {
        DeadIsRefused(before.auth, steps[n].token, Access, settings);
      }
      StaysKnown(h, steps[..n], settings, socket, dead);
    }
  }
}
