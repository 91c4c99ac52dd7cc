/**
 * The login session of one browser tab (frontend/src/auth/session.ts) and the refreshes its API calls
 * share (frontend/src/api/client.ts), with working storage.
 */
module BrowserSessions {
  import opened ReviewTypes

  /** An access token counts as expired this many milliseconds early. */
  const EXPIRY_MARGIN: int := 30_000

  datatype TokenPair = TokenPair(access: string, refresh: string, expiresIn: int)

  datatype Answer = Granted(pair: TokenPair, now: int) | Rejected | Broken

  /** A call of `refreshOnce`: the epoch it began in, and whether its request is still unanswered. */
  datatype RefreshCall = RefreshCall(epoch: nat, waiting: bool)

  datatype InFlight = InFlight(epoch: nat, id: nat)

  /** `notified` lists the epochs whose end the listeners were told. */
  datatype Session = Session(access: Option<string>, expiresAt: int, epoch: nat, stored: Option<string>,
                             notified: seq<nat>)

  datatype Tab = Tab(session: Session, inFlight: Option<InFlight>, calls: map<nat, RefreshCall>)

  datatype Step =
    | Login(pair: TokenPair, now: int)
    | Logout
    | Refresh(id: nat)
    | Answered(id: nat, answer: Answer)
    | Finally(id: nat)

  function SetTokens(s: Session, pair: TokenPair, now: int, expected: Option<nat>): Session {
    if expected.Some? && expected.value != s.epoch then s
    else s.(access := Some(pair.access), expiresAt := now + pair.expiresIn * 1000, stored := Some(pair.refresh))
  }

  function Clear(s: Session): Session {
    s.(epoch := s.epoch + 1, access := None, expiresAt := 0, stored := None)
  }

  function Expire(s: Session, expected: nat): Session {
    if expected != s.epoch then s else Clear(s).(notified := s.notified + [s.epoch])
  }

  /** `refreshSession`: join the refresh of this epoch, or begin one; without a stored token it ends at once. */
  function RefreshSession(t: Tab, id: nat): Tab {
    var epoch := t.session.epoch;
    if t.inFlight.Some? && t.inFlight.value.epoch == epoch then t
    else
      Tab(if t.session.stored.None? then Expire(t.session, epoch) else t.session,
          Some(InFlight(epoch, id)), t.calls[id := RefreshCall(epoch, t.session.stored.Some?)])
  }

  function Settle(s: Session, epoch: nat, answer: Answer): Session {
    match answer
    case Granted(pair, now) => SetTokens(s, pair, now, Some(epoch))
    case Rejected => Expire(s, epoch)
    case Broken => s
  }

  predicate Enabled(t: Tab, step: Step) {
    match step
    case Login(_, _) => true
    case Logout => true
    case Refresh(id) => id !in t.calls
    case Answered(id, _) => id in t.calls && t.calls[id].waiting
    case Finally(id) => id in t.calls && !t.calls[id].waiting
  }

  function Next(t: Tab, step: Step): Tab {
    if !Enabled(t, step) then t
    else
      match step
      case Login(pair, now) => t.(session := SetTokens(t.session, pair, now, None))
      case Logout => t.(session := Clear(t.session))
      case Refresh(id) => RefreshSession(t, id)
      case Answered(id, answer) =>
        t.(session := Settle(t.session, t.calls[id].epoch, answer),
            calls := t.calls[id := t.calls[id].(waiting := false)])
      case Finally(id) => if t.inFlight.Some? && t.inFlight.value.id == id then t.(inFlight := None) else t
  }

  /** A page that has just loaded, with whatever refresh token the last visit left. */
  function Loaded(stored: Option<string>): Tab {
    Tab(Session(None, 0, 0, stored, []), None, map[])
  }

  function After(t: Tab, steps: seq<Step>): Tab {
    if steps == [] then t else Next(After(t, steps[..|steps| - 1]), steps[|steps| - 1])
  }

  // ---- At most one refresh of the current epoch ----

  ghost predicate CallOk(t: Tab, id: nat)
    requires id in t.calls
  {
    && t.calls[id].epoch <= t.session.epoch
    && (t.calls[id].waiting && t.calls[id].epoch == t.session.epoch ==>
         t.inFlight == Some(InFlight(t.session.epoch, id)))
  }

  ghost predicate TabOk(t: Tab) {
    && (forall id {:trigger CallOk(t, id)} :: id in t.calls ==> CallOk(t, id))
    && (t.inFlight.Some? ==> t.inFlight.value.id in t.calls)
    && (forall i :: 0 <= i < |t.session.notified| ==> t.session.notified[i] < t.session.epoch)
    && (forall i, j :: 0 <= i < j < |t.session.notified| ==> t.session.notified[i] < t.session.notified[j])
  }

  lemma {:induction false} NextOk(t: Tab, step: Step)
    requires TabOk(t)
    ensures TabOk(Next(t, step))
    ensures t.session.epoch <= Next(t, step).session.epoch
    ensures forall id :: id in t.calls ==>
            id in Next(t, step).calls && Next(t, step).calls[id].epoch == t.calls[id].epoch
  {
    var t' := Next(t, step);
    forall id | id in t'.calls ensures CallOk(t', id) {
      if id in t.calls {
        assert CallOk(t, id);
      }
    }
  }

  lemma {:induction false} AfterOk(t: Tab, steps: seq<Step>)
    requires TabOk(t)
    ensures TabOk(After(t, steps))
    ensures t.session.epoch <= After(t, steps).session.epoch
    ensures forall id :: id in t.calls ==>
            id in After(t, steps).calls && After(t, steps).calls[id].epoch == t.calls[id].epoch
  {
    if steps != [] {
      AfterOk(t, steps[..|steps| - 1]);
      NextOk(After(t, steps[..|steps| - 1]), steps[|steps| - 1]);
    }
  }

  lemma LoadedOk(stored: Option<string>)
    ensures TabOk(Loaded(stored))
  {
  }

  /** However refreshes, logouts and logins interleave, two unanswered refreshes are not of the current epoch. */
  lemma {:induction false} OneRefresh(stored: Option<string>, steps: seq<Step>, a: nat, b: nat)
    requires var t := After(Loaded(stored), steps);
             && a in t.calls && t.calls[a] == RefreshCall(t.session.epoch, true)
             && b in t.calls && t.calls[b] == RefreshCall(t.session.epoch, true)
    ensures a == b
  {
    LoadedOk(stored);
    AfterOk(Loaded(stored), steps);
    var t := After(Loaded(stored), steps);
    assert CallOk(t, a) && CallOk(t, b);
  }

  /** The listeners are told at most once of the end of an epoch, in order. */
  lemma {:induction false} ToldOncePerEpoch(stored: Option<string>, steps: seq<Step>, i: nat, j: nat)
    requires i < j < |After(Loaded(stored), steps).session.notified|
    ensures var s := After(Loaded(stored), steps).session; s.notified[i] < s.notified[j] < s.epoch
  {
    LoadedOk(stored);
    AfterOk(Loaded(stored), steps);
  }

  /** They are told exactly when the session ends otherwise than by a logout. */
  lemma ToldWhenItEnds(t: Tab, step: Step)
    ensures var (s, s') := (t.session, Next(t, step).session);
            s'.notified == if s'.epoch != s.epoch && !step.Logout? then s.notified + [s.epoch] else s.notified
  {
  }

  // ---- Which calls share a refresh ----

  /** The refreshes that began and whose `finally` has not run. */
  function Unfinished(t: Tab, steps: seq<Step>): set<nat> {
    if steps == [] then {}
    else
      var (before, after, step) := (After(t, steps[..|steps| - 1]), After(t, steps), steps[|steps| - 1]);
      var earlier := Unfinished(t, steps[..|steps| - 1]);
      match step
      case Refresh(id) => if id !in before.calls && id in after.calls then earlier + {id} else earlier
      case Finally(id) => if id in before.calls && !before.calls[id].waiting then earlier - {id} else earlier
      case _ => earlier
  }

  ghost predicate Shares(t: Tab, unfinished: set<nat>) {
    && unfinished <= t.calls.Keys
    && (t.inFlight.Some? ==>
          t.inFlight.value.id in unfinished && t.calls[t.inFlight.value.id].epoch == t.inFlight.value.epoch)
    && (forall id :: id in unfinished && t.calls[id].epoch == t.session.epoch ==>
          t.inFlight == Some(InFlight(t.session.epoch, id)))
  }

  lemma {:induction false} SharesAlways(stored: Option<string>, steps: seq<Step>)
    ensures Shares(After(Loaded(stored), steps), Unfinished(Loaded(stored), steps))
  {
    if steps != [] {
      var before := steps[..|steps| - 1];
      SharesAlways(stored, before);
      LoadedOk(stored);
      AfterOk(Loaded(stored), before);
      assert forall id :: id in After(Loaded(stored), before).calls ==> CallOk(After(Loaded(stored), before), id);
    }
  }

  /**
   * A refresh begins a request of its own exactly when no unfinished one is of the current epoch; else it joins that.
   */
  lemma {:induction false} BeginsWhenNoneRuns(stored: Option<string>, steps: seq<Step>, id: nat)
    requires id !in After(Loaded(stored), steps).calls
    ensures var t := After(Loaded(stored), steps);
            var t' := Next(t, Refresh(id));
            && (id in t'.calls <==>
                  forall other :: other in Unfinished(Loaded(stored), steps) ==>
                    other in t.calls && t.calls[other].epoch != t.session.epoch)
            && (id in t'.calls ==> t'.calls[id] == RefreshCall(t.session.epoch, t.session.stored.Some?))
            && (id !in t'.calls ==> t' == t)
  {
    SharesAlways(stored, steps);
  }

  /** A request is answered once: a second answer changes nothing, and its call can finish. */
  lemma AnsweredOnce(t: Tab, id: nat, first: Answer, second: Answer)
    requires Enabled(t, Answered(id, first))
    ensures var t' := Next(t, Answered(id, first)); Next(t', Answered(id, second)) == t' && Enabled(t', Finally(id))
  {
  }

  // ---- A late answer ----

  /**
   * A refresh that was unanswered when the session ended, by a logout or otherwise, stores nothing and
   * ends nothing when its answer comes, whatever happened in between.
   */
  lemma {:induction false} LateAnswerDropped(stored: Option<string>, before: seq<Step>, ending: Step,
                                             between: seq<Step>, id: nat, answer: Answer)
    requires var t := After(Loaded(stored), before);
             && id in t.calls && t.calls[id].waiting && Next(t, ending).session.epoch != t.session.epoch
    ensures var t := After(Next(After(Loaded(stored), before), ending), between);
            Next(t, Answered(id, answer)).session == t.session
  {
    var t := After(Loaded(stored), before);
    LoadedOk(stored);
    AfterOk(Loaded(stored), before);
    assert CallOk(t, id);
    NextOk(t, ending);
    AfterOk(Next(t, ending), between);
  }

  /** The session ends by a logout, by a rejection of a refresh of its own epoch, or for want of a refresh token. */
  lemma OnlyTheseEnd(t: Tab, step: Step)
    ensures Next(t, step).session.epoch != t.session.epoch <==>
      || step.Logout?
      || (step.Answered? && Enabled(t, step) && step.answer.Rejected? && t.calls[step.id].epoch == t.session.epoch)
      || (step.Refresh? && Enabled(t, step) && t.session.stored.None?
          && !(t.inFlight.Some? && t.inFlight.value.epoch == t.session.epoch))
    ensures Next(t, step).session.epoch != t.session.epoch ==>
            Next(t, step).session == Clear(t.session).(notified := Next(t, step).session.notified)
  {
  }

  // ---- Which token is in use ----

  /** `getAccessToken`: none that expires within the margin. */
  function Usable(s: Session, now: int): Option<string> {
    if s.access.Some? && now < s.expiresAt - EXPIRY_MARGIN then s.access else None
  }

  datatype Grant = Grant(pair: TokenPair, at: int)

  /** The pair the session was last given, by a login or by a refresh of its own epoch, since it last ended. */
  function LastGrant(t: Tab, steps: seq<Step>): Option<Grant> {
    if steps == [] then None
    else
      var (before, step) := (After(t, steps[..|steps| - 1]), steps[|steps| - 1]);
      if Next(before, step).session.epoch != before.session.epoch then None
      else
        match step
        case Login(pair, now) => Some(Grant(pair, now))
        case Answered(id, Granted(pair, now)) =>
          if Enabled(before, step) && before.calls[id].epoch == before.session.epoch then Some(Grant(pair, now))
          else LastGrant(t, steps[..|steps| - 1])
        case _ => LastGrant(t, steps[..|steps| - 1])
  }

  ghost predicate Holds(s: Session, grant: Option<Grant>) {
    match grant
    case None => s.access.None?
    case Some(Grant(pair, at)) =>
      s.access == Some(pair.access) && s.stored == Some(pair.refresh) && s.expiresAt == at + pair.expiresIn * 1000
  }

  lemma {:induction false} SessionHoldsGrant(stored: Option<string>, steps: seq<Step>)
    ensures Holds(After(Loaded(stored), steps).session, LastGrant(Loaded(stored), steps))
  {
    if steps != [] {
      SessionHoldsGrant(stored, steps[..|steps| - 1]);
    }
  }

  /**
   * The token in use is that of the last pair granted since the session ended, until half a minute before it expires.
   */
  lemma {:induction false} UsableIsLastGranted(stored: Option<string>, steps: seq<Step>, now: int)
    ensures Usable(After(Loaded(stored), steps).session, now)
         == match LastGrant(Loaded(stored), steps)
            case None => None
            case Some(Grant(pair, at)) => if now < at + pair.expiresIn * 1000 - EXPIRY_MARGIN then Some(pair.access)
                else None
  {
    SessionHoldsGrant(stored, steps);
  }

  /** The stored refresh token is of the same pair; before the first one it is what the page found, until the end. */
  lemma {:induction false} StoredIsLastGranted(stored: Option<string>, steps: seq<Step>)
    ensures var s := After(Loaded(stored), steps).session;
            s.stored == match LastGrant(Loaded(stored), steps)
                        case Some(grant) => Some(grant.pair.refresh)
                        case None => if s.epoch == 0 then stored else None
  {
    if steps != [] {
      StoredIsLastGranted(stored, steps[..|steps| - 1]);
    }
  }

  // ---- No token after the end of a session ----

  ghost predicate SignedOut(t: Tab) {
    && t.session.access.None? && t.session.stored.None?
    && forall id :: id in t.calls && t.calls[id].waiting ==> t.calls[id].epoch < t.session.epoch
  }

  lemma {:induction false} StaysSignedOut(t: Tab, steps: seq<Step>)
    requires TabOk(t) && SignedOut(t) && forall i :: 0 <= i < |steps| ==> !steps[i].Login?
    ensures SignedOut(After(t, steps)) && TabOk(After(t, steps))
  {
    if steps != [] {
      var before := After(t, steps[..|steps| - 1]);
      StaysSignedOut(t, steps[..|steps| - 1]);
      NextOk(before, steps[|steps| - 1]);
    }
  }

  /** Once the session ended there is no token, in memory or stored, until a login stores one. */
  lemma {:induction false} NoTokenUntilLogin(stored: Option<string>, before: seq<Step>, ending: Step, after: seq<Step>)
    requires var t := After(Loaded(stored), before); Next(t, ending).session.epoch != t.session.epoch
    requires forall i :: 0 <= i < |after| ==> !after[i].Login?
    ensures var s := After(Next(After(Loaded(stored), before), ending), after).session; s.access.None? && s.stored.None?
  {
    var t := After(Loaded(stored), before);
    LoadedOk(stored);
    AfterOk(Loaded(stored), before);
    NextOk(t, ending);
    OnlyTheseEnd(t, ending);
    forall id | id in Next(t, ending).calls && Next(t, ending).calls[id].waiting
      ensures Next(t, ending).calls[id].epoch < Next(t, ending).session.epoch
    {
      if id in t.calls {
        assert CallOk(t, id);
      }
    }
    StaysSignedOut(Next(t, ending), after);
  }

  // ---- The module variables ----

  class BrowserSession {
    var accessToken: Option<string>
    var accessExpiresAt: int
    var epoch: nat
    var storedRefreshToken: Option<string>
    var refreshInFlight: Option<InFlight>
    ghost var notified: seq<nat>
    ghost var calls: map<nat, RefreshCall>

    ghost function State(): Session reads this { Session(accessToken, accessExpiresAt, epoch, storedRefreshToken,
                         notified) }

    ghost function View(): Tab reads this { Tab(State(), refreshInFlight, calls) }

    constructor (stored: Option<string>)
      ensures View() == Loaded(stored)
    {
      accessToken, accessExpiresAt, epoch, storedRefreshToken := None, 0, 0, stored;
      refreshInFlight, notified, calls := None, [], map[];
    }

    method GetAccessToken(now: int) returns (token: Option<string>)
      ensures token == Usable(State(), now)
    {
      if accessToken.Some? && now < accessExpiresAt - EXPIRY_MARGIN {
        return accessToken;
      }
      return None;
    }

    method StoreTokens(pair: TokenPair, now: int, expected: Option<nat>) returns (kept: bool)
      modifies this`accessToken, this`accessExpiresAt, this`storedRefreshToken
      ensures State() == SetTokens(old(State()), pair, now, expected)
      ensures kept <==> expected.None? || expected.value == epoch
    {
      if expected.Some? && expected.value != epoch {
        return false;
      }
      accessToken := Some(pair.access);
      accessExpiresAt := now + pair.expiresIn * 1000;
      storedRefreshToken := Some(pair.refresh);
      return true;
    }

    method ClearSession()
      modifies this`epoch, this`accessToken, this`accessExpiresAt, this`storedRefreshToken
      ensures State() == Clear(old(State()))
    {
      epoch := epoch + 1;
      accessToken := None;
      accessExpiresAt := 0;
      storedRefreshToken := None;
    }

    method ExpireSession(expected: nat)
      modifies this`epoch, this`accessToken, this`accessExpiresAt, this`storedRefreshToken, this`notified
      ensures State() == Expire(old(State()), expected)
    {
      if expected != epoch {
        return;
      }
      ghost var ended := epoch;
      ClearSession();
      notified := notified + [ended];
    }

    /** `refreshSession`; the new call is known as `id`. */
    method StartRefresh(id: nat) returns (joined: bool)
      requires id !in calls
      modifies this
      ensures View() == Next(old(View()), Refresh(id))
      ensures joined <==> old(refreshInFlight).Some? && old(refreshInFlight).value.epoch == old(epoch)
    {
      var current := epoch;
      if refreshInFlight.Some? && refreshInFlight.value.epoch == current {
        return true;
      }
      calls := calls[id := RefreshCall(current, storedRefreshToken.Some?)];
      if storedRefreshToken.None? {
        ExpireSession(current);
      }
      refreshInFlight := Some(InFlight(current, id));
      return false;
    }

    /** The rest of `refreshOnce`, when its request is answered. */
    method FinishRefresh(id: nat, began: nat, answer: Answer) returns (ok: bool)
      requires id in calls && calls[id] == RefreshCall(began, true)
      modifies this
      ensures View() == Next(old(View()), Answered(id, answer))
      ensures ok <==> answer.Granted? && began == old(epoch)
    {
      calls := calls[id := RefreshCall(began, false)];
      match answer
      case Granted(pair, now) => ok := StoreTokens(pair, now, Some(began));
      case Rejected =>
        ExpireSession(began);
        ok := false;
      case Broken => ok := false;
    }

    method RefreshFinally(id: nat)
      requires id in calls && !calls[id].waiting
      modifies this`refreshInFlight
      ensures View() == Next(old(View()), Finally(id))
    {
      if refreshInFlight.Some? && refreshInFlight.value.id == id {
        refreshInFlight := None;
      }
    }
  }
}
