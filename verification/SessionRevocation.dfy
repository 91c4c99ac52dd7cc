/**
 * Ending login sessions: the tokens of src/bunsho/services/auth.py and the store of revoked sessions of
 * src/bunsho/db/revoked_session_store.py, a table that survives a restart and a map that does not.
 *
 * A run is any interleaving of the pieces between awaits: a revocation decodes its token and reads the
 * clock, then its transaction commits or fails, then the map is updated. The clock never goes back.
 */
module SessionRevocation {
  import opened ReviewTypes

  const SECOND: int := 1_000_000

  datatype Kind = Access | Refresh

  /** Lifetimes as the configuration allows them: minutes up to a day, days up to a year. */
  datatype Settings = Settings(accessMinutes: nat, refreshDays: nat) {
    predicate Valid() { 1 <= accessMinutes <= 1440 && 1 <= refreshDays <= 365 }

    function Lifetime(kind: Kind): Time {
      match kind
      case Access => accessMinutes * 60 * SECOND
      case Refresh => refreshDays * 86_400 * SECOND
    }
  }

  /** A signed token; its `iat` and `exp` are whole seconds, rounded down. */
  datatype Token = Token(kind: Kind, sid: string, issued: Time, iat: int, exp: int)

  function Floor(t: Time): int { t / SECOND }

  function Issue(settings: Settings, kind: Kind, sid: string, now: Time): Token {
    Token(kind, sid, now, Floor(now), Floor(now + settings.Lifetime(kind)))
  }

  function Ends(t: Token): Time { t.exp * SECOND }

  /**
   * An `exp` that is not in the future or an `iat` that is gets the token refused (sections 4.1.4 and 4.1.6 of RFC
   * 7519).
   */
  predicate InTime(t: Token, now: Time) { Ends(t) > now && t.iat * SECOND <= now }

  /** A revocation under way: what it will store. */
  datatype Pending = Pending(sid: string, expires: Time, now: Time, committed: bool)

  /** `dead` are the tokens shielded by a revocation when it completed. */
  datatype Sys = Sys(
    clock: Time,
    serving: bool,
    table: map<string, Time>,
    memory: map<string, Time>,
    pending: map<nat, Pending>,
    begun: set<nat>,
    sids: set<string>,
    tokens: set<Token>,
    dead: set<Token>)

  datatype Step =
    | Tick(passed: nat)
    | Login(sid: string, gap: nat)
    | Exchange(token: Token, gap: nat)
    | BeginRevoke(id: nat, token: Token, gap: nat)
    | Commit(id: nat)
    | FailWrite(id: nat)
    | Finish(id: nat)
    | Crash
    | Load

  const EMPTY: Sys := Sys(0, false, map[], map[], map[], {}, {}, {}, {})

  /** `_decode`: what an access or refresh token must pass to be accepted. */
  predicate Accepts(s: Sys, t: Token, expected: Kind) {
    s.serving && t in s.tokens && InTime(t, s.clock) && t.kind == expected && t.sid !in s.memory
  }

  /** Rows and entries that have lapsed are dropped. */
  function Prune(m: map<string, Time>, now: Time): (r: map<string, Time>)
    ensures forall sid :: sid in r <==> sid in m && m[sid] > now
    ensures forall sid :: sid in r ==> r[sid] == m[sid]
  {
    map sid | sid in m && m[sid] > now :: m[sid]
  }

  /** What a stored revocation leaves of the table or of memory. */
  function Revoked(m: map<string, Time>, sid: string, expires: Time, now: Time): map<string, Time> {
    Prune(m, now)[sid := expires]
  }

  /** `issue_tokens`: two tokens, each with its own reading of the clock. */
  function Mint(s: Sys, settings: Settings, sid: string, gap: nat): Sys {
    s.(clock := s.clock + gap, sids := s.sids + {sid},
       tokens := s.tokens + {Issue(settings, Access, sid, s.clock), Issue(settings, Refresh, sid, s.clock + gap)})
  }

  /** No revocation of the token's session is pending that will lapse before the token ends. */
  ghost predicate Guarded(s: Sys, t: Token) {
    forall id :: id in s.pending && s.pending[id].sid == t.sid ==> Ends(t) <= s.pending[id].expires
  }

  /** `m` refuses a token's session until the token has ended. */
  ghost predicate Holds(m: map<string, Time>, t: Token, clock: Time) {
    Ends(t) <= clock || (t.sid in m && Ends(t) <= m[t.sid])
  }

  ghost predicate Covered(s: Sys, t: Token, stored: bool) {
    t in s.tokens && Guarded(s, t) && (stored ==> Holds(s.table, t, s.clock))
  }

  /**
   * The revocation under way will end the token for good: no revocation of the session that is under way, itself
   * included, lapses before the token ends, and once it has been stored neither does what the table holds.
   */
  ghost predicate Shielded(s: Sys, id: nat, t: Token)
    requires id in s.pending
  {
    t.sid == s.pending[id].sid && Covered(s, t, s.pending[id].committed)
  }

  ghost function ShieldedBy(s: Sys, id: nat): set<Token>
    requires id in s.pending
  {
    set t | t in s.tokens && Shielded(s, id, t)
  }

  ghost predicate Enabled(s: Sys, step: Step) {
    match step
    case Tick(_) => true
    case Login(sid, _) => s.serving && sid !in s.sids
    case Exchange(t, _) => Accepts(s, t, Refresh)
    case BeginRevoke(id, t, _) => id !in s.begun && Accepts(s, t, Refresh)
    case Commit(id) => id in s.pending && !s.pending[id].committed
    case FailWrite(id) => id in s.pending && !s.pending[id].committed
    case Finish(id) => id in s.pending && s.pending[id].committed
    case Crash => true
    case Load => !s.serving
  }

  ghost function Next(s: Sys, step: Step, settings: Settings): Sys {
    if !Enabled(s, step) then s
    else
      match step
      case Tick(passed) => s.(clock := s.clock + passed)
      case Login(sid, gap) => Mint(s, settings, sid, gap)
      case Exchange(t, gap) => Mint(s, settings, t.sid, gap)
      case BeginRevoke(id, t, gap) =>
        var p := Pending(t.sid, s.clock + settings.Lifetime(Refresh), s.clock + gap, false);
        s.(clock := s.clock + gap, begun := s.begun + {id}, pending := s.pending[id := p])
      case Commit(id) =>
        var p := s.pending[id];
        s.(table := Revoked(s.table, p.sid, p.expires, p.now), pending := s.pending[id := p.(committed := true)])
      case FailWrite(id) => s.(pending := s.pending - {id})
      case Finish(id) =>
        var p := s.pending[id];
        s.(memory := Revoked(s.memory, p.sid, p.expires, p.now), pending := s.pending - {id},
            dead := s.dead + ShieldedBy(s, id))
      case Crash => s.(serving := false, memory := map[], pending := map[])
      case Load => s.(serving := true, table := Prune(s.table, s.clock), memory := Prune(s.table, s.clock))
  }

  ghost function After(s: Sys, steps: seq<Step>, settings: Settings): Sys {
    if steps == [] then s else Next(After(s, steps[..|steps| - 1], settings), steps[|steps| - 1], settings)
  }

  // ---- What every step keeps ----

  ghost predicate TokenOk(s: Sys, t: Token, lifetime: Time) {
    t.issued <= s.clock && t.iat * SECOND <= t.issued && Ends(t) <= t.issued + lifetime && t.sid in s.sids
  }

  ghost predicate PendingOk(s: Sys, id: nat)
    requires id in s.pending
  {
    id in s.begun && s.pending[id].now <= s.clock
  }

  ghost predicate DeadOk(s: Sys, t: Token) {
    Covered(s, t, true) && (s.serving ==> Holds(s.memory, t, s.clock))
  }

  ghost predicate StoreOk(s: Sys, lifetime: Time) {
    && (forall t {:trigger TokenOk(s, t, lifetime)} :: t in s.tokens ==> TokenOk(s, t, lifetime))
    && (forall id {:trigger PendingOk(s, id)} :: id in s.pending ==> PendingOk(s, id))
    && (forall t {:trigger DeadOk(s, t)} :: t in s.dead ==> DeadOk(s, t))
    && (!s.serving ==> s.pending == map[])
  }

  lemma PruneHolds(m: map<string, Time>, t: Token, now: Time, clock: Time)
    requires Holds(m, t, clock) && now <= clock
    ensures Holds(Prune(m, now), t, clock)
  {
  }

  lemma StoreHolds(m: map<string, Time>, t: Token, sid: string, expires: Time, clock: Time)
    requires if t.sid == sid then Ends(t) <= expires else Holds(m, t, clock)
    ensures Holds(m[sid := expires], t, clock)
  {
  }

  lemma KeepsTokens(s: Sys, s': Sys, lifetime: Time)
    requires StoreOk(s, lifetime) && s'.tokens == s.tokens && s.clock <= s'.clock && s.sids <= s'.sids
    ensures forall t {:trigger TokenOk(s', t, lifetime)} :: t in s'.tokens ==> TokenOk(s', t, lifetime)
  {
    forall t | t in s'.tokens ensures TokenOk(s', t, lifetime) {
      assert TokenOk(s, t, lifetime);
    }
  }

  /** Steps that add tokens, let time pass, or forget what was under way. */
  lemma QuietKeeps(s: Sys, s': Sys, lifetime: Time)
    requires StoreOk(s, lifetime) && s.clock <= s'.clock && s'.table == s.table
    requires s.tokens <= s'.tokens && s'.dead == s.dead && s.begun <= s'.begun
    requires forall t {:trigger TokenOk(s', t, lifetime)} :: t in s'.tokens ==> TokenOk(s', t, lifetime)
    requires s'.serving ==> s.serving && s'.memory == s.memory
    requires !s'.serving ==> s'.pending == map[]
    requires forall id :: id in s'.pending ==> id in s.pending && s'.pending[id] == s.pending[id]
    ensures StoreOk(s', lifetime)
  {
    forall id | id in s'.pending ensures PendingOk(s', id) {
      assert PendingOk(s, id);
    }
    forall t | t in s'.dead ensures DeadOk(s', t) {
      assert DeadOk(s, t);
    }
  }

  lemma IssueOk(settings: Settings, kind: Kind, sid: string, now: Time)
    requires settings.Valid()
    ensures var t := Issue(settings, kind, sid, now);
            && t.kind == kind && t.sid == sid && t.issued == now && now - SECOND < t.iat * SECOND <= now
            && (var lifetime := if kind == Access then settings.accessMinutes * 60 * SECOND
                                else settings.refreshDays * 86_400 * SECOND;
                Ends(t) <= now + lifetime < Ends(t) + SECOND && lifetime <= settings.Lifetime(Refresh))
  {
    FloorBelow(now + settings.Lifetime(kind));
    FloorBelow(now);
    AccessIsShorter(settings);
  }

  lemma FloorBelow(t: Time)
    ensures t - SECOND < Floor(t) * SECOND <= t
  {
  }

  lemma AccessIsShorter(settings: Settings)
    requires settings.Valid()
    ensures 0 < settings.Lifetime(Access) <= settings.Lifetime(Refresh)
  {
  }

  lemma MintKeeps(s: Sys, settings: Settings, sid: string, gap: nat)
    requires settings.Valid() && StoreOk(s, settings.Lifetime(Refresh))
    ensures StoreOk(Mint(s, settings, sid, gap), settings.Lifetime(Refresh))
  {
    var s', lifetime := Mint(s, settings, sid, gap), settings.Lifetime(Refresh);
    IssueOk(settings, Access, sid, s.clock);
    IssueOk(settings, Refresh, sid, s.clock + gap);
    forall t | t in s'.tokens ensures TokenOk(s', t, lifetime) {
      assert t in s.tokens ==> TokenOk(s, t, lifetime);
    }
    QuietKeeps(s, s', lifetime);
  }

  /** A revocation that begins now will outlast every token there is. */
  lemma BeginGuards(s: Sys, settings: Settings, id: nat, t: Token, gap: nat, u: Token)
    requires StoreOk(s, settings.Lifetime(Refresh)) && Enabled(s, BeginRevoke(id, t, gap)) && u in s.tokens &&
             Guarded(s, u)
    ensures Guarded(Next(s, BeginRevoke(id, t, gap), settings), u)
  {
    assert TokenOk(s, u, settings.Lifetime(Refresh));
  }

  lemma BeginKeeps(s: Sys, settings: Settings, id: nat, t: Token, gap: nat)
    requires StoreOk(s, settings.Lifetime(Refresh)) && Enabled(s, BeginRevoke(id, t, gap))
    ensures StoreOk(Next(s, BeginRevoke(id, t, gap), settings), settings.Lifetime(Refresh))
  {
    var s', lifetime := Next(s, BeginRevoke(id, t, gap), settings), settings.Lifetime(Refresh);
    KeepsTokens(s, s', lifetime);
    forall other | other in s'.pending ensures PendingOk(s', other) {
      assert other != id ==> PendingOk(s, other);
    }
    forall u | u in s'.dead ensures DeadOk(s', u) {
      assert DeadOk(s, u);
      BeginGuards(s, settings, id, t, gap, u);
    }
  }

  /** After a commit the table still holds every guarded token it held, and those of the session it revokes. */
  lemma CommitCovers(s: Sys, settings: Settings, id: nat, t: Token)
    requires Enabled(s, Commit(id)) && PendingOk(s, id) && Covered(s, t, t.sid != s.pending[id].sid)
    ensures Covered(Next(s, Commit(id), settings), t, true)
  {
    var p := s.pending[id];
    if t.sid != p.sid {
      PruneHolds(s.table, t, p.now, s.clock);
    }
    StoreHolds(Prune(s.table, p.now), t, p.sid, p.expires, s.clock);
    assert forall other :: other in s.pending ==>
      Next(s, Commit(id), settings).pending[other].sid == s.pending[other].sid
      && Next(s, Commit(id), settings).pending[other].expires == s.pending[other].expires;
  }

  lemma CommitKeeps(s: Sys, settings: Settings, id: nat)
    requires StoreOk(s, settings.Lifetime(Refresh)) && Enabled(s, Commit(id))
    ensures StoreOk(Next(s, Commit(id), settings), settings.Lifetime(Refresh))
  {
    var s' := Next(s, Commit(id), settings);
    KeepsTokens(s, s', settings.Lifetime(Refresh));
    assert PendingOk(s, id);
    forall other | other in s'.pending ensures PendingOk(s', other) {
      assert PendingOk(s, other);
    }
    forall t | t in s'.dead ensures DeadOk(s', t) {
      assert DeadOk(s, t);
      CommitCovers(s, settings, id, t);
    }
  }

  lemma StillGuarded(s: Sys, settings: Settings, id: nat, t: Token)
    requires Enabled(s, Commit(id)) && Guarded(s, t)
    ensures Guarded(Next(s, Commit(id), settings), t)
  {
    assert forall other :: other in s.pending ==>
      Next(s, Commit(id), settings).pending[other].sid == s.pending[other].sid
      && Next(s, Commit(id), settings).pending[other].expires == s.pending[other].expires;
  }

  lemma FinishKeeps(s: Sys, settings: Settings, id: nat)
    requires StoreOk(s, settings.Lifetime(Refresh)) && Enabled(s, Finish(id))
    ensures StoreOk(Next(s, Finish(id), settings), settings.Lifetime(Refresh))
  {
    var s', p := Next(s, Finish(id), settings), s.pending[id];
    KeepsTokens(s, s', settings.Lifetime(Refresh));
    assert PendingOk(s, id);
    forall other | other in s'.pending ensures PendingOk(s', other) {
      assert PendingOk(s, other);
    }
    forall t | t in s'.dead ensures DeadOk(s', t) {
      assert t in s.dead ==> DeadOk(s, t);
      assert t !in s.dead ==> Shielded(s, id, t);
      if t.sid != p.sid {
        PruneHolds(s.memory, t, p.now, s.clock);
      }
      StoreHolds(Prune(s.memory, p.now), t, p.sid, p.expires, s.clock);
    }
  }

  lemma LoadKeeps(s: Sys, settings: Settings)
    requires StoreOk(s, settings.Lifetime(Refresh)) && !s.serving
    ensures StoreOk(Next(s, Load, settings), settings.Lifetime(Refresh))
  {
    var s' := Next(s, Load, settings);
    KeepsTokens(s, s', settings.Lifetime(Refresh));
    forall t | t in s'.dead ensures DeadOk(s', t) {
      assert DeadOk(s, t);
      PruneHolds(s.table, t, s.clock, s.clock);
    }
  }

  lemma {:induction false} NextKeeps(s: Sys, step: Step, settings: Settings)
    requires settings.Valid() && StoreOk(s, settings.Lifetime(Refresh))
    ensures StoreOk(Next(s, step, settings), settings.Lifetime(Refresh))
  {
    if Enabled(s, step) {
      match step
      case Tick(_) =>
        KeepsTokens(s, Next(s, step, settings), settings.Lifetime(Refresh));
        QuietKeeps(s, Next(s, step, settings), settings.Lifetime(Refresh));
      case Login(sid, gap) => MintKeeps(s, settings, sid, gap);
      case Exchange(t, gap) => MintKeeps(s, settings, t.sid, gap);
      case BeginRevoke(id, t, gap) => BeginKeeps(s, settings, id, t, gap);
      case Commit(id) => CommitKeeps(s, settings, id);
      case FailWrite(_) =>
        KeepsTokens(s, Next(s, step, settings), settings.Lifetime(Refresh));
        QuietKeeps(s, Next(s, step, settings), settings.Lifetime(Refresh));
      case Finish(id) => FinishKeeps(s, settings, id);
      case Crash =>
        KeepsTokens(s, Next(s, step, settings), settings.Lifetime(Refresh));
        QuietKeeps(s, Next(s, step, settings), settings.Lifetime(Refresh));
      case Load => LoadKeeps(s, settings);
    }
  }

  lemma {:induction false} AlwaysKeeps(s: Sys, steps: seq<Step>, settings: Settings)
    requires settings.Valid() && StoreOk(s, settings.Lifetime(Refresh))
    ensures StoreOk(After(s, steps, settings), settings.Lifetime(Refresh))
    ensures s.dead <= After(s, steps, settings).dead
  {
    if steps != [] {
      AlwaysKeeps(s, steps[..|steps| - 1], settings);
      NextKeeps(After(s, steps[..|steps| - 1], settings), steps[|steps| - 1], settings);
    }
  }

  /** A token covered by a completed revocation is refused, for whatever it is used. */
  lemma DeadIsRefused(s: Sys, t: Token, expected: Kind, settings: Settings)
    requires StoreOk(s, settings.Lifetime(Refresh)) && t in s.dead
    ensures !Accepts(s, t, expected)
  {
    assert DeadOk(s, t);
  }

  /** When the entry of its session is gone, from the table or from memory, the token has ended. */
  lemma {:induction false} PrunedMeansExpired(steps: seq<Step>, settings: Settings, t: Token)
    requires settings.Valid() && t in After(EMPTY, steps, settings).dead
    requires var s := After(EMPTY, steps, settings); t.sid !in s.table || (s.serving && t.sid !in s.memory)
    ensures Ends(t) <= After(EMPTY, steps, settings).clock
  {
    AlwaysKeeps(EMPTY, steps, settings);
    assert DeadOk(After(EMPTY, steps, settings), t);
  }

  // ---- What a token is good for ----

  /** A token that is new after step `k` came with a login, or by a refresh token of its session that was in time. */
  ghost predicate MintedAt(steps: seq<Step>, settings: Settings, k: nat, t: Token)
    requires k < |steps|
  {
    var s := After(EMPTY, steps[..k], settings);
    && t !in s.tokens && t in Next(s, steps[k], settings).tokens
    && match steps[k]
       case Login(sid, _) => t.sid == sid && forall u :: u in s.tokens ==> u.sid != sid
       case Exchange(u, _) =>
         && u in s.tokens && u.kind == Refresh && u.sid == t.sid && u.iat * SECOND <= s.clock < Ends(u)
         && s.serving && u.sid !in s.memory
       case _ => false
  }

  /** Every token of every run was minted so. */
  lemma {:induction false} TokensComeFrom(steps: seq<Step>, settings: Settings, t: Token) returns (k: nat)
    requires settings.Valid() && t in After(EMPTY, steps, settings).tokens
    ensures k < |steps| && MintedAt(steps, settings, k, t)
  {
    var n := |steps| - 1;
    var s := After(EMPTY, steps[..n], settings);
    if t in s.tokens {
      k := TokensComeFrom(steps[..n], settings, t);
      assert steps[..n][..k] == steps[..k] && steps[..n][k] == steps[k];
    } else {
      k := n;
      AlwaysKeeps(EMPTY, steps[..n], settings);
      forall u | u in s.tokens ensures TokenOk(s, u, settings.Lifetime(Refresh)) {
      }
    }
  }

  /** The revocation `id` began at step `k`, by a refresh token in time, for its session and a refresh lifetime. */
  ghost predicate BegunAt(steps: seq<Step>, settings: Settings, k: nat, id: nat)
    requires k < |steps|
  {
    var s := After(EMPTY, steps[..k], settings);
    && id !in s.begun && steps[k].BeginRevoke? && steps[k].id == id
    && var u := steps[k].token;
       && u in s.tokens && u.kind == Refresh && u.iat * SECOND <= s.clock < Ends(u)
       && s.serving && u.sid !in s.memory
       && var s' := Next(s, steps[k], settings);
          && id in s'.pending && s'.pending[id].sid == u.sid && s'.pending[id].now == s'.clock
          && s'.pending[id].expires == s.clock + settings.refreshDays * 86_400 * SECOND
  }

  lemma {:induction false} RevocationsComeFrom(steps: seq<Step>, settings: Settings, id: nat) returns (k: nat)
    requires id in After(EMPTY, steps, settings).begun
    ensures k < |steps| && BegunAt(steps, settings, k, id)
  {
    var n := |steps| - 1;
    if id in After(EMPTY, steps[..n], settings).begun {
      k := RevocationsComeFrom(steps[..n], settings, id);
      assert steps[..n][..k] == steps[..k] && steps[..n][k] == steps[k];
    } else {
      k := n;
    }
  }

  /**
   * A refresh token in time whose session is not revoked in memory does get new tokens, and does begin a revocation.
   */
  lemma RefreshTokenWorks(s: Sys, settings: Settings, t: Token, gap: nat, id: nat)
    requires s.serving && t in s.tokens && t.kind == Refresh && t.iat * SECOND <= s.clock < Ends(t) &&
             t.sid !in s.memory
    ensures var s' := Next(s, Exchange(t, gap), settings);
            && s'.clock == s.clock + gap
            && s'.tokens == s.tokens + {Issue(settings, Access, t.sid, s.clock),
                 Issue(settings, Refresh, t.sid, s'.clock)}
    ensures var s' := Next(s, BeginRevoke(id, t, gap), settings);
            id !in s.begun ==> id in s'.pending && s'.pending[id].sid == t.sid && !s'.pending[id].committed
  {
  }

  /** A login begins a session of its own with its first pair of tokens. */
  lemma LoginWorks(s: Sys, settings: Settings, sid: string, gap: nat)
    requires s.serving && sid !in s.sids
    ensures var s' := Next(s, Login(sid, gap), settings);
            && s'.clock == s.clock + gap && sid in s'.sids
            && s'.tokens == s.tokens + {Issue(settings, Access, sid, s.clock), Issue(settings, Refresh, sid, s'.clock)}
  {
  }

  /** When every refresh token of a session has ended, no later step adds a token to it. */
  lemma {:induction false} SessionRunsOut(before: seq<Step>, steps: seq<Step>, settings: Settings, sid: string,
                                          t: Token)
    requires settings.Valid() && t.sid == sid && t in After(After(EMPTY, before, settings), steps, settings).tokens
    requires var s := After(EMPTY, before, settings);
             && (exists u :: u in s.tokens && u.sid == sid)
             && forall u :: u in s.tokens && u.sid == sid && u.kind == Refresh ==> Ends(u) <= s.clock
    ensures t in After(EMPTY, before, settings).tokens
  {
    var s := After(EMPTY, before, settings);
    var u :| u in s.tokens && u.sid == sid;
    AlwaysKeeps(EMPTY, before, settings);
    assert TokenOk(s, u, settings.Lifetime(Refresh));
    StaysOut(s, steps, settings, sid);
  }

  ghost predicate RunOut(s: Sys, sid: string) {
    sid in s.sids && forall u :: u in s.tokens && u.sid == sid && u.kind == Refresh ==> Ends(u) <= s.clock
  }

  lemma {:induction false} StepStaysOut(s: Sys, step: Step, settings: Settings, sid: string)
    requires RunOut(s, sid)
    ensures var s' := Next(s, step, settings);
            RunOut(s', sid) && forall t :: t in s'.tokens && t.sid == sid ==> t in s.tokens
  {
  }

  lemma {:induction false} StaysOut(s: Sys, steps: seq<Step>, settings: Settings, sid: string)
    requires RunOut(s, sid)
    ensures var s' := After(s, steps, settings);
            RunOut(s', sid) && forall t :: t in s'.tokens && t.sid == sid ==> t in s.tokens
  {
    if steps != [] {
      StaysOut(s, steps[..|steps| - 1], settings, sid);
      StepStaysOut(After(s, steps[..|steps| - 1], settings), steps[|steps| - 1], settings, sid);
    }
  }

  // ---- How a revocation goes on ----

  /** A revocation is written, then remembered; a failed write or a crash is the end of it. */
  datatype Stage = Unknown | Writing | Written | Over

  ghost function StageOf(steps: seq<Step>, settings: Settings, id: nat): Stage {
    if steps == [] then Unknown
    else
      var (s, step) := (After(EMPTY, steps[..|steps| - 1], settings), steps[|steps| - 1]);
      var stage := StageOf(steps[..|steps| - 1], settings, id);
      match step
      case BeginRevoke(other, _, _) =>
        if other == id && stage == Unknown && id in Next(s, step, settings).begun then Writing else stage
      case Commit(other) => if other == id && stage == Writing then Written else stage
      case FailWrite(other) => if other == id && stage == Writing then Over else stage
      case Finish(other) => if other == id && stage == Written then Over else stage
      case Crash => if stage == Unknown then Unknown else Over
      case _ => stage
  }

  /** In every run the revocations under way are those that are written or being written. */
  lemma {:induction false} StagesAre(steps: seq<Step>, settings: Settings, id: nat)
    ensures var (s, stage) := (After(EMPTY, steps, settings), StageOf(steps, settings, id));
            && (id in s.begun <==> stage != Unknown)
            && (id in s.pending <==> stage == Writing || stage == Written)
            && (id in s.pending ==> (s.pending[id].committed <==> stage == Written))
  {
    if steps != [] {
      StagesAre(steps[..|steps| - 1], settings, id);
    }
  }

  /** The expiry last written for a session. */
  ghost function LastWritten(steps: seq<Step>, settings: Settings, sid: string): Option<Time> {
    if steps == [] then None
    else
      var (earlier, step) := (steps[..|steps| - 1], steps[|steps| - 1]);
      var s := After(EMPTY, earlier, settings);
      if step.Commit? && StageOf(earlier, settings, step.id) == Writing
         && step.id in s.pending && s.pending[step.id].sid == sid
      then Some(s.pending[step.id].expires)
      else LastWritten(earlier, settings, sid)
  }

  /** The expiry last remembered since the last start: the one loaded then, or of a revocation completed since. */
  ghost function LastRemembered(steps: seq<Step>, settings: Settings, sid: string): Option<Time> {
    if steps == [] then None
    else
      var (earlier, step) := (steps[..|steps| - 1], steps[|steps| - 1]);
      var s := After(EMPTY, earlier, settings);
      match step
      case Crash => None
      case Load => if s.serving then LastRemembered(earlier, settings, sid) else LastWritten(earlier, settings, sid)
      case Finish(id) =>
        if StageOf(earlier, settings, id) == Written && id in s.pending && s.pending[id].sid == sid then
          Some(s.pending[id].expires)
        else LastRemembered(earlier, settings, sid)
      case _ => LastRemembered(earlier, settings, sid)
  }

  /** `m` holds the expiry, or it has lapsed. */
  ghost predicate Keeps(m: map<string, Time>, sid: string, expiry: Option<Time>, clock: Time) {
    && (sid in m ==> expiry == Some(m[sid]))
    && (sid !in m && expiry.Some? ==> expiry.value <= clock)
  }

  lemma {:induction false} RevokedKeeps(m: map<string, Time>, sid: string, last: Option<Time>, p: Pending, clock: Time)
    requires Keeps(m, sid, last, clock) && p.now <= clock
    ensures Keeps(Revoked(m, p.sid, p.expires, p.now), sid, if p.sid == sid then Some(p.expires) else last, clock)
  {
  }

  lemma {:induction false} CommitWrites(s: Sys, settings: Settings, id: nat, sid: string, last: Option<Time>)
    requires Enabled(s, Commit(id)) && PendingOk(s, id) && Keeps(s.table, sid, last, s.clock)
    ensures var s' := Next(s, Commit(id), settings);
            Keeps(s'.table, sid, if s.pending[id].sid == sid then Some(s.pending[id].expires) else last, s'.clock)
  {
    RevokedKeeps(s.table, sid, last, s.pending[id], s.clock);
  }

  lemma {:induction false} FinishRemembers(s: Sys, settings: Settings, id: nat, sid: string, last: Option<Time>)
    requires Enabled(s, Finish(id)) && PendingOk(s, id) && Keeps(s.memory, sid, last, s.clock)
    ensures var s' := Next(s, Finish(id), settings);
            Keeps(s'.memory, sid, if s.pending[id].sid == sid then Some(s.pending[id].expires) else last, s'.clock)
  {
    RevokedKeeps(s.memory, sid, last, s.pending[id], s.clock);
  }

  lemma {:induction false} OthersKeepStore(s: Sys, step: Step, settings: Settings, sid: string, last: Option<Time>)
    requires !step.Commit? || !Enabled(s, step)
    ensures var s' := Next(s, step, settings);
            Keeps(s.table, sid, last, s.clock) ==> Keeps(s'.table, sid, last, s'.clock)
  {
  }

  lemma {:induction false} TableIsLast(steps: seq<Step>, settings: Settings, sid: string)
    requires settings.Valid()
    ensures var s := After(EMPTY, steps, settings); Keeps(s.table, sid, LastWritten(steps, settings, sid), s.clock)
  {
    if steps != [] {
      var earlier, step := steps[..|steps| - 1], steps[|steps| - 1];
      var s := After(EMPTY, earlier, settings);
      TableIsLast(earlier, settings, sid);
      if step.Commit? {
        StagesAre(earlier, settings, step.id);
      }
      if step.Commit? && Enabled(s, step) {
        AlwaysKeeps(EMPTY, earlier, settings);
        CommitWrites(s, settings, step.id, sid, LastWritten(earlier, settings, sid));
      } else {
        OthersKeepStore(s, step, settings, sid, LastWritten(earlier, settings, sid));
      }
    }
  }

  lemma {:induction false} MemoryIsLast(steps: seq<Step>, settings: Settings, sid: string)
    requires settings.Valid()
    ensures var (s, last) := (After(EMPTY, steps, settings), LastRemembered(steps, settings, sid));
            Keeps(s.memory, sid, last, s.clock) && (!s.serving ==> last.None?)
  {
    if steps != [] {
      var earlier, step := steps[..|steps| - 1], steps[|steps| - 1];
      var s := After(EMPTY, earlier, settings);
      MemoryIsLast(earlier, settings, sid);
      if step.Finish? {
        StagesAre(earlier, settings, step.id);
        if Enabled(s, step) {
          AlwaysKeeps(EMPTY, earlier, settings);
          FinishRemembers(s, settings, step.id, sid, LastRemembered(earlier, settings, sid));
        }
      } else if step.Load? {
        TableIsLast(earlier, settings, sid);
      }
    }
  }

  /** The table holds the expiry last written, and memory the one last remembered, until it lapses. */
  lemma {:induction false} StoreIsLast(steps: seq<Step>, settings: Settings, sid: string)
    requires settings.Valid()
    ensures var s := After(EMPTY, steps, settings);
            && Keeps(s.table, sid, LastWritten(steps, settings, sid), s.clock)
            && Keeps(s.memory, sid, LastRemembered(steps, settings, sid), s.clock)
            && (!s.serving ==> LastRemembered(steps, settings, sid).None?)
  {
    TableIsLast(steps, settings, sid);
    MemoryIsLast(steps, settings, sid);
  }

  /** Lapsed entries go: at a start all of them, and with a revocation those that had lapsed when it began. */
  lemma LapsedGo(s: Sys, settings: Settings, id: nat, sid: string)
    ensures var s' := Next(s, Load, settings);
            !s.serving ==> s'.serving && s'.memory == s'.table && (sid in s'.table ==> s'.table[sid] > s'.clock)
    ensures Enabled(s, Commit(id)) && sid != s.pending[id].sid && sid in Next(s, Commit(id), settings).table ==>
              Next(s, Commit(id), settings).table[sid] > s.pending[id].now
    ensures Enabled(s, Finish(id)) && sid != s.pending[id].sid && sid in Next(s, Finish(id), settings).memory ==>
              Next(s, Finish(id), settings).memory[sid] > s.pending[id].now
  {
  }

  // ---- What a completed revocation ends for ever ----

  /** Whatever happens while a revocation is under way, the tokens it shields stay shielded. */
  lemma {:induction false} StepShields(s: Sys, step: Step, settings: Settings, id: nat, t: Token)
    requires StoreOk(s, settings.Lifetime(Refresh)) && id in s.pending && Shielded(s, id, t)
    requires id in Next(s, step, settings).pending
    ensures Shielded(Next(s, step, settings), id, t)
  {
    if Enabled(s, step) {
      match step
      case BeginRevoke(other, used, gap) =>
        assert PendingOk(s, id);
        BeginGuards(s, settings, other, used, gap, t);
      case Commit(other) =>
        assert PendingOk(s, other);
        if s.pending[id].committed || t.sid == s.pending[other].sid {
          CommitCovers(s, settings, other, t);
        } else {
          StillGuarded(s, settings, other, t);
        }
      case _ =>
    }
  }

  /** A revocation once begun does not begin again. */
  lemma StepBegins(s: Sys, step: Step, settings: Settings, id: nat)
    requires id in s.begun
    ensures id in Next(s, step, settings).begun && (id in Next(s, step, settings).pending ==> id in s.pending)
  {
  }

  lemma {:induction false} StaysShielded(s: Sys, steps: seq<Step>, settings: Settings, id: nat, t: Token)
    requires settings.Valid() && StoreOk(s, settings.Lifetime(Refresh)) && id in s.pending && Shielded(s, id, t)
    ensures id in After(s, steps, settings).begun
    ensures id in After(s, steps, settings).pending ==> Shielded(After(s, steps, settings), id, t)
  {
    assert PendingOk(s, id);
    if steps != [] {
      var before, step := After(s, steps[..|steps| - 1], settings), steps[|steps| - 1];
      StaysShielded(s, steps[..|steps| - 1], settings, id, t);
      AlwaysKeeps(s, steps[..|steps| - 1], settings);
      StepBegins(before, step, settings, id);
      if id in Next(before, step, settings).pending {
        StepShields(before, step, settings, id, t);
      }
    }
  }

  /**
   * Once a revocation has completed, every token it shielded at any moment while it was under way is refused for
   * ever: through any later logins, refreshes, revocations, prunes, crashes and restarts.
   */
  lemma {:induction false} RevokedForEver(settings: Settings, before: seq<Step>, id: nat, t: Token, between: seq<Step>,
                                          after: seq<Step>, expected: Kind)
    requires settings.Valid() && id in After(EMPTY, before, settings).pending
    requires Shielded(After(EMPTY, before, settings), id, t)
    requires Enabled(After(After(EMPTY, before, settings), between, settings), Finish(id))
    ensures var done := Next(After(After(EMPTY, before, settings), between, settings), Finish(id), settings);
            var s := After(done, after, settings);
            && !Accepts(s, t, expected)
            && (forall gap :: Next(s, Exchange(t, gap), settings) == s)
            && (forall other, gap :: Next(s, BeginRevoke(other, t, gap), settings) == s)
  {
    var s := After(EMPTY, before, settings);
    AlwaysKeeps(EMPTY, before, settings);
    StaysShielded(s, between, settings, id, t);
    AlwaysKeeps(s, between, settings);
    var done := Next(After(s, between, settings), Finish(id), settings);
    NextKeeps(After(s, between, settings), Finish(id), settings);
    AlwaysKeeps(done, after, settings);
    var end := After(done, after, settings);
    DeadIsRefused(end, t, expected, settings);
    DeadIsRefused(end, t, Refresh, settings);
    forall gap ensures Next(end, Exchange(t, gap), settings) == end {
    }
    forall other, gap ensures Next(end, BeginRevoke(other, t, gap), settings) == end {
    }
  }

  /** A revocation that begins shields every token of its session that no other one fails to guard. */
  lemma {:induction false} BeginShields(before: seq<Step>, settings: Settings, id: nat, used: Token, gap: nat, t: Token)
    requires settings.Valid() && Enabled(After(EMPTY, before, settings), BeginRevoke(id, used, gap))
    requires var s := After(EMPTY, before, settings); t in s.tokens && t.sid == used.sid
    ensures var s := After(EMPTY, before, settings);
            Shielded(Next(s, BeginRevoke(id, used, gap), settings), id, t) <==> Guarded(s, t)
  {
    var s := After(EMPTY, before, settings);
    AlwaysKeeps(EMPTY, before, settings);
    if Guarded(s, t) {
      BeginGuards(s, settings, id, used, gap, t);
    }
    forall other | other in s.pending ensures other != id {
      assert PendingOk(s, other);
    }
    var s' := Next(s, BeginRevoke(id, used, gap), settings);
    assert forall other :: other in s.pending ==> other in s'.pending && s'.pending[other] == s.pending[other];
  }

  /**
   * An access token handed out before a lone revocation is stored is shielded unless it ends after the revocation
   * lapses.
   */
  lemma MintShields(s: Sys, settings: Settings, id: nat, used: Token, gap: nat)
    requires id in s.pending && !s.pending[id].committed && used.sid == s.pending[id].sid &&
             Enabled(s, Exchange(used, gap))
    requires forall other :: other in s.pending && other != id ==> s.pending[other].sid != used.sid
    ensures var t := Issue(settings, Access, used.sid, s.clock);
            Shielded(Next(s, Exchange(used, gap), settings), id, t) <==> Ends(t) <= s.pending[id].expires
  {
  }

  // ---- And only those ----

  lemma {:induction false} OneMoreStep(s: Sys, steps: seq<Step>, step: Step, settings: Settings)
    ensures After(s, steps + [step], settings) == Next(After(s, steps, settings), step, settings)
  {
    assert (steps + [step])[..|steps|] == steps;
  }

  /** A session that is revoked at once, by its refresh token `t`, prunes every entry that has lapsed from memory. */
  lemma {:induction false} RevokedAtOnce(settings: Settings, s: Sys, t: Token, unused: nat)
    requires Accepts(s, t, Refresh) && unused !in s.begun
    ensures var s' := Next(Next(Next(s, BeginRevoke(unused, t, 0), settings), Commit(unused), settings), Finish(unused),
            settings);
            && s'.serving && s'.clock == s.clock && s.tokens == s'.tokens
            && forall other :: other in s'.memory ==> other == t.sid || (other in s.memory && s.memory[other] > s.clock)
  {
    var s1 := Next(s, BeginRevoke(unused, t, 0), settings);
    assert s1.pending[unused] == Pending(t.sid, s.clock + settings.Lifetime(Refresh), s.clock, false);
    var s2 := Next(s1, Commit(unused), settings);
    assert s2.pending[unused] == s1.pending[unused].(committed := true) && s2.memory == s.memory;
  }

  lemma {:induction false} FreshIsAccepted(settings: Settings, s: Sys, sid: string)
    requires settings.Valid() && s.serving && sid !in s.sids && sid !in s.memory
    ensures Accepts(Next(s, Login(sid, 0), settings), Issue(settings, Refresh, sid, s.clock), Refresh)
  {
    LoginWorks(s, settings, sid, 0);
    IssueOk(settings, Refresh, sid, s.clock);
    FloorBelow(s.clock + settings.Lifetime(Refresh));
  }

  /** Another session that is logged in and revoked prunes every entry that has lapsed from memory. */
  lemma {:induction false} OtherLogoutPrunes(settings: Settings, s: Sys, sid: string,
                                             unused: nat) returns (steps: seq<Step>)
    requires settings.Valid() && s.serving && sid !in s.sids && sid !in s.memory && unused !in s.begun && 0 <= s.clock
    ensures var s' := After(s, steps, settings);
            && s'.serving && s'.clock == s.clock && s.tokens <= s'.tokens
            && forall other :: other in s'.memory ==> other == sid || (other in s.memory && s.memory[other] > s.clock)
  {
    var t := Issue(settings, Refresh, sid, s.clock);
    var s1 := Next(s, Login(sid, 0), settings);
    FreshIsAccepted(settings, s, sid);
    assert s1.begun == s.begun && s1.memory == s.memory && s1.clock == s.clock && s.tokens <= s1.tokens;
    RevokedAtOnce(settings, s1, t, unused);
    FourSteps(s, Login(sid, 0), BeginRevoke(unused, t, 0), Commit(unused), Finish(unused), settings);
    steps := [Login(sid, 0), BeginRevoke(unused, t, 0), Commit(unused), Finish(unused)];
  }

  lemma {:induction false} AfterBoth(s: Sys, first: seq<Step>, second: seq<Step>, settings: Settings)
    ensures After(s, first + second, settings) == After(After(s, first, settings), second, settings)
  {
    if second == [] {
      assert first + second == first;
    } else {
      var n := |second| - 1;
      assert (first + second)[..|first + second| - 1] == first + second[..n];
      AfterBoth(s, first, second[..n], settings);
    }
  }

  /** A revocation under way can be stored, if it is not yet, and is then ready to complete. */
  lemma StoreFirst(settings: Settings, s: Sys, id: nat) returns (steps: seq<Step>)
    requires id in s.pending
    ensures var s' := After(s, steps, settings);
            && Enabled(s', Finish(id)) && s'.pending == s.pending[id := s.pending[id].(committed := true)]
            && s' == s.(table := s'.table, pending := s'.pending)
            && (s.pending[id].committed ==> s' == s)
  {
    steps := [];
    if !s.pending[id].committed {
      OneMoreStep(s, [], Commit(id), settings);
      steps := [] + [Commit(id)];
    }
  }

  /**
   * Memory lapses before a token it refuses ends, and once another session's logout has pruned it the token is back.
   */
  lemma MemoryLapses(settings: Settings, s: Sys, t: Token, sid: string, unused: nat) returns (steps: seq<Step>)
    requires settings.Valid() && s.serving && t in s.tokens && InTime(t, s.clock) && t.sid in s.sids && 0 <= s.clock
    requires t.sid in s.memory ==> s.memory[t.sid] < Ends(t)
    requires sid !in s.sids && sid !in s.memory && unused !in s.begun
    ensures Accepts(After(s, steps, settings), t, t.kind)
  {
    var wait := if t.sid in s.memory && s.memory[t.sid] > s.clock then s.memory[t.sid] - s.clock else 0;
    OneMoreStep(s, [], Tick(wait), settings);
    var first := [] + [Tick(wait)];
    var second := OtherLogoutPrunes(settings, After(s, first, settings), sid, unused);
    AfterBoth(s, first, second, settings);
    steps := first + second;
  }

  /** The table lapses before a token ends, and after a restart the token is back. */
  lemma TableLapses(settings: Settings, s: Sys, t: Token) returns (steps: seq<Step>)
    requires t in s.tokens && InTime(t, s.clock) && (t.sid in s.table ==> s.table[t.sid] < Ends(t))
    ensures Accepts(After(s, steps, settings), t, t.kind)
  {
    var wait := if t.sid in s.table && s.table[t.sid] > s.clock then s.table[t.sid] - s.clock else 0;
    OneMoreStep(s, [], Tick(wait), settings);
    steps := [] + [Tick(wait)];
    OneMoreStep(s, steps, Crash, settings);
    steps := steps + [Crash];
    OneMoreStep(s, steps, Load, settings);
    steps := steps + [Load];
  }

  /** A revocation whose expiry is before the token's end completes last. */
  lemma ShorterCompletesLast(settings: Settings, s: Sys, shorter: nat, t: Token, sid: string, unused: nat)
    returns (steps: seq<Step>)
    requires settings.Valid() && s.serving && t in s.tokens && InTime(t, s.clock) && t.sid in s.sids && 0 <= s.clock
    requires shorter in s.pending && s.pending[shorter].sid == t.sid && s.pending[shorter].expires < Ends(t)
    requires sid !in s.sids && sid !in s.memory && unused !in s.begun
    ensures Accepts(After(s, steps, settings), t, t.kind)
  {
    var first := StoreFirst(settings, s, shorter);
    var s1 := After(s, first, settings);
    OneMoreStep(s, first, Finish(shorter), settings);
    var s2 := After(s, first + [Finish(shorter)], settings);
    assert s2.memory.Keys <= s.memory.Keys + {t.sid};
    var second := MemoryLapses(settings, s2, t, sid, unused);
    AfterBoth(s, first + [Finish(shorter)], second, settings);
    steps := first + [Finish(shorter)] + second;
  }

  /** What is known of a reached state and a token in time, and two names not yet used. */
  ghost predicate Reached(s: Sys, id: nat, t: Token, lifetime: Time, sid: string, unused: nat) {
    && StoreOk(s, lifetime) && 0 <= s.clock && id in s.pending
    && t in s.tokens && t.sid == s.pending[id].sid && InTime(t, s.clock)
    && sid !in s.sids && sid !in s.memory && unused !in s.begun
  }

  lemma UnguardedReadmitted(settings: Settings, s: Sys, id: nat, t: Token, shorter: nat, sid: string, unused: nat)
    returns (between: seq<Step>, after: seq<Step>)
    requires settings.Valid() && Reached(s, id, t, settings.Lifetime(Refresh), sid, unused)
    requires shorter in s.pending && s.pending[shorter].sid == t.sid && s.pending[shorter].expires < Ends(t)
    ensures Enabled(After(s, between, settings), Finish(id))
    ensures Accepts(After(Next(After(s, between, settings), Finish(id), settings), after, settings), t, t.kind)
  {
    assert TokenOk(s, t, settings.Lifetime(Refresh));
    between := StoreFirst(settings, s, id);
    var done := Next(After(s, between, settings), Finish(id), settings);
    assert done.memory.Keys <= s.memory.Keys + {t.sid};
    if shorter == id {
      after := MemoryLapses(settings, done, t, sid, unused);
    } else {
      after := ShorterCompletesLast(settings, done, shorter, t, sid, unused);
    }
  }

  lemma UnheldReadmitted(settings: Settings, s: Sys, id: nat, t: Token) returns (after: seq<Step>)
    requires id in s.pending && s.pending[id].committed
    requires t in s.tokens && InTime(t, s.clock) && (t.sid in s.table ==> s.table[t.sid] < Ends(t))
    ensures Enabled(s, Finish(id)) && Accepts(After(Next(s, Finish(id), settings), after, settings), t, t.kind)
  {
    after := TableLapses(settings, Next(s, Finish(id), settings), t);
  }

  lemma {:induction false} UnusedString(known: set<string>) returns (unused: string)
    ensures forall x :: x in known ==> |x| < |unused|
  {
    unused := "";
    if known != {} {
      var x :| x in known;
      unused := UnusedString(known - {x});
      if |x| >= |unused| {
        unused := x + "+";
      }
    }
  }

  lemma {:induction false} UnusedNumber(known: set<nat>) returns (unused: nat)
    ensures forall x :: x in known ==> x < unused
  {
    unused := 0;
    if known != {} {
      var x :| x in known;
      unused := UnusedNumber(known - {x});
      assert forall y :: y in known ==> y == x || y in known - {x};
      if x >= unused {
        unused := x + 1;
      }
    }
  }

  /**
   * A token of the session that is in time and not shielded: this revocation can complete, and later the token
   * be accepted again.
   */
  lemma {:induction false} UnshieldedReadmitted(settings: Settings, before: seq<Step>, id: nat, t: Token)
    returns (between: seq<Step>, after: seq<Step>)
    requires settings.Valid()
    requires var s := After(EMPTY, before, settings);
             && id in s.pending && t in s.tokens && t.sid == s.pending[id].sid && InTime(t, s.clock) &&
                  !Shielded(s, id, t)
    ensures var s := After(EMPTY, before, settings);
            && Enabled(After(s, between, settings), Finish(id))
            && Accepts(After(Next(After(s, between, settings), Finish(id), settings), after, settings), t, t.kind)
  {
    var s := After(EMPTY, before, settings);
    AlwaysKeeps(EMPTY, before, settings);
    ClockStarts(before, settings);
    if Guarded(s, t) {
      between := [];
      after := UnheldReadmitted(settings, s, id, t);
    } else {
      var shorter :| shorter in s.pending && s.pending[shorter].sid == t.sid && s.pending[shorter].expires < Ends(t);
      var sid := UnusedString(s.sids + s.memory.Keys);
      var unused := UnusedNumber(s.begun);
      between, after := UnguardedReadmitted(settings, s, id, t, shorter, sid, unused);
    }
  }

  /** However things go on, once the revocation has completed the token is not accepted. */
  ghost predicate EndsForEver(s: Sys, id: nat, t: Token, settings: Settings) {
    forall between, after :: Enabled(After(s, between, settings), Finish(id)) ==>
      !Accepts(After(Next(After(s, between, settings), Finish(id), settings), after, settings), t, t.kind)
  }

  /**
   * At every moment of every run: of the session's tokens in time, the revocation ends those for ever that it shields.
   */
  lemma {:induction false} ShieldedIff(settings: Settings, before: seq<Step>, id: nat, t: Token)
    requires settings.Valid()
    requires var s := After(EMPTY, before, settings);
             id in s.pending && t in s.tokens && t.sid == s.pending[id].sid && InTime(t, s.clock)
    ensures var s := After(EMPTY, before, settings); EndsForEver(s, id, t, settings) <==> Shielded(s, id, t)
  {
    var s := After(EMPTY, before, settings);
    if Shielded(s, id, t) {
      forall between, after | Enabled(After(s, between, settings), Finish(id))
        ensures !Accepts(After(Next(After(s, between, settings), Finish(id), settings), after, settings), t, t.kind)
      {
        RevokedForEver(settings, before, id, t, between, after, t.kind);
      }
    } else {
      var between, after := UnshieldedReadmitted(settings, before, id, t);
    }
  }

  const SHORTEST: Settings := Settings(1, 1)

  const FIRST_ACCESS: Token := Token(Access, "a", 0, 0, 60)
  const FIRST_REFRESH: Token := Token(Refresh, "a", 0, 0, 86_400)
  const NEXT_ACCESS: Token := Token(Access, "a", 2 * SECOND, 2, 62)
  const NEXT_REFRESH: Token := Token(Refresh, "a", 2 * SECOND, 2, 86_402)

  lemma IssuedTokens()
    ensures Issue(SHORTEST, Access, "a", 0) == FIRST_ACCESS && Issue(SHORTEST, Refresh, "a", 0) == FIRST_REFRESH
    ensures Issue(SHORTEST, Access, "a", 2 * SECOND) == NEXT_ACCESS
    ensures Issue(SHORTEST, Refresh, "a", 2 * SECOND) == NEXT_REFRESH
  {
  }

  /** Two seconds into a revocation that is not yet stored. */
  const REVOKING: Sys := Sys(2 * SECOND, true, map[], map[], map[0 := Pending("a", 86_400 * SECOND, 0, false)], {0},
                             {"a"}, {FIRST_ACCESS, FIRST_REFRESH}, {})

  lemma {:induction false} FourSteps(s: Sys, a: Step, b: Step, c: Step, d: Step, settings: Settings)
    ensures After(s, [a, b, c, d], settings)
            == Next(Next(Next(Next(s, a, settings), b, settings), c, settings), d, settings)
  {
    OneMoreStep(s, [], a, settings);
    OneMoreStep(s, [a], b, settings);
    OneMoreStep(s, [a, b], c, settings);
    OneMoreStep(s, [a, b, c], d, settings);
    assert [] + [a] == [a] && [a] + [b] == [a, b] && [a, b] + [c] == [a, b, c] && [a, b, c] + [d] == [a, b, c, d];
  }

  lemma {:induction false} FirstLogin(s: Sys)
    requires s == EMPTY.(serving := true)
    ensures Next(s, Login("a", 0), SHORTEST) == s.(sids := {"a"}, tokens := {FIRST_ACCESS, FIRST_REFRESH})
  {
    IssuedTokens();
  }

  lemma {:induction false} FirstRevocation(s: Sys)
    requires s == EMPTY.(serving := true, sids := {"a"}, tokens := {FIRST_ACCESS, FIRST_REFRESH})
    ensures Next(s, BeginRevoke(0, FIRST_REFRESH, 0), SHORTEST)
         == s.(begun := {0}, pending := map[0 := Pending("a", 86_400 * SECOND, 0, false)])
  {
    assert Accepts(s, FIRST_REFRESH, Refresh);
  }

  lemma {:induction false} RevokingIsReached()
    ensures After(EMPTY, [Load, Login("a", 0), BeginRevoke(0, FIRST_REFRESH, 0), Tick(2 * SECOND)], SHORTEST)
            == REVOKING
  {
    FourSteps(EMPTY, Load, Login("a", 0), BeginRevoke(0, FIRST_REFRESH, 0), Tick(2 * SECOND), SHORTEST);
    var s1 := Next(EMPTY, Load, SHORTEST);
    assert s1 == EMPTY.(serving := true);
    FirstLogin(s1);
    FirstRevocation(Next(s1, Login("a", 0), SHORTEST));
  }

  /** A refresh in that moment: the new access token is shielded, and the new refresh token, as much in time, is not. */
  lemma {:induction false} RefreshedWhileRevoking()
    ensures Enabled(REVOKING, Exchange(FIRST_REFRESH, 0))
    ensures var s := Next(REVOKING, Exchange(FIRST_REFRESH, 0), SHORTEST);
            && 0 in s.pending && {NEXT_ACCESS, NEXT_REFRESH} <= s.tokens
            && InTime(NEXT_ACCESS, s.clock) && InTime(NEXT_REFRESH, s.clock)
            && Shielded(s, 0, NEXT_ACCESS) && !Shielded(s, 0, NEXT_REFRESH)
  {
    IssuedTokens();
    var s := Next(REVOKING, Exchange(FIRST_REFRESH, 0), SHORTEST);
    assert s.tokens == REVOKING.tokens + {NEXT_ACCESS, NEXT_REFRESH};
    assert s.pending[0].expires < Ends(NEXT_REFRESH);
  }

  /** A second revocation in that moment, by the new refresh token. */
  const OVERLAPPING: seq<Step> := [Load, Login("a", 0), BeginRevoke(0, FIRST_REFRESH, 0), Tick(2 * SECOND)]
                                  + [Exchange(FIRST_REFRESH, 0)] + [BeginRevoke(1, NEXT_REFRESH, 0)]

  lemma {:induction false} OverlappingIsReached()
    ensures var s := Next(REVOKING, Exchange(FIRST_REFRESH, 0), SHORTEST);
            && Enabled(s, BeginRevoke(1, NEXT_REFRESH, 0))
            && After(EMPTY, OVERLAPPING, SHORTEST) == Next(s, BeginRevoke(1, NEXT_REFRESH, 0), SHORTEST)
  {
    RefreshedWhileRevoking();
    RevokingIsReached();
    var four := [Load, Login("a", 0), BeginRevoke(0, FIRST_REFRESH, 0), Tick(2 * SECOND)];
    OneMoreStep(EMPTY, four, Exchange(FIRST_REFRESH, 0), SHORTEST);
    OneMoreStep(EMPTY, four + [Exchange(FIRST_REFRESH, 0)], BeginRevoke(1, NEXT_REFRESH, 0), SHORTEST);
  }

  /**
   * The second revocation is of a token issued before it began and lapses no earlier than the token ends; but the
   * first one is still under way and lapses before, so the token can be accepted after the second has completed.
   */
  lemma {:induction false} OverlappingRevocations()
    ensures var s := After(EMPTY, OVERLAPPING, SHORTEST);
            && 1 in s.pending && NEXT_REFRESH in s.tokens && NEXT_REFRESH.sid == s.pending[1].sid
            && NEXT_REFRESH.issued <= s.pending[1].now && Ends(NEXT_REFRESH) <= s.pending[1].expires
            && InTime(NEXT_REFRESH, s.clock)
            && !Shielded(s, 1, NEXT_REFRESH) && !EndsForEver(s, 1, NEXT_REFRESH, SHORTEST)
  {
    OverlappingIsReached();
    RefreshedWhileRevoking();
    var s := After(EMPTY, OVERLAPPING, SHORTEST);
    assert s.pending[0] == REVOKING.pending[0] && s.pending[0].expires < Ends(NEXT_REFRESH);
    ShieldedIff(SHORTEST, OVERLAPPING, 1, NEXT_REFRESH);
  }

  lemma {:induction false} ClockStarts(steps: seq<Step>, settings: Settings)
    ensures 0 <= After(EMPTY, steps, settings).clock
  {
    if steps != [] {
      ClockStarts(steps[..|steps| - 1], settings);
    }
  }

  // ---- The store ----

  class RevokedSessionStore {
    var table: map<string, Time>
    var expiry: map<string, Time>

    constructor (table: map<string, Time>)
      ensures this.table == table && expiry == map[]
    {
      this.table := table;
      expiry := map[];
    }

    method LoadRows(now: Time)
      modifies this
      ensures table == Prune(old(table), now) && expiry == table
    {
      table := map sid | sid in table && table[sid] > now :: table[sid];
      expiry := table;
    }

    method IsRevoked(sid: string) returns (revoked: bool)
      ensures revoked <==> sid in expiry
    {
      revoked := sid in expiry;
    }

    /** The transaction of `revoke`: a failed write changes nothing. */
    method WriteRevocation(sid: string, expires: Time, now: Time, fails: bool) returns (ok: bool)
      modifies this`table
      ensures ok == !fails && table == if fails then old(table) else Revoked(old(table), sid, expires, now)
    {
      if fails {
        return false;
      }
      var pruned := map known | known in table && table[known] > now :: table[known];
      table := pruned[sid := expires];
      return true;
    }

    /** The rest of `revoke`, once the transaction has committed. */
    method RememberRevocation(sid: string, expires: Time, now: Time)
      modifies this`expiry
      ensures expiry == Revoked(old(expiry), sid, expires, now)
    {
      expiry := map known | known in expiry && expiry[known] > now :: expiry[known];
      expiry := expiry[sid := expires];
    }
  }
}
