/**
 * The sliding-window throttle of failed logins (src/bunsho/services/login_throttle.py) and the way
 * the login endpoint uses it (src/bunsho/api/routers/auth.py).
 */
module LoginThrottle {
  import opened ReviewTypes

  const PRUNE_THRESHOLD: nat := 1024

  /** The failures later than a horizon. */
  function After(h: seq<Time>, horizon: Time): seq<Time> {
    if h == [] then [] else (if h[0] > horizon then [h[0]] else []) + After(h[1..], horizon)
  }

  ghost predicate Ordered(h: seq<Time>) {
    forall i, j :: 0 <= i < j < |h| ==> h[i] <= h[j]
  }

  /** When the failures up to number `n` are too old and the others are not, the others are left. */
  lemma {:induction false} AfterDrops(h: seq<Time>, n: nat, horizon: Time)
    requires n <= |h| && forall i :: 0 <= i < |h| ==> (h[i] > horizon <==> i >= n)
    ensures After(h, horizon) == h[n..]
  {
    if h != [] {
      var k := if n == 0 then 0 else n - 1;
      AfterDrops(h[1..], k, horizon);
      assert n > 0 ==> h[1..][k..] == h[n..];
    }
  }

  /** Failures in a half-open interval of time. */
  function CountIn(h: seq<Time>, from: Time, to: Time): nat {
    if h == [] then 0 else CountIn(h[..|h| - 1], from, to) + if from < h[|h| - 1] <= to then 1 else 0
  }

  lemma {:induction false} AfterAppend(h: seq<Time>, t: Time, horizon: Time)
    ensures After(h + [t], horizon) == After(h, horizon) + if t > horizon then [t] else []
  {
    if h == [] {
      assert h + [t] == [t] && [t][1..] == [];
    } else {
      AfterAppend(h[1..], t, horizon);
      assert (h + [t])[1..] == h[1..] + [t];
    }
  }

  lemma {:induction false} CountInAfter(h: seq<Time>, from: Time, to: Time, horizon: Time)
    requires horizon <= from
    ensures CountIn(h, from, to) <= |After(h, horizon)|
    ensures horizon == from && (forall i :: 0 <= i < |h| ==> h[i] <= to) ==> CountIn(h, from, to) == |After(h, horizon)|
  {
    if h != [] {
      var n := |h| - 1;
      CountInAfter(h[..n], from, to, horizon);
      AfterAppend(h[..n], h[n], horizon);
      assert h == h[..n] + [h[n]];
    }
  }

  function CountWindow(h: seq<Time>, from: Time, window: Time): nat {
    CountIn(h, from, from + window)
  }

  /** Any stretch of one window length holds at most `max` of the recorded attempts. */
  ghost predicate Limited(h: seq<Time>, max: nat, window: Time) {
    forall from :: CountWindow(h, from, window) <= max
  }

  /** An attempt at this time is admitted: fewer than `max` attempts are in the window before it. */
  predicate Admits(h: seq<Time>, at: Time, max: nat, window: Time) {
    |After(h, at - window)| < max
  }

  /** Admitting an attempt only below the maximum keeps every window at or below it. */
  lemma AdmittingKeepsLimit(h: seq<Time>, max: nat, window: Time, checked: Time, recorded: Time)
    requires Limited(h, max, window) && checked <= recorded && Admits(h, checked, max, window)
    ensures Limited(h + [recorded], max, window)
  {
    assert (h + [recorded])[..|h|] == h;
    forall from ensures CountWindow(h + [recorded], from, window) <= max {
      assert CountWindow(h, from, window) <= max;
      if from < recorded <= from + window {
        CountInAfter(h, from, from + window, checked - window);
      }
    }
  }

  lemma {:induction false} LaterHorizon(h: seq<Time>, early: Time, late: Time)
    requires early <= late
    ensures |After(h, late)| <= |After(h, early)|
    ensures (exists i :: 0 <= i < |h| && early < h[i] <= late) ==> |After(h, late)| < |After(h, early)|
  {
    if h != [] {
      LaterHorizon(h[1..], early, late);
      if i :| 0 <= i < |h| && early < h[i] <= late {
        assert i > 0 ==> h[1..][i - 1] == h[i];
      }
    }
  }

  lemma {:induction false} AfterMembers(h: seq<Time>, horizon: Time, i: nat)
    requires i < |After(h, horizon)|
    ensures exists j :: 0 <= j < |h| && h[j] == After(h, horizon)[i] && h[j] > horizon
  {
    if h[0] > horizon && i == 0 {
      assert h[0] == After(h, horizon)[0];
    } else {
      var k := if h[0] > horizon then i - 1 else i;
      AfterMembers(h[1..], horizon, k);
      var j :| 0 <= j < |h[1..]| && h[1..][j] == After(h[1..], horizon)[k] && h[1..][j] > horizon;
      assert h[j + 1] == After(h, horizon)[i];
    }
  }

  /** A window can be full but not overfull. */
  lemma {:induction false} RecentWithin(h: seq<Time>, max: nat, window: Time, checked: Time)
    requires Limited(h, max, window) && forall i :: 0 <= i < |h| ==> h[i] <= checked
    ensures |After(h, checked - window)| <= max
  {
    CountInAfter(h, checked - window, checked, checked - window);
    assert CountWindow(h, checked - window, window) <= max;
  }

  /** Waiting the returned time is enough: unless another attempt is recorded, the next one is admitted. */
  lemma {:induction false} WaitingIsEnough(h: seq<Time>, max: nat, window: Time, checked: Time, read: Time, later: Time)
    requires max > 0 && Limited(h, max, window) && checked <= read && forall i :: 0 <= i < |h| ==> h[i] <= checked
    requires var recent := After(h, checked - window);
             |recent| >= max && later >= read && later >= read + (recent[0] + window - read)
    ensures Admits(h, later, max, window)
  {
    RecentWithin(h, max, window, checked);
    AfterMembers(h, checked - window, 0);
    LaterHorizon(h, checked - window, later - window);
  }

  function Get(m: map<string, seq<Time>>, key: string): seq<Time> {
    if key in m then m[key] else []
  }

  /**
   * A deque agrees with the history of its key when it is the end of it and all it misses has left
   * the window before the last reading of the clock.
   */
  ghost predicate Agrees(deque: seq<Time>, h: seq<Time>, clock: Time, window: Time) {
    && |deque| <= |h| && deque == h[|h| - |deque|..] && Ordered(h)
    && (forall i :: 0 <= i < |h| - |deque| ==> h[i] <= clock - window)
    && (forall i :: 0 <= i < |h| ==> h[i] <= clock)
  }

  lemma {:induction false} AgreeingDeque(deque: seq<Time>, h: seq<Time>, clock: Time, window: Time)
    requires Agrees(deque, h, clock, window) && (deque != [] ==> deque[0] > clock - window)
    ensures deque == After(h, clock - window)
  {
    var n := |h| - |deque|;
    forall i | n <= i < |h| ensures h[i] > clock - window {
      assert h[n] == deque[0];
    }
    AfterDrops(h, n, clock - window);
  }

  lemma PopAgrees(deque: seq<Time>, h: seq<Time>, clock: Time, window: Time)
    requires Agrees(deque, h, clock, window) && deque != [] && deque[0] <= clock - window
    ensures Agrees(deque[1..], h, clock, window)
  {
    assert deque[0] == h[|h| - |deque|];
    assert deque[1..] == h[|h| - |deque| + 1..];
  }

  lemma PushAgrees(deque: seq<Time>, h: seq<Time>, clock: Time, window: Time)
    requires Agrees(deque, h, clock, window)
    ensures Agrees(deque + [clock], h + [clock], clock, window)
  {
    assert deque + [clock] == (h + [clock])[|h| - |deque|..];
  }

  /** The deques of all keys; a key without failures has none. */
  ghost predicate AllAgree(failures: map<string, seq<Time>>, history: map<string, seq<Time>>, clock: Time,
                           window: Time) {
    && (forall key :: key in failures ==> failures[key] != [])
    && (forall key {:trigger Agrees(Get(failures, key), Get(history, key), clock, window)} ::
          Agrees(Get(failures, key), Get(history, key), clock, window))
  }

  lemma LaterAgrees(failures: map<string, seq<Time>>, history: map<string, seq<Time>>, clock: Time, now: Time,
                    window: Time)
    requires AllAgree(failures, history, clock, window) && clock <= now
    ensures AllAgree(failures, history, now, window)
  {
    forall key ensures Agrees(Get(failures, key), Get(history, key), now, window) {
      assert Agrees(Get(failures, key), Get(history, key), clock, window);
    }
  }

  /** `m` with one key's list replaced; a key with an empty list is dropped. */
  function Put(m: map<string, seq<Time>>, key: string, list: seq<Time>): (r: map<string, seq<Time>>)
    ensures forall k :: Get(r, k) == if k == key then list else Get(m, k)
  {
    if list == [] then m - {key} else m[key := list]
  }

  lemma PutAgrees(failures: map<string, seq<Time>>, history: map<string, seq<Time>>, history': map<string, seq<Time>>,
                  clock: Time, window: Time, key: string, deque: seq<Time>)
    requires AllAgree(failures, history, clock, window) && Agrees(deque, Get(history', key), clock, window)
    requires forall k :: k != key ==> Get(history', k) == Get(history, k)
    ensures AllAgree(Put(failures, key, deque), history', clock, window)
  {
    var after := Put(failures, key, deque);
    forall k ensures Agrees(Get(after, k), Get(history', k), clock, window) {
      var before := if k == key then Get(history', key) else Get(history, k);
      assert Get(after, k) == (if k == key then deque else Get(failures, k)) && Get(history', k) == before;
      if k != key {
        assert Agrees(Get(failures, k), Get(history, k), clock, window);
      }
    }
    forall k | k in after ensures after[k] != [] {
      assert Get(after, k) == if k == key then deque else Get(failures, k);
    }
  }

  lemma RecordAgrees(failures: map<string, seq<Time>>, history: map<string, seq<Time>>, now: Time, window: Time,
                     key: string)
    requires AllAgree(failures, history, now, window)
    ensures AllAgree(failures[key := Get(failures, key) + [now]], history[key := Get(history, key) + [now]], now,
            window)
  {
    var deque, h := Get(failures, key), Get(history, key);
    assert Agrees(deque, h, now, window);
    PushAgrees(deque, h, now, window);
    assert deque + [now] != [] && h + [now] != [];
    PutAgrees(failures, history, Put(history, key, h + [now]), now, window, key, deque + [now]);
  }

  class LoginThrottle {
    const max: nat
    const window: Time
    var failures: map<string, seq<Time>>
    /** Every failure recorded since the key's last reset. */
    ghost var history: map<string, seq<Time>>
    /** The last reading of the monotonic clock. */
    var clock: Time

    ghost predicate Valid() reads this {
      max > 0 && window > 0 && AllAgree(failures, history, clock, window)
    }

    constructor (max: nat, window: Time, start: Time)
      requires max > 0 && window > 0
      ensures Valid() && history == map[] && this.max == max && this.window == window
    {
      this.max, this.window, failures, history, clock := max, window, map[], map[], start;
    }

    /** Read the clock: any time not before the last one. */
    method Now() returns (now: Time)
      requires Valid()
      modifies `clock
      ensures Valid() && now == clock >= old(clock)
    {
      now :| now >= clock;
      LaterAgrees(failures, history, clock, now, window);
      clock := now;
    }

    /** `_recent`: drop the failures that left the window from the front of the deque. */
    method Recent(key: string) returns (deque: seq<Time>)
      requires Valid()
      modifies `clock, `failures
      ensures Valid() && clock >= old(clock)
      ensures deque == After(Get(history, key), clock - window) == Get(failures, key)
    {
      ghost var h := Get(history, key);
      assert Agrees(Get(failures, key), h, clock, window);
      if key !in failures {
        AgreeingDeque([], h, clock, window);
        return [];
      }
      var now := Now();
      deque := failures[key];
      assert Agrees(Get(failures, key), h, now, window);
      while deque != [] && deque[0] <= now - window
        invariant Agrees(deque, h, now, window)
        modifies {}
      {
        PopAgrees(deque, h, now, window);
        deque := deque[1..];
      }
      AgreeingDeque(deque, h, now, window);
      PutAgrees(failures, history, history, now, window, key, deque);
      if deque == [] {
        failures := failures - {key};
      } else {
        failures := failures[key := deque];
      }
    }

    /**
     * `retry_after`: `None` exactly when fewer than the maximum of all failures since the last reset
     * fall in the window before the reading `checked`.
     */
    method RetryAfter(key: string) returns (wait: Option<Time>, ghost checked: Time)
      requires Valid()
      modifies `clock, `failures
      ensures Valid() && old(clock) <= checked <= clock
      ensures wait.None? <==> Admits(Get(history, key), checked, max, window)
      ensures wait.Some? ==>
                var recent := After(Get(history, key), checked - window);
                && wait.value >= 0 && clock + wait.value >= recent[0] + window
                && (wait.value == 0 || clock + wait.value == recent[0] + window)
    {
      var deque := Recent(key);
      checked := clock;
      if |deque| < max {
        return None, checked;
      }
      var now := Now();
      var left := deque[0] + window - now;
      wait := Some(if left < 0 then 0 else left);
    }

    /** The pruning of `record_failure`, which visits every key. */
    method PruneAll()
      requires Valid()
      modifies `clock, `failures
      ensures Valid() && clock >= old(clock)
    {
      var stale := failures.Keys;
      while stale != {}
        invariant Valid() && clock >= old(clock)
        decreases |stale|
      {
        var k :| k in stale;
        var _ := Recent(k);
        stale := stale - {k};
      }
    }

    /** `record_failure`: prune every key once there are many, then append. */
    method RecordFailure(key: string)
      requires Valid()
      modifies `clock, `failures, `history
      ensures Valid() && clock >= old(clock)
      ensures history == old(history)[key := Get(old(history), key) + [clock]]
    {
      if |failures| > PRUNE_THRESHOLD {
        PruneAll();
      }
      var now := Now();
      RecordAgrees(failures, history, now, window, key);
      failures := failures[key := Get(failures, key) + [now]];
      history := history[key := Get(history, key) + [now]];
    }

    /** `reset`: forget the key after a successful login. */
    method Reset(key: string)
      requires Valid()
      modifies `failures, `history
      ensures Valid() && history == old(history) - {key}
    {
      PutAgrees(failures, history, Put(history, key, []), clock, window, key, []);
      failures := failures - {key};
      history := history - {key};
    }

    ghost predicate AllLimited() reads this {
      forall key :: Limited(Get(history, key), max, window)
    }

    /** The start of `login`: the attempt is reserved before the slow password check begins. */
    method BeginLogin(client: string) returns (wait: Option<Time>)
      requires Valid() && AllLimited()
      modifies `clock, `failures, `history
      ensures Valid() && AllLimited()
      ensures wait.Some? ==> history == old(history) && wait.value >= 0
      ensures wait.Some? ==> forall later :: later >= clock + wait.value ==>
              Admits(Get(history, client), later, max, window)
      ensures wait.None? ==> history == old(history)[client := Get(old(history), client) + [clock]]
    {
      ghost var checked, start := clock, clock;
      assert Agrees(Get(failures, client), Get(history, client), start, window);
      wait, checked := RetryAfter(client);
      ghost var h := Get(history, client);
      if wait.Some? {
        forall later | later >= clock + wait.value ensures Admits(h, later, max, window) {
          WaitingIsEnough(h, max, window, checked, clock, later);
        }
        return;
      }
      RecordFailure(client);
      AdmittingKeepsLimit(h, max, window, checked, clock);
      assert history == Put(old(history), client, h + [clock]);
    }

    /** The end of `login`, whenever the check of an admitted attempt is done. */
    method FinishLogin(client: string, valid: bool)
      requires Valid() && AllLimited()
      modifies `failures, `history
      ensures Valid() && AllLimited()
      ensures history == if valid then old(history) - {client} else old(history)
    {
      if valid {
        Reset(client);
        assert history == Put(old(history), client, []);
        forall key ensures Limited(Get(history, key), max, window) {
          assert Limited(Get(old(history), key), max, window);
        }
      }
    }
  }

  // ---- Interleaved logins ----

  /** A login is admitted or refused at one moment and finishes at any later one. */
  datatype Step =
    | Attempt(client: string, checked: Time, recorded: Time)
    | Succeed(client: string)
    | Fail(client: string)

  /** The attempts admitted since each client's last successful login. */
  function Admitted(steps: seq<Step>, max: nat, window: Time): map<string, seq<Time>> {
    if steps == [] then map[]
    else
      var m, step := Admitted(steps[..|steps| - 1], max, window), steps[|steps| - 1];
      match step
      case Attempt(c, checked, recorded) =>
        if Admits(Get(m, c), checked, max, window) then m[c := Get(m, c) + [recorded]] else m
      case Succeed(c) => m - {c}
      case Fail(_) => m
  }

  /**
   * The next attempt of a client is admitted exactly when fewer than the maximum of its admitted ones, since its last
   * success, are later than one window before; nothing else is forgotten.
   */
  lemma {:induction false} NextAttempt(steps: seq<Step>, step: Step, max: nat, window: Time, client: string)
    ensures var (h, h') := (Get(Admitted(steps, max, window), client),
            Get(Admitted(steps + [step], max, window), client));
            match step
            case Attempt(c, checked, recorded) =>
              h' == if c == client && |After(h, checked - window)| < max then h + [recorded] else h
            case Succeed(c) => h' == if c == client then [] else h
            case Fail(_) => h' == h
  {
    assert (steps + [step])[..|steps|] == steps;
  }

  /**
   * However logins interleave, no window admits more than the maximum of password checks of a client that keeps
   * failing.
   */
  lemma {:induction false} ChecksAreLimited(steps: seq<Step>, max: nat, window: Time, client: string)
    requires forall i :: 0 <= i < |steps| && steps[i].Attempt? ==> steps[i].checked <= steps[i].recorded
    ensures Limited(Get(Admitted(steps, max, window), client), max, window)
  {
    if steps != [] {
      ChecksAreLimited(steps[..|steps| - 1], max, window, client);
      var m, step := Admitted(steps[..|steps| - 1], max, window), steps[|steps| - 1];
      if step.Attempt? && step.client == client && Admits(Get(m, client), step.checked, max, window) {
        AdmittingKeepsLimit(Get(m, client), max, window, step.checked, step.recorded);
      }
    }
  }
}
