/** Per-sender sliding-window admission control.  The limiter keeps, for each
    sender, the times of its admitted requests.  A check first keeps only the
    times strictly inside the trailing window, then admits the request if
    fewer than MAX_REQUESTS remain, recording `now`.  A denied request records
    nothing: the filtered list is not written back. */
module RateLimit {
  import opened Wrappers
  import opened JsString
  import opened Constants

  /** `timestamps.filter(t => t > now - TIME_WINDOW)`. */
  function Recent(ts: seq<int>, now: int): (r: seq<int>) {
    if ts == [] then []
    else (if ts[0] > now - TIME_WINDOW then [ts[0]] else []) + Recent(ts[1..], now)
  }

  /** The admission times stored for `user`, or none for an unseen sender. */
  function Stored(windows: map<Id, seq<int>>, user: Id): seq<int> {
    if user in windows then windows[user] else []
  }

  /** Whether a check at `now` admits a sender whose stored times are `ts`. */
  predicate Admits(ts: seq<int>, now: int) {
    |Recent(ts, now)| < MAX_REQUESTS
  }

  /** The limiter's state after a check of `user` at `now`. */
  function AfterCheck(windows: map<Id, seq<int>>, user: Id, now: int): map<Id, seq<int>> {
    var ts := Stored(windows, user);
    if Admits(ts, now) then windows[user := Recent(ts, now) + [now]] else windows
  }

  /** Every stored list holds at most MAX_REQUESTS times. */
  ghost predicate WithinCap(windows: map<Id, seq<int>>) {
    forall u :: u in windows ==> |windows[u]| <= MAX_REQUESTS
  }

  class RateLimiter {
    /** `userRequestTimestamps`. */
    var windows: map<Id, seq<int>>

    ghost predicate Valid()
      reads this
    {
      WithinCap(windows)
    }

    constructor ()
      ensures Valid() && windows == map[]
    {
      windows := map[];
    }

    /** `checkRateLimit(userId)`, with the clock reading passed in as `now`. */
    method Check(user: Id, now: int) returns (admitted: bool)
      requires Valid()
      modifies this
      ensures Valid()
      ensures admitted == Admits(Stored(old(windows), user), now)
      ensures windows == AfterCheck(old(windows), user, now)
      ensures admitted ==> windows == old(windows)[user := Recent(Stored(old(windows), user), now) + [now]]
      ensures !admitted ==> windows == old(windows)
    {
      if user !in windows {
        windows := windows[user := []];
      }
      var timestamps := windows[user];
      var recent := Recent(timestamps, now);
      if |recent| >= MAX_REQUESTS {
        assert user in old(windows);
        return false;
      }
      windows := windows[user := recent + [now]];
      CheckKeepsCap(old(windows), user, now);
      return true;
    }
  }

  // -----------------------------------------------------------------------
  // What a check keeps

  /** The filter keeps exactly the times inside the window, in their order:
      filtering a concatenation filters each part. */
  lemma {:induction false} RecentIsFilter(a: seq<int>, b: seq<int>, now: int)
    ensures Recent(a + b, now) == Recent(a, now) + Recent(b, now)
    ensures |Recent(a, now)| <= |a|
    ensures forall t :: t in Recent(a, now) <==> t in a && t > now - TIME_WINDOW
  {
    if a != [] {
      assert (a + b)[1..] == a[1..] + b;
      RecentIsFilter(a[1..], b, now);
      assert a == [a[0]] + a[1..];
    } else {
      assert a + b == b;
    }
  }

  /** A time exactly TIME_WINDOW old is dropped; one a millisecond younger is kept. */
  lemma WindowIsStrict(now: int)
    ensures Recent([now - TIME_WINDOW], now) == []
    ensures Recent([now - TIME_WINDOW + 1], now) == [now - TIME_WINDOW + 1]
  {
  }

  /** A sender the limiter has never seen is admitted and gets `[now]`. */
  lemma FirstCheckAdmits(windows: map<Id, seq<int>>, user: Id, now: int)
    requires user !in windows
    ensures Admits(Stored(windows, user), now)
    ensures AfterCheck(windows, user, now) == windows[user := [now]]
  {
    assert Recent([], now) + [now] == [now];
  }

  /** A check touches only the checked sender's entry, and creates it if absent. */
  lemma CheckFrame(windows: map<Id, seq<int>>, user: Id, now: int)
    ensures AfterCheck(windows, user, now).Keys == windows.Keys + {user}
    ensures forall u :: u in windows && u != user ==> AfterCheck(windows, user, now)[u] == windows[u]
  {
    if !Admits(Stored(windows, user), now) {
      assert user in windows;
    }
  }

  /** A check never lets a stored list grow past MAX_REQUESTS. */
  lemma CheckKeepsCap(windows: map<Id, seq<int>>, user: Id, now: int)
    requires WithinCap(windows)
    ensures WithinCap(AfterCheck(windows, user, now))
  {
  }

  /** A sender whose oldest stored time has left the window is admitted again. */
  lemma AdmittedAgainAfterWindow(ts: seq<int>, now: int, old_: nat)
    requires |ts| <= MAX_REQUESTS && old_ < |ts| && ts[old_] <= now - TIME_WINDOW
    ensures Admits(ts, now)
  {
    RecentIsFilter(ts[..old_], ts[old_..], now);
    assert ts == ts[..old_] + ts[old_..];
    assert ts[old_..] == [ts[old_]] + ts[old_ + 1..];
    RecentIsFilter([ts[old_]], ts[old_ + 1..], now);
    RecentIsFilter(ts[old_ + 1..], [], now);
  }

  // -----------------------------------------------------------------------
  // A run of checks

  /** Checks of one sender at the times `nows`, from stored times `ts`: how
      many were admitted, and the stored times at the end. */
  function Replay(ts: seq<int>, nows: seq<int>): (nat, seq<int>)
    decreases |nows|
  {
    if nows == [] then (0, ts)
    else
      var ok := Admits(ts, nows[0]);
      var next := if ok then Recent(ts, nows[0]) + [nows[0]] else ts;
      var rest := Replay(next, nows[1..]);
      ((if ok then 1 else 0) + rest.0, rest.1)
  }

  /** How many of `ts` are at least `a`. */
  function CountFrom(ts: seq<int>, a: int): nat {
    if ts == [] then 0 else (if ts[0] >= a then 1 else 0) + CountFrom(ts[1..], a)
  }

  lemma {:induction false} CountFromBounded(ts: seq<int>, a: int)
    ensures CountFrom(ts, a) <= |ts|
  {
    if ts != [] { CountFromBounded(ts[1..], a); }
  }

  lemma {:induction false} CountFromAppend(ts: seq<int>, t: int, a: int)
    ensures CountFrom(ts + [t], a) == CountFrom(ts, a) + (if t >= a then 1 else 0)
  {
    if ts != [] {
      assert (ts + [t])[1..] == ts[1..] + [t];
      CountFromAppend(ts[1..], t, a);
    } else {
      assert [] + [t] == [t];
    }
  }

  /** When the window at `now` reaches back past `a`, filtering keeps every
      time that is at least `a`. */
  lemma {:induction false} RecentKeepsFrom(ts: seq<int>, now: int, a: int)
    requires now - TIME_WINDOW < a
    ensures CountFrom(Recent(ts, now), a) == CountFrom(ts, a)
  {
    if ts != [] {
      RecentKeepsFrom(ts[1..], now, a);
      if ts[0] > now - TIME_WINDOW {
        assert Recent(ts, now) == [ts[0]] + Recent(ts[1..], now);
      } else {
        assert Recent(ts, now) == Recent(ts[1..], now);
      }
    }
  }

  lemma {:induction false} ReplayCounts(ts: seq<int>, nows: seq<int>, a: int)
    requires |ts| <= MAX_REQUESTS
    requires forall q :: 0 <= q < |nows| ==> a <= nows[q] < a + TIME_WINDOW
    ensures CountFrom(Replay(ts, nows).1, a) == CountFrom(ts, a) + Replay(ts, nows).0
    ensures |Replay(ts, nows).1| <= MAX_REQUESTS
    decreases |nows|
  {
    if nows != [] {
      var now := nows[0];
      var ok := Admits(ts, now);
      var next := if ok then Recent(ts, now) + [now] else ts;
      RecentKeepsFrom(ts, now, a);
      if ok {
        CountFromAppend(Recent(ts, now), now, a);
      }
      ReplayCounts(next, nows[1..], a);
    }
  }

  /** Of any run of checks by one sender that all fall within one window's
      length, at most MAX_REQUESTS are admitted, whatever came before. */
  lemma AtMostMaxPerWindow(ts: seq<int>, nows: seq<int>, a: int)
    requires |ts| <= MAX_REQUESTS
    requires forall q :: 0 <= q < |nows| ==> a <= nows[q] < a + TIME_WINDOW
    ensures Replay(ts, nows).0 <= MAX_REQUESTS
  {
    ReplayCounts(ts, nows, a);
    CountFromBounded(Replay(ts, nows).1, a);
  }

  /** One step of `Replay` is the limiter's check: the first check of the run
      admits as `Check` does, and the rest of the run starts from the list
      that `AfterCheck` stores for the sender. */
  lemma ReplayStepIsCheck(windows: map<Id, seq<int>>, user: Id, now: int, rest: seq<int>)
    ensures Stored(AfterCheck(windows, user, now), user)
            == (if Admits(Stored(windows, user), now) then Recent(Stored(windows, user), now) + [now]
                else Stored(windows, user))
    ensures Replay(Stored(windows, user), [now] + rest)
            == ((if Admits(Stored(windows, user), now) then 1 else 0)
                  + Replay(Stored(AfterCheck(windows, user, now), user), rest).0,
                Replay(Stored(AfterCheck(windows, user, now), user), rest).1)
  {
    assert ([now] + rest)[0] == now;
    assert ([now] + rest)[1..] == rest;
  }
}
