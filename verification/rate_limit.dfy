/**
 * The in-memory sliding-window rate limiter (`check_rate_limit`,
 * app_production.py:68-121, the path taken without Redis). Per user it keeps
 * the admitted call times of the trailing minute and of the trailing hour; a
 * call is admitted while both lists are below their ceilings, and only an
 * admitted call is recorded. Times are whole seconds from a clock parameter.
 */
module RateLimit {

  /** `rate_limit_store[user_id]`: the "minute" and "hour" lists. */
  datatype Window = Window(minute: seq<int>, hour: seq<int>)

  const Empty := Window([], [])

  /** The largest length a list can reach under `limit`: a non-positive limit admits nothing. */
  function Cap(limit: int): nat {
    if limit > 0 then limit else 0
  }

  /** `[t for t in ts if now - t < span]` */
  function Recent(ts: seq<int>, now: int, span: int): (r: seq<int>)
    ensures |r| <= |ts|
    ensures forall t :: t in r <==> t in ts && now - t < span
    ensures forall t :: multiset(r)[t] == if now - t < span then multiset(ts)[t] else 0
    ensures (forall t :: t in ts ==> now - t < span) ==> r == ts
    ensures (forall t :: t in ts ==> now - t >= span) ==> r == []
  {
    if ts == [] then []
    else
      assert ts[0] in ts;
      assert forall t :: t in ts[1..] ==> t in ts;
      assert ts == [ts[0]] + ts[1..];
      if now - ts[0] < span then [ts[0]] + Recent(ts[1..], now, span)
      else Recent(ts[1..], now, span)
  }

  /** What one call at time `now` decides, and the window it leaves behind. */
  datatype Decision = Decision(admitted: bool, window: Window)

  function Step(w: Window, now: int, perMinute: int, perHour: int): (d: Decision)
    ensures |w.minute| <= Cap(perMinute) ==> |d.window.minute| <= Cap(perMinute)
    ensures |w.hour| <= Cap(perHour) ==> |d.window.hour| <= Cap(perHour)
    ensures forall t :: t in d.window.minute ==> t == now || (t in w.minute && now - t < 60)
    ensures forall t :: t in d.window.hour ==> t == now || (t in w.hour && now - t < 3600)
    ensures d.admitted ==> now in d.window.minute && now in d.window.hour
    ensures !d.admitted ==> |d.window.minute| >= perMinute || |d.window.hour| >= perHour
    ensures d.admitted <==> |Recent(w.minute, now, 60)| < perMinute && |Recent(w.hour, now, 3600)| < perHour
    ensures !d.admitted ==> d.window == Window(Recent(w.minute, now, 60), Recent(w.hour, now, 3600))
    ensures d.admitted ==> d.window == Window(Recent(w.minute, now, 60) + [now], Recent(w.hour, now, 3600) + [now])
  {
    var minute := Recent(w.minute, now, 60);
    var hour := Recent(w.hour, now, 3600);
    if |minute| >= perMinute || |hour| >= perHour then Decision(false, Window(minute, hour))
    else Decision(true, Window(minute + [now], hour + [now]))
  }

  /** A call finds no stamp of its minute window once every stamp is a minute old. */
  lemma QuietMinuteFreesTheMinuteWindow(w: Window, now: int, perMinute: int, perHour: int)
    requires forall t :: t in w.minute ==> now - t >= 60
    requires perMinute > 0
    requires |Recent(w.hour, now, 3600)| < perHour
    ensures Step(w, now, perMinute, perHour).admitted
  {
  }

  /** The admissions of successive calls at the given times. */
  function Run(w: Window, times: seq<int>, perMinute: int, perHour: int): (r: seq<bool>)
    ensures |r| == |times|
    decreases |times|
  {
    if times == [] then []
    else
      var d := Step(w, times[0], perMinute, perHour);
      [d.admitted] + Run(d.window, times[1..], perMinute, perHour)
  }

  /**
   * Calls that all fall within one minute after `t0`, starting from a window
   * whose stamps are no earlier than `t0`: call `i` is admitted exactly when
   * the stamps already held plus `i` stay below the smaller ceiling.
   */
  lemma {:induction false} BurstWithinAMinute(w: Window, times: seq<int>, t0: int, perMinute: int, perHour: int)
    requires w.minute == w.hour
    requires forall t :: t in w.minute ==> t0 <= t
    requires forall i :: 0 <= i < |times| ==> t0 <= times[i] < t0 + 60
    requires |w.minute| <= Cap(perMinute) && |w.minute| <= Cap(perHour)
    ensures forall i :: 0 <= i < |times| ==>
      Run(w, times, perMinute, perHour)[i] == (|w.minute| + i < perMinute && |w.minute| + i < perHour)
    decreases |times|
  {
    if times != [] {
      var now := times[0];
      var d := Step(w, now, perMinute, perHour);
      assert Recent(w.minute, now, 60) == w.minute;
      assert Recent(w.hour, now, 3600) == w.hour;
      forall t | t in d.window.minute ensures t0 <= t { }
      BurstWithinAMinute(d.window, times[1..], t0, perMinute, perHour);
      var r := Run(w, times, perMinute, perHour);
      forall i | 0 <= i < |times|
        ensures r[i] == (|w.minute| + i < perMinute && |w.minute| + i < perHour)
      {
        if i > 0 {
          assert r[i] == Run(d.window, times[1..], perMinute, perHour)[i - 1];
        }
      }
    }
  }

  /**
   * With the ceiling N = min(per-minute, per-hour) limit, a fresh user's calls
   * within one minute are admitted exactly N times, and every later one is denied.
   */
  lemma ExactlyCeilingAdmitted(times: seq<int>, t0: int, perMinute: int, perHour: int)
    requires forall i :: 0 <= i < |times| ==> t0 <= times[i] < t0 + 60
    ensures forall i :: 0 <= i < |times| ==>
      Run(Empty, times, perMinute, perHour)[i] == (i < perMinute && i < perHour)
  {
    BurstWithinAMinute(Empty, times, t0, perMinute, perHour);
  }

  /**
   * The store of all users: `rate_limit_store` together with the three
   * settings the check reads.
   */
  class RateLimiter {
    const enabled: bool
    const perMinute: int
    const perHour: int
    var store: map<string, Window>

    /** No list is longer than its ceiling. */
    ghost predicate Valid()
      reads this
    {
      forall u :: u in store ==>
        |store[u].minute| <= Cap(perMinute) && |store[u].hour| <= Cap(perHour)
    }

    constructor (enabled: bool, perMinute: int, perHour: int)
      ensures Valid()
      ensures this.enabled == enabled && this.perMinute == perMinute && this.perHour == perHour
      ensures store == map[]
    {
      this.enabled := enabled;
      this.perMinute := perMinute;
      this.perHour := perHour;
      store := map[];
    }

    /** The user's window; an unknown user starts with two empty lists. */
    function WindowOf(user: string): Window
      reads this
    {
      if user in store then store[user] else Empty
    }

    /** `check_rate_limit(user_id)` at time `now`. */
    method Check(user: string, now: int) returns (admitted: bool)
      requires Valid()
      modifies this
      ensures Valid()
      ensures !enabled ==> admitted && store == old(store)
      ensures enabled ==>
        var d := Step(old(WindowOf(user)), now, perMinute, perHour);
        admitted == d.admitted && store == old(store)[user := d.window]
    {
      if !enabled {
        return true;
      }
      ghost var before := store;
      ghost var d := Step(WindowOf(user), now, perMinute, perHour);
      if user !in store {
        store := store[user := Empty];
      }
      assert store[user] == old(WindowOf(user));
      var minute := Recent(store[user].minute, now, 60);
      var hour := Recent(store[user].hour, now, 3600);
      store := store[user := Window(minute, hour)];
      if |minute| >= perMinute {
        assert store == before[user := d.window];
        return false;
      }
      if |hour| >= perHour {
        assert store == before[user := d.window];
        return false;
      }
      store := store[user := Window(minute + [now], hour + [now])];
      assert store == before[user := d.window];
      return true;
    }
  }
}
