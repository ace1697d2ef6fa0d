/** `limiter_allow`: a sliding one-minute window of call timestamps that admits
    at most `rpm` language-model calls per window. The module-global deque
    becomes an explicit queue and the clock becomes a sequence of readings. */
module RateLimiter {
  import opened Seqs
  import opened Wrappers

  /** Length of the window, in seconds. */
  const WindowSeconds: real := 60.0

  /** Calls per minute used by every caller in the pipeline. */
  const DefaultRpm: int := 15

  /** Timestamps, oldest first, as the real clock produces them. */
  predicate Sorted(q: seq<real>) {
    forall i, j :: 0 <= i < j < |q| ==> q[i] <= q[j]
  }

  /** No timestamp lies after `now`. */
  predicate NotAfter(q: seq<real>, now: real) {
    forall i :: 0 <= i < |q| ==> q[i] <= now
  }

  /** A timestamp still counts against the window at time `now`. */
  predicate InWindow(now: real, t: real) {
    now - t <= WindowSeconds
  }

  /** How many entries the eviction loop pops: it pops from the front while the
      oldest entry is strictly more than sixty seconds old. */
  function Popped(q: seq<real>, now: real): (n: nat)
    ensures n <= |q|
    ensures n < |q| ==> InWindow(now, q[n])
    ensures forall i :: 0 <= i < n ==> !InWindow(now, q[i])
    decreases |q|
  {
    if |q| > 0 && !InWindow(now, q[0]) then 1 + Popped(q[1..], now) else 0
  }

  /** The queue after the eviction loop: a suffix of the queue that starts with
      an entry still in the window, left after dropping only stale entries; on a
      time-ordered queue it holds exactly the entries still in the window. */
  function Evict(q: seq<real>, now: real): (r: seq<real>)
    ensures |r| <= |q| && r == q[|q| - |r|..]
    ensures forall i :: 0 <= i < |q| - |r| ==> !InWindow(now, q[i])
    ensures |r| > 0 ==> InWindow(now, r[0])
    ensures Sorted(q) ==> r == Filter(t => InWindow(now, t), q)
  {
    if Sorted(q) then PoppedIsWindowFilter(q, now); q[Popped(q, now)..]
    else q[Popped(q, now)..]
  }

  /** On a time-ordered queue, eviction keeps exactly the entries still in the
      window: it agrees with filtering the whole queue. */
  lemma {:induction false} EvictIsWindowFilter(q: seq<real>, now: real)
    requires Sorted(q)
    ensures Evict(q, now) == Filter(t => InWindow(now, t), q)
  {
    PoppedIsWindowFilter(q, now);
  }

  /** The eviction loop's stopping point, in terms of the entries themselves. */
  lemma {:induction false} PoppedIsWindowFilter(q: seq<real>, now: real)
    requires Sorted(q)
    ensures q[Popped(q, now)..] == Filter(t => InWindow(now, t), q)
    decreases |q|
  {
    if |q| > 0 {
      if !InWindow(now, q[0]) {
        PoppedIsWindowFilter(q[1..], now);
      } else {
        forall i | 0 <= i < |q| ensures InWindow(now, q[i]) {
        }
        KeepAll(t => InWindow(now, t), q);
      }
    }
  }

  /** Filtering with a predicate every element satisfies changes nothing. */
  lemma {:induction false} KeepAll(keep: real -> bool, q: seq<real>)
    requires forall i :: 0 <= i < |q| ==> keep(q[i])
    ensures Filter(keep, q) == q
    decreases |q|
  {
    if |q| > 0 {
      KeepAll(keep, q[1..]);
    }
  }

  /** The outcome of one pass of `limiter_allow`: either the call is admitted
      and `stamp` (the clock read at the end) is recorded, or the caller must
      sleep `delay` seconds with the already-evicted queue and try again. */
  datatype Decision = Admit(window: seq<real>) | Wait(window: seq<real>, delay: real)

  /** One pass of `limiter_allow(rpm)` at time `now`. With `rpm <= 0` the source
      either indexes an empty deque or can never admit, so `rpm >= 1` is required. */
  function Check(q: seq<real>, now: real, stamp: real, rpm: int): (d: Decision)
    requires rpm >= 1
    ensures d.Admit? <==> |Evict(q, now)| < rpm
    ensures d.Admit? ==> d.window == Evict(q, now) + [stamp] && |d.window| <= rpm
    ensures d.Wait? ==> d.window == Evict(q, now) && |d.window| >= rpm >= 1
    ensures d.Wait? ==> d.delay >= 0.0 && d.delay == d.window[0] + WindowSeconds - now
  {
    var w := Evict(q, now);
    if |w| >= rpm then
      var sleepFor := WindowSeconds - (now - w[0]);
      Wait(w, if sleepFor > 0.0 then sleepFor else 0.0)
    else Admit(w + [stamp])
  }

  /** The sleep a pass asks for: zero when it admits, otherwise exactly the time
      until the oldest entry left in the window turns sixty seconds old. */
  function Delay(q: seq<real>, now: real, rpm: int): (s: real)
    requires rpm >= 1
    ensures s >= 0.0
    ensures |Evict(q, now)| < rpm ==> s == 0.0
    ensures |Evict(q, now)| >= rpm ==> s == Evict(q, now)[0] + WindowSeconds - now
  {
    match Check(q, now, now, rpm)
    case Admit(_) => 0.0
    case Wait(_, d) => d
  }

  /** Admission preserves the queue's shape: ordered, bounded by `rpm`, and no
      entry later than the new stamp. */
  lemma AdmitPreservesWindow(q: seq<real>, now: real, stamp: real, rpm: int)
    requires rpm >= 1
    requires Sorted(q) && NotAfter(q, now) && now <= stamp
    requires Check(q, now, stamp, rpm).Admit?
    ensures var w := Check(q, now, stamp, rpm).window;
              Sorted(w) && NotAfter(w, stamp) && |w| <= rpm && w[|w| - 1] == stamp
  {
    var e := Evict(q, now);
    SuffixKeepsShape(q, now, |q| - |e|);
    var w := e + [stamp];
    assert w == Check(q, now, stamp, rpm).window;
    assert forall i :: 0 <= i < |e| ==> w[i] == e[i];
  }

  /** A suffix of an ordered queue with no future stamps is one too. */
  lemma SuffixKeepsShape(q: seq<real>, now: real, k: nat)
    requires k <= |q| && Sorted(q) && NotAfter(q, now)
    ensures Sorted(q[k..]) && NotAfter(q[k..], now)
  {
    assert forall i :: 0 <= i < |q| - k ==> q[k..][i] == q[k + i];
  }

  /** A wait never exceeds the window length when the queue holds no future stamps. */
  lemma WaitIsAtMostAMinute(q: seq<real>, now: real, stamp: real, rpm: int)
    requires rpm >= 1
    requires NotAfter(q, now)
    requires Check(q, now, stamp, rpm).Wait?
    ensures 0.0 <= Check(q, now, stamp, rpm).delay <= WindowSeconds
  {
    var e := Evict(q, now);
    assert e[0] == q[|q| - |e|];
  }

  /** After a quiet minute every old entry is gone and the call goes straight through. */
  lemma QuietPeriodAdmits(q: seq<real>, now: real, stamp: real, rpm: int)
    requires rpm >= 1
    requires forall i :: 0 <= i < |q| ==> !InWindow(now, q[i])
    ensures Check(q, now, stamp, rpm) == Admit([stamp])
  {
    EvictAllOld(q, now);
  }

  lemma {:induction false} EvictAllOld(q: seq<real>, now: real)
    requires forall i :: 0 <= i < |q| ==> !InWindow(now, q[i])
    ensures Evict(q, now) == []
    decreases |q|
  {
    if |q| > 0 {
      EvictAllOld(q[1..], now);
    }
  }

  /** A call that had to wait is admitted on its retry, provided the queue
      never held more than `rpm` entries and the clock has moved strictly past
      the end of the requested sleep. */
  lemma WaitThenAdmit(q: seq<real>, now: real, stamp: real, later: real, stamp2: real, rpm: int)
    requires rpm >= 1
    requires Sorted(q) && |q| <= rpm
    requires Check(q, now, stamp, rpm).Wait?
    requires later > now + Check(q, now, stamp, rpm).delay
    ensures Check(Check(q, now, stamp, rpm).window, later, stamp2, rpm).Admit?
  {
    var w := Evict(q, now);
    assert !InWindow(later, w[0]);
    assert Evict(w, later) == Evict(w[1..], later);
  }

  /** `limiter_allow(rpm)` including its retries. `readings` are the successive
      values of the clock: each pass reads `now`, and an admitted pass reads the
      clock once more for the stamp it records. The result is the queue after
      admission and the clock readings not yet used, or `None` if the readings
      run out before the call is admitted. */
  function Allow(q: seq<real>, readings: seq<real>, rpm: int): (r: Option<(seq<real>, seq<real>)>)
    requires rpm >= 1
    ensures r.Some? ==> |r.value.0| <= rpm && |r.value.1| <= |readings| - 2
    ensures r.Some? ==> IsSuffix(r.value.1, readings)
    decreases |readings|
  {
    if |readings| < 2 then None
    else
      match Check(q, readings[0], readings[1], rpm)
      case Admit(w) => Some((w, readings[2..]))
      case Wait(w, _) => Allow(w, readings[1..], rpm)
  }

  predicate IsSuffix(s: seq<real>, t: seq<real>) {
    |s| <= |t| && t[|t| - |s|..] == s
  }

  /** With a bounded queue and a clock that honours the requested sleep strictly,
      a call is admitted by its second pass at the latest. */
  lemma AllowAdmitsBySecondPass(q: seq<real>, readings: seq<real>, rpm: int)
    requires rpm >= 1
    requires Sorted(q) && |q| <= rpm
    requires |readings| >= 3
    requires readings[1] > readings[0] + Delay(q, readings[0], rpm)
    ensures Allow(q, readings, rpm).Some?
  {
    var d := Check(q, readings[0], readings[1], rpm);
    if d.Wait? {
      assert Check(q, readings[0], readings[0], rpm) == Wait(d.window, d.delay);
      WaitThenAdmit(q, readings[0], readings[1], readings[1], readings[2], rpm);
      assert readings[1..][0] == readings[1] && readings[1..][1] == readings[2];
    }
  }

  /** Back-to-back calls within one minute: once `rpm` calls are in the window,
      the next one has to wait. */
  lemma FullWindowWaits(q: seq<real>, now: real, stamp: real, rpm: int)
    requires rpm >= 1
    requires Sorted(q) && |q| == rpm
    requires forall i :: 0 <= i < |q| ==> InWindow(now, q[i])
    ensures Check(q, now, stamp, rpm).Wait?
  {
    assert Evict(q, now) == q;
  }
}
