/** The request pacer (data-pipeline/scrapers/rate_limiter.py, copied in
    main.py): a sliding one-minute window of request times, a peak-hour
    cooldown, a window-full wait and a minimum gap between requests.

    The clock (`time.time()`), the hour (`datetime.now().hour`) and the delay
    drawn by `random.uniform` are parameters; a sleep is the amount of waiting
    returned, and the clock after the waits is the call's time plus that amount. */
module Pacing {
  import opened Models

  /** Length of the sliding window, and of the peak-hour cooldown, in seconds. */
  const Minute: real := 60.0

  /** `[t for t in times if t > cutoff]` */
  function KeepAfter(times: seq<real>, cutoff: real): (r: seq<real>)
    ensures |r| <= |times|
    ensures forall i | 0 <= i < |r| :: r[i] > cutoff && r[i] in times
    ensures forall t | t in times && t > cutoff :: t in r
  {
    if times == [] then []
    else (if times[0] > cutoff then [times[0]] else []) + KeepAfter(times[1..], cutoff)
  }

  lemma {:induction false} KeepAfterAppend(a: seq<real>, b: seq<real>, cutoff: real)
    ensures KeepAfter(a + b, cutoff) == KeepAfter(a, cutoff) + KeepAfter(b, cutoff)
  {
    if a == [] {
      assert a + b == b;
    } else {
      assert (a + b)[0] == a[0];
      assert (a + b)[1..] == a[1..] + b;
      KeepAfterAppend(a[1..], b, cutoff);
    }
  }

  /** A later cutoff keeps no more entries. */
  lemma {:induction false} KeepAfterMonotone(times: seq<real>, early: real, late: real)
    requires early <= late
    ensures |KeepAfter(times, late)| <= |KeepAfter(times, early)|
  {
    if times != [] {
      KeepAfterMonotone(times[1..], early, late);
    }
  }

  /** Entries at or past the cutoff are all kept. */
  lemma {:induction false} KeepAfterAllLater(times: seq<real>, cutoff: real)
    requires forall i | 0 <= i < |times| :: times[i] > cutoff
    ensures KeepAfter(times, cutoff) == times
  {
    if times != [] {
      KeepAfterAllLater(times[1..], cutoff);
    }
  }

  predicate Sorted(times: seq<real>) {
    forall i, j | 0 <= i < j < |times| :: times[i] <= times[j]
  }

  /** Pruning keeps a history sorted. */
  lemma {:induction false} KeepAfterSorted(times: seq<real>, cutoff: real)
    requires Sorted(times)
    ensures Sorted(KeepAfter(times, cutoff))
  {
    if times != [] {
      var rest := KeepAfter(times[1..], cutoff);
      KeepAfterSorted(times[1..], cutoff);
      forall i | 0 <= i < |rest| ensures times[0] <= rest[i] {
        assert rest[i] in times[1..];
      }
    }
  }

  /** No entry kept by pruning a sorted history is later than its last one. */
  lemma KeepAfterBelowLast(times: seq<real>, cutoff: real)
    requires Sorted(times)
    ensures forall i | 0 <= i < |KeepAfter(times, cutoff)| ::
      times != [] && KeepAfter(times, cutoff)[i] <= times[|times| - 1]
  {
    var kept := KeepAfter(times, cutoff);
    forall i | 0 <= i < |kept| ensures times != [] && kept[i] <= times[|times| - 1] {
      assert kept[i] in times;
    }
  }

  /** The pacer's fields. */
  datatype PacerState = PacerState(requestTimes: seq<real>, lastRequestTime: real)

  /** What one call does: wait, or fail with the `IndexError` that
      `self.request_times[0]` raises when the limit is below one and the
      window is empty. */
  datatype Pacing = Paced(wait: real) | WindowIndexError

  /** The peak-hour cooldown, taken once when peak avoidance is on and the
      hour lies in the peak window, both ends included. */
  function PeakWait(c: ScrapingConfig, hour: int): real
  {
    if c.avoidPeakHours && c.peakStartHour <= hour <= c.peakEndHour then Minute else 0.0
  }

  /** The minimum-gap wait: what is missing from `minDelay` since the last
      recorded request, measured from the call's own clock reading. */
  function GapWait(last: real, now: real, minDelay: real): real
  {
    var sinceLast := now - last;
    if sinceLast < minDelay then minDelay - sinceLast else 0.0
  }

  /** The window-full wait: when the pruned window holds the limit or more,
      what is left until its oldest entry is a minute old (never negative). */
  function FullWindowWait(limit: int, window: seq<real>, now: real): real
    requires |window| >= limit ==> window != []
  {
    if |window| >= limit && Minute - (now - window[0]) > 0.0 then Minute - (now - window[0]) else 0.0
  }

  /** The cooldown is the whole minute exactly in the peak window, and
      nothing otherwise. */
  lemma PeakWaitRule(c: ScrapingConfig, hour: int)
    ensures PeakWait(c, hour) == Minute <==> c.avoidPeakHours && c.peakStartHour <= hour <= c.peakEndHour
    ensures PeakWait(c, hour) == 0.0 || PeakWait(c, hour) == Minute
  {
  }

  /** The gap wait makes up what is missing from `minDelay`, and is never
      negative. */
  lemma GapWaitRule(last: real, now: real, minDelay: real)
    ensures GapWait(last, now, minDelay) >= 0.0
    ensures now - last < minDelay ==> now + GapWait(last, now, minDelay) == last + minDelay
    ensures now - last >= minDelay ==> GapWait(last, now, minDelay) == 0.0
  {
  }

  /** A full window is waited out until its oldest entry is a minute old; a
      window below the limit costs nothing; the wait is never negative. */
  lemma FullWindowWaitRule(limit: int, window: seq<real>, now: real)
    requires |window| >= limit ==> window != []
    ensures FullWindowWait(limit, window, now) >= 0.0
    ensures |window| >= limit ==> window[0] + Minute <= now + FullWindowWait(limit, window, now)
    ensures |window| < limit ==> FullWindowWait(limit, window, now) == 0.0
  {
  }

  /** One call of `wait_if_needed` at clock `now`, hour `hour` and drawn
      delay `minDelay`. */
  function Pace(c: ScrapingConfig, st: PacerState, now: real, hour: int, minDelay: real): (PacerState, Pacing)
  {
    var window := KeepAfter(st.requestTimes, now - Minute);
    if |window| >= c.maxRequestsPerMinute && window == [] then
      (st.(requestTimes := window), WindowIndexError)
    else
      var wait := PeakWait(c, hour) + FullWindowWait(c.maxRequestsPerMinute, window, now)
                  + GapWait(st.lastRequestTime, now, minDelay);
      (PacerState(window + [now + wait], now + wait), Paced(wait))
  }

  /** Each successful call keeps the recent entries, appends exactly one
      timestamp — the clock after all waits — and makes it the last request
      time; the wait is never negative and includes the peak cooldown exactly
      in peak hours. */
  lemma PaceRecordsOneRequest(c: ScrapingConfig, st: PacerState, now: real, hour: int, minDelay: real)
    requires Pace(c, st, now, hour, minDelay).1.Paced?
    ensures var (st', p) := Pace(c, st, now, hour, minDelay);
      && p.wait >= PeakWait(c, hour)
      && st'.requestTimes == KeepAfter(st.requestTimes, now - Minute) + [now + p.wait]
      && st'.lastRequestTime == now + p.wait
  {
  }

  /** The `IndexError` happens exactly when the limit is below one and no
      recent request is left in the window; the pruned window is kept. */
  lemma PaceFailsOnlyWithoutLimit(c: ScrapingConfig, st: PacerState, now: real, hour: int, minDelay: real)
    ensures Pace(c, st, now, hour, minDelay).1.WindowIndexError? <==>
      c.maxRequestsPerMinute <= 0 && KeepAfter(st.requestTimes, now - Minute) == []
    ensures Pace(c, st, now, hour, minDelay).1.WindowIndexError? ==>
      Pace(c, st, now, hour, minDelay).0 == st.(requestTimes := [])
  {
  }

  /** When the pruned window is full, the wait for its oldest entry to leave
      is always positive, because pruning kept only entries of the last minute. */
  lemma {:induction false} WindowWaitPositive(times: seq<real>, now: real)
    requires KeepAfter(times, now - Minute) != []
    ensures Minute - (now - KeepAfter(times, now - Minute)[0]) > 0.0
  {
  }

  /** At most `limit` of the recorded times lie in the trailing minute that
      ends at the most recent one. */
  predicate CapHolds(times: seq<real>, limit: int) {
    times == [] || |KeepAfter(times, times[|times| - 1] - Minute)| <= limit
  }

  /** Appending a time at least a minute past the window's first entry to a
      window holding at most `limit` entries leaves at most `limit` entries in
      the minute ending at the appended time. */
  lemma {:induction false} AppendKeepsCap(window: seq<real>, recorded: real, limit: int)
    requires 1 <= limit && |window| <= limit
    requires |window| >= limit ==> window[0] + Minute <= recorded
    ensures CapHolds(window + [recorded], limit)
  {
    var all := window + [recorded];
    assert all[|all| - 1] == recorded;
    KeepAfterAppend(window, [recorded], recorded - Minute);
    assert KeepAfter([recorded], recorded - Minute) == [recorded];
    var shared := KeepAfter(window, recorded - Minute);
    assert |KeepAfter(all, recorded - Minute)| == |shared| + 1;
    if |window| >= limit {
      assert shared == KeepAfter(window[1..], recorded - Minute);
    }
  }

  /** The pruned window of a capped history holds at most the limit. */
  lemma {:induction false} WindowWithinCap(times: seq<real>, now: real, limit: int)
    requires CapHolds(times, limit) && 0 <= limit
    requires times != [] ==> times[|times| - 1] <= now
    ensures |KeepAfter(times, now - Minute)| <= limit
  {
    if times != [] {
      KeepAfterMonotone(times, times[|times| - 1] - Minute, now - Minute);
    }
  }

  /** The rate cap: with a limit of at least one request and a clock that
      does not run backwards, a call that starts under the cap leaves the
      recorded times under the cap, sorted, and ending in the new request. */
  lemma {:induction false} PaceKeepsCap(c: ScrapingConfig, st: PacerState, now: real, hour: int, minDelay: real)
    requires c.maxRequestsPerMinute >= 1
    requires Sorted(st.requestTimes) && CapHolds(st.requestTimes, c.maxRequestsPerMinute)
    requires st.requestTimes != [] ==> st.requestTimes[|st.requestTimes| - 1] <= now
    ensures Pace(c, st, now, hour, minDelay).1.Paced?
    ensures Sorted(Pace(c, st, now, hour, minDelay).0.requestTimes)
    ensures CapHolds(Pace(c, st, now, hour, minDelay).0.requestTimes, c.maxRequestsPerMinute)
  {
    PacedResult(c, st, now, hour, minDelay);
    WindowStep(st.requestTimes, now, Pace(c, st, now, hour, minDelay).0.lastRequestTime, c.maxRequestsPerMinute);
  }

  /** Pruning a sorted, capped history at `now` and recording a time no
      earlier than `now` — and, when the window is full, at least a minute
      after its oldest entry — gives a sorted, capped history. */
  lemma WindowStep(times: seq<real>, now: real, recorded: real, limit: int)
    requires 1 <= limit
    requires Sorted(times) && CapHolds(times, limit)
    requires times != [] ==> times[|times| - 1] <= now
    requires now <= recorded
    requires |KeepAfter(times, now - Minute)| >= limit ==> KeepAfter(times, now - Minute)[0] + Minute <= recorded
    ensures Sorted(KeepAfter(times, now - Minute) + [recorded])
    ensures CapHolds(KeepAfter(times, now - Minute) + [recorded], limit)
  {
    KeepAfterSorted(times, now - Minute);
    KeepAfterBelowLast(times, now - Minute);
    AppendLatest(KeepAfter(times, now - Minute), recorded);
    WindowWithinCap(times, now, limit);
    AppendKeepsCap(KeepAfter(times, now - Minute), recorded, limit);
  }

  /** A call with a limit of at least one always succeeds: it records one
      time, no earlier than the clock reading and, when the pruned window is
      full, at least a minute after the window's oldest entry. */
  lemma PacedResult(c: ScrapingConfig, st: PacerState, now: real, hour: int, minDelay: real)
    requires c.maxRequestsPerMinute >= 1
    ensures Pace(c, st, now, hour, minDelay).1.Paced?
    ensures var st' := Pace(c, st, now, hour, minDelay).0;
      var window := KeepAfter(st.requestTimes, now - Minute);
      && st'.requestTimes == window + [st'.lastRequestTime]
      && now <= st'.lastRequestTime
      && (|window| >= c.maxRequestsPerMinute ==> window[0] + Minute <= st'.lastRequestTime)
  {
  }

  /** Appending a time no earlier than every entry keeps a window sorted. */
  lemma AppendLatest(window: seq<real>, recorded: real)
    requires Sorted(window)
    requires forall i | 0 <= i < |window| :: window[i] <= recorded
    ensures Sorted(window + [recorded])
  {
  }

  /** A limiter that starts empty with a limit below one fails on every call
      and stays empty. */
  lemma AlwaysFailsWithoutLimit(c: ScrapingConfig, last: real, now: real, hour: int, minDelay: real)
    requires c.maxRequestsPerMinute <= 0
    ensures Pace(c, PacerState([], last), now, hour, minDelay) ==
      (PacerState([], last), WindowIndexError)
  {
  }

  /** `last_request_time` starts at 0, so against a real clock (any reading
      past the largest delay) the first call takes no minimum-gap wait: outside
      peak hours it does not wait at all. */
  lemma FirstCallTakesNoGap(c: ScrapingConfig, now: real, hour: int, minDelay: real)
    requires c.maxRequestsPerMinute >= 1
    requires minDelay <= c.maxDelayBetweenRequests <= now
    ensures Pace(c, PacerState([], 0.0), now, hour, minDelay).1 == Paced(PeakWait(c, hour))
  {
  }

  /** `RateLimiter`: the pacer's state as the object holds it. */
  class RateLimiter {
    const config: ScrapingConfig
    var requestTimes: seq<real>
    var lastRequestTime: real

    constructor (config: ScrapingConfig)
      ensures this.config == config
      ensures requestTimes == [] && lastRequestTime == 0.0
    {
      this.config := config;
      requestTimes := [];
      lastRequestTime := 0.0;
    }

    function State(): PacerState
      reads this
    {
      PacerState(requestTimes, lastRequestTime)
    }

    /** `wait_if_needed()`: returns the total wait it imposes, or the
        `IndexError` of an empty window under a limit below one. */
    method WaitIfNeeded(now: real, hour: int, minDelay: real) returns (r: Pacing)
      modifies this
      ensures (State(), r) == Pace(config, old(State()), now, hour, minDelay)
    {
      ghost var st := State();
      var wait := 0.0;
      if config.avoidPeakHours && config.peakStartHour <= hour <= config.peakEndHour {
        wait := wait + Minute;
      }
      assert wait == PeakWait(config, hour);
      var minuteAgo := now - Minute;
      var window := KeepAfter(requestTimes, minuteAgo);
      requestTimes := window;
      if |requestTimes| >= config.maxRequestsPerMinute {
        if requestTimes == [] {
          r := WindowIndexError;
          return;
        }
        var sleepTime := Minute - (now - requestTimes[0]);
        if sleepTime > 0.0 {
          wait := wait + sleepTime;
        }
      }
      assert wait == PeakWait(config, hour) + FullWindowWait(config.maxRequestsPerMinute, window, now);
      var timeSinceLast := now - lastRequestTime;
      if timeSinceLast < minDelay {
        wait := wait + (minDelay - timeSinceLast);
      }
      assert wait == PeakWait(config, hour) + FullWindowWait(config.maxRequestsPerMinute, window, now)
                     + GapWait(st.lastRequestTime, now, minDelay);
      requestTimes := requestTimes + [now + wait];
      lastRequestTime := now + wait;
      r := Paced(wait);
    }
  }
}
