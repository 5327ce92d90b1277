/** bus_frequency/src/main.rs: the busiest hour at each stop. Times are seconds since
    midnight and the window is a non-negative number of seconds (one hour in use). */
module BusFrequency {
  import opened Sorting
  import Gtfs

  const ONE_HOUR: nat := 3600

  /** The number of `j` in `[lo, hi)` with `t[j] <= limit`. */
  function CountRange(t: seq<int>, limit: int, lo: nat, hi: nat): (c: nat)
    requires lo <= hi <= |t|
    ensures c <= hi - lo
    decreases hi - lo
  {
    if lo == hi then 0 else CountRange(t, limit, lo, hi - 1) + (if t[hi - 1] <= limit then 1 else 0)
  }

  /** How many of the times from `t[s]` on, leaving out the last time, fall in the
      window that opens at `t[s]`. */
  function CountWithin(t: seq<int>, s: nat, window: nat): nat
    requires s < |t| - 1
  {
    CountRange(t, t[s] + window, s, |t| - 1)
  }

  /** The largest window count over the starts `[0, k)`. */
  function MaxOver(t: seq<int>, window: nat, k: nat): nat
    requires k <= |t| - 1
  {
    if k == 0 then 0
    else
      var prev := MaxOver(t, window, k - 1);
      var c := CountWithin(t, k - 1, window);
      if prev < c then c else prev
  }

  /** What `sliding_window_peak` computes on sorted times. */
  function Peak(t: seq<int>, window: nat): nat {
    if |t| == 0 then 0 else if |t| == 1 then 1 else MaxOver(t, window, |t| - 1)
  }

  lemma {:induction false} CountRangeAll(t: seq<int>, limit: int, lo: nat, hi: nat)
    requires lo <= hi <= |t|
    requires forall j :: lo <= j < hi ==> t[j] <= limit
    ensures CountRange(t, limit, lo, hi) == hi - lo
    decreases hi - lo
  {
    if lo < hi {
      CountRangeAll(t, limit, lo, hi - 1);
    }
  }

  lemma {:induction false} CountRangeNone(t: seq<int>, limit: int, lo: nat, hi: nat)
    requires lo <= hi <= |t|
    requires forall j :: lo <= j < hi ==> t[j] > limit
    ensures CountRange(t, limit, lo, hi) == 0
    decreases hi - lo
  {
    if lo < hi {
      CountRangeNone(t, limit, lo, hi - 1);
    }
  }

  lemma {:induction false} CountRangeSplit(t: seq<int>, limit: int, lo: nat, mid: nat, hi: nat)
    requires lo <= mid <= hi <= |t|
    ensures CountRange(t, limit, lo, hi) == CountRange(t, limit, lo, mid) + CountRange(t, limit, mid, hi)
    decreases hi - mid
  {
    if mid < hi {
      CountRangeSplit(t, limit, lo, mid, hi - 1);
    }
  }

  /** On sorted times, the window opening at `t[s]` holds exactly `t[s..e]` once `e` is
      the first index past the window (or the last index, which is never counted). */
  lemma WindowCount(t: seq<int>, s: nat, e: nat, window: nat)
    requires Sorted(t) && s <= e <= |t| - 1 && s < |t| - 1
    requires forall j :: s <= j < e ==> t[j] - t[s] <= window
    requires e == |t| - 1 || t[e] - t[s] > window
    ensures CountWithin(t, s, window) == e - s
  {
    CountRangeSplit(t, t[s] + window, s, e, |t| - 1);
    CountRangeAll(t, t[s] + window, s, e);
    CountRangeNone(t, t[s] + window, e, |t| - 1);
  }

  /** `sliding_window_peak`: sort, then slide a window over the times with two indices
      that only move forward. */
  method SlidingWindowPeak(times: seq<int>, window: nat) returns (maxCount: nat)
    ensures maxCount == Peak(Sort(times), window)
  {
    var t := Sort(times);
    maxCount := Slide(t, window);
  }

  /** The sliding part of `sliding_window_peak`, on times already sorted. */
  method Slide(t: seq<int>, window: nat) returns (maxCount: nat)
    requires Sorted(t)
    ensures maxCount == Peak(t, window)
  {
    if |t| == 0 {
      return 0;
    }
    if |t| == 1 {
      return 1;
    }
    var startIdx, endIdx := 0, 0;
    maxCount := 0;
    while startIdx < |t| - 1
      invariant startIdx <= |t| - 1 && startIdx <= endIdx <= |t| - 1
      invariant forall j :: startIdx <= j < endIdx ==> t[j] - t[startIdx] <= window
      invariant maxCount == MaxOver(t, window, startIdx)
    {
      while endIdx < |t| - 1 && t[endIdx] - t[startIdx] <= window
        invariant startIdx <= endIdx <= |t| - 1
        invariant forall j :: startIdx <= j < endIdx ==> t[j] - t[startIdx] <= window
      {
        endIdx := endIdx + 1;
      }
      WindowCount(t, startIdx, endIdx, window);
      var count := endIdx - startIdx;
      maxCount := if maxCount < count then count else maxCount;
      startIdx := startIdx + 1;
    }
  }

  /** The peak lies between 1 and all but one of the times once there are two. */
  lemma {:induction false} MaxOverBounds(t: seq<int>, window: nat, k: nat)
    requires 1 <= k <= |t| - 1
    ensures 1 <= MaxOver(t, window, k) <= |t| - 1
  {
    if k > 1 {
      MaxOverBounds(t, window, k - 1);
    }
    assert t[k - 1] <= t[k - 1] + window;
    CountRangeSplit(t, t[k - 1] + window, k - 1, k, |t| - 1);
  }

  /** No times, no peak; one time, a peak of one; otherwise at least one and never all. */
  lemma PeakBounds(times: seq<int>, window: nat)
    ensures |times| == 0 ==> Peak(Sort(times), window) == 0
    ensures |times| == 1 ==> Peak(Sort(times), window) == 1
    ensures |times| >= 2 ==> 1 <= Peak(Sort(times), window) <= |times| - 1
  {
    var t := Sort(times);
    assert |t| == |times|;
    PeakBoundsOf(t, window);
  }

  lemma PeakBoundsOf(t: seq<int>, window: nat)
    ensures |t| >= 2 ==> 1 <= Peak(t, window) <= |t| - 1
  {
    if |t| >= 2 {
      MaxOverBounds(t, window, |t| - 1);
    }
  }

  /** The order the times arrive in does not matter. */
  lemma PeakIgnoresOrder(a: seq<int>, b: seq<int>, window: nat)
    requires multiset(a) == multiset(b)
    ensures Peak(Sort(a), window) == Peak(Sort(b), window)
  {
    SortDependsOnMultiset(a, b);
  }

  /** Two buses an hour apart or more: a peak of one. */
  lemma FixtureTwoTimes()
    ensures Peak(Sort([25980, 32700]), ONE_HOUR) == 1
  {
    SortSorted([25980, 32700]);
  }

  /** 05:00, 07:05, 07:10, 07:15, 07:20, 08:30, 08:45: the four buses of 07:05-07:20. */
  lemma FixtureOnTheHour()
    ensures Peak(Sort([18000, 25500, 25800, 26100, 26400, 30600, 31500]), ONE_HOUR) == 4
  {
    var t := [18000, 25500, 25800, 26100, 26400, 30600, 31500];
    SortedAdjacent(t);
    SortSorted(t);
    PeakOnTheHour();
  }

  lemma PeakOnTheHour()
    ensures Peak([18000, 25500, 25800, 26100, 26400, 30600, 31500], ONE_HOUR) == 4
  {
    var t := [18000, 25500, 25800, 26100, 26400, 30600, 31500];
    WindowsOnTheHour(t);
    assert MaxOver(t, ONE_HOUR, 1) == 1;
    assert MaxOver(t, ONE_HOUR, 2) == 4;
    assert MaxOver(t, ONE_HOUR, 3) == 4;
    assert MaxOver(t, ONE_HOUR, 4) == 4;
    assert MaxOver(t, ONE_HOUR, 5) == 4;
  }

  /** The six windows of the times above, one per start. */
  lemma WindowsOnTheHour(t: seq<int>)
    requires t == [18000, 25500, 25800, 26100, 26400, 30600, 31500]
    ensures |t| == 7
    ensures CountWithin(t, 0, ONE_HOUR) == 1 && CountWithin(t, 1, ONE_HOUR) == 4 && CountWithin(t, 2, ONE_HOUR) == 3
    ensures CountWithin(t, 3, ONE_HOUR) == 2 && CountWithin(t, 4, ONE_HOUR) == 1 && CountWithin(t, 5, ONE_HOUR) == 1
  {
    SortedAdjacent(t);
    WindowCount(t, 0, 1, ONE_HOUR);
    WindowCount(t, 1, 5, ONE_HOUR);
    WindowCount(t, 2, 5, ONE_HOUR);
    WindowCount(t, 3, 5, ONE_HOUR);
    WindowCount(t, 4, 5, ONE_HOUR);
    WindowCount(t, 5, 6, ONE_HOUR);
  }

  /** 05:00, 06:35, 07:10, 07:15, 07:20, 08:30, 08:45: the peak hour opens at 06:35. */
  lemma FixtureOffTheHour()
    ensures Peak(Sort([18000, 23700, 25800, 26100, 26400, 30600, 31500]), ONE_HOUR) == 4
  {
    var t := [18000, 23700, 25800, 26100, 26400, 30600, 31500];
    SortedAdjacent(t);
    SortSorted(t);
    PeakOffTheHour();
  }

  lemma PeakOffTheHour()
    ensures Peak([18000, 23700, 25800, 26100, 26400, 30600, 31500], ONE_HOUR) == 4
  {
    var t := [18000, 23700, 25800, 26100, 26400, 30600, 31500];
    WindowsOffTheHour(t);
    assert MaxOver(t, ONE_HOUR, 1) == 1;
    assert MaxOver(t, ONE_HOUR, 2) == 4;
    assert MaxOver(t, ONE_HOUR, 3) == 4;
    assert MaxOver(t, ONE_HOUR, 4) == 4;
    assert MaxOver(t, ONE_HOUR, 5) == 4;
  }

  /** The six windows of the times above, one per start. */
  lemma WindowsOffTheHour(t: seq<int>)
    requires t == [18000, 23700, 25800, 26100, 26400, 30600, 31500]
    ensures |t| == 7
    ensures CountWithin(t, 0, ONE_HOUR) == 1 && CountWithin(t, 1, ONE_HOUR) == 4 && CountWithin(t, 2, ONE_HOUR) == 3
    ensures CountWithin(t, 3, ONE_HOUR) == 2 && CountWithin(t, 4, ONE_HOUR) == 1 && CountWithin(t, 5, ONE_HOUR) == 1
  {
    SortedAdjacent(t);
    WindowCount(t, 0, 1, ONE_HOUR);
    WindowCount(t, 1, 5, ONE_HOUR);
    WindowCount(t, 2, 5, ONE_HOUR);
    WindowCount(t, 3, 5, ONE_HOUR);
    WindowCount(t, 4, 5, ONE_HOUR);
    WindowCount(t, 5, 6, ONE_HOUR);
  }

  /** The end index stops one short of the last time, so the last time is never
      counted: two buses half an hour apart give a peak of one. */
  lemma LastTimeNeverCounted()
    ensures Peak(Sort([0, 1800]), ONE_HOUR) == 1
  {
    SortSorted([0, 1800]);
  }

  /** The most times on any one day. */
  function MaxTotal(days: seq<seq<int>>): (m: nat)
    ensures forall i :: 0 <= i < |days| ==> |days[i]| <= m
    ensures days == [] ==> m == 0
    ensures days != [] ==> exists i :: 0 <= i < |days| && |days[i]| == m
  {
    if days == [] then 0
    else
      var prev := MaxTotal(days[..|days| - 1]);
      assert forall i :: 0 <= i < |days| - 1 ==> days[..|days| - 1][i] == days[i];
      if prev < |days[|days| - 1]| then |days[|days| - 1]| else prev
  }

  /** The largest per-day peak. */
  function MaxPeak(days: seq<seq<int>>, window: nat): (m: nat)
    ensures forall i :: 0 <= i < |days| ==> Peak(Sort(days[i]), window) <= m
    ensures days == [] ==> m == 0
  {
    if days == [] then 0
    else
      var prev := MaxPeak(days[..|days| - 1], window);
      var p := Peak(Sort(days[|days| - 1]), window);
      assert forall i :: 0 <= i < |days| - 1 ==> days[..|days| - 1][i] == days[i];
      if prev < p then p else prev
  }

  /** The largest peak is the peak of some day. */
  lemma {:induction false} MaxPeakAttained(days: seq<seq<int>>, window: nat)
    requires days != []
    ensures exists i :: 0 <= i < |days| && Peak(Sort(days[i]), window) == MaxPeak(days, window)
  {
    var n := |days| - 1;
    var init := days[..n];
    var p := Peak(Sort(days[n]), window);
    if init == [] || MaxPeak(init, window) < p {
      assert Peak(Sort(days[n]), window) == MaxPeak(days, window);
    } else {
      MaxPeakAttained(init, window);
      var j :| 0 <= j < |init| && Peak(Sort(init[j]), window) == MaxPeak(init, window);
      assert init[j] == days[j];
      assert Peak(Sort(days[j]), window) == MaxPeak(days, window);
    }
  }

  /** A stop's busiest hour never has more buses than its busiest day. */
  lemma PeakAtMostTotal(days: seq<seq<int>>, window: nat)
    ensures MaxPeak(days, window) <= MaxTotal(days)
  {
    if days != [] {
      MaxPeakAttained(days, window);
      var i :| 0 <= i < |days| && Peak(Sort(days[i]), window) == MaxPeak(days, window);
      PeakBounds(days[i], window);
    }
  }

  /** Adding one more day to the days seen so far. */
  lemma MaxStep(days: seq<seq<int>>, i: nat, window: nat)
    requires i < |days|
    ensures var m := MaxTotal(days[..i]); MaxTotal(days[..i + 1]) == if m < |days[i]| then |days[i]| else m
    ensures var m := MaxPeak(days[..i], window); var p := Peak(Sort(days[i]), window);
      MaxPeak(days[..i + 1], window) == if m < p then p else m
  {
    assert days[..i + 1][..i] == days[..i];
  }

  /** The per-stop loop over the seven days of `main`. */
  method SummarizeStop(timesPerDay: seq<seq<int>>) returns (maxTotal: nat, maxPeak: nat)
    ensures maxTotal == MaxTotal(timesPerDay)
    ensures maxPeak == MaxPeak(timesPerDay, ONE_HOUR)
  {
    maxTotal, maxPeak := 0, 0;
    for i := 0 to |timesPerDay|
      invariant maxTotal == MaxTotal(timesPerDay[..i])
      invariant maxPeak == MaxPeak(timesPerDay[..i], ONE_HOUR)
    {
      MaxStep(timesPerDay, i, ONE_HOUR);
      var times := timesPerDay[i];
      var total := |times|;
      var peak := SlidingWindowPeak(times, ONE_HOUR);
      maxTotal := if maxTotal < total then total else maxTotal;
      maxPeak := if maxPeak < peak then peak else maxPeak;
    }
    assert timesPerDay[..|timesPerDay|] == timesPerDay;
  }

  /** One output point: the stop's id, name, position and its two maxima. */
  datatype StopSummary = StopSummary(stopId: string, stopName: string, lon: real, lat: real, total: nat, peak: nat)

  /** The feature written for stop `k`: its own details and the two maxima of its days. */
  function SummaryOf(k: string, stop: Gtfs.Stop): (s: StopSummary)
    ensures s.peak <= s.total
  {
    PeakAtMostTotal(stop.timesPerDay, ONE_HOUR);
    StopSummary(k, stop.name, stop.lon, stop.lat, MaxTotal(stop.timesPerDay), MaxPeak(stop.timesPerDay, ONE_HOUR))
  }

  /** The loop of `main` over every stop, as the features it writes, keyed by stop id. */
  method SummarizeStops(stops: map<string, Gtfs.Stop>) returns (out: map<string, StopSummary>)
    ensures out.Keys == stops.Keys
    ensures forall k :: k in out ==> out[k] == SummaryOf(k, stops[k])
  {
    out := map[];
    var todo := stops.Keys;
    while todo != {}
      invariant todo <= stops.Keys && out.Keys == stops.Keys - todo
      invariant forall k :: k in out ==> out[k] == SummaryOf(k, stops[k])
      decreases |todo|
    {
      var stopId :| stopId in todo;
      var stop := stops[stopId];
      var total, peak := SummarizeStop(stop.timesPerDay);
      out := out[stopId := StopSummary(stopId, stop.name, stop.lon, stop.lat, total, peak)];
      todo := todo - {stopId};
    }
  }
}
