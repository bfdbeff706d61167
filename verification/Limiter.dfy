/**
 The limiter that spaces the calls of the workers. Times are nanoseconds; the zero time of
 a new limiter lies far before any arrival. Waiting for the reserved moment is not modelled:
 a call that is cancelled while it waits keeps its reservation.
 */
module Limiter {
  const SECOND: int := 1_000_000_000

  function Max(a: int, b: int): int {
    if a < b then b else a
  }

  /** No limiter, or an interval that rounds to nothing, lets every call through at once. */
  function Interval(qps: int): int {
    if qps <= 0 then 0 else SECOND / qps
  }

  class Limiter {
    const interval: int
    var last: int

    constructor (qps: int, zero: int)
      ensures interval == Interval(qps) && last == zero
    {
      interval := if qps <= 0 then 0 else SECOND / qps;
      last := zero;
    }

    /** The locked part: the moment at which this call may go ahead. */
    method Reserve(now: int) returns (at: int)
      modifies this
      ensures at == Reservation(interval, old(last), now)
      ensures last == if interval <= 0 then old(last) else at
    {
      if interval <= 0 {
        return now;
      }
      var next := last + interval;
      var wait := next - now;
      if wait < 0 {
        wait := 0;
      }
      last := now + wait;
      return last;
    }

    /** A run of calls, in the order in which they take the lock. */
    method ReserveEach(arrivals: seq<int>) returns (times: seq<int>)
      modifies this
      ensures times == Schedule(interval, old(last), arrivals)
    {
      times := [];
      for i := 0 to |arrivals|
        invariant times + Schedule(interval, last, arrivals[i..]) == Schedule(interval, old(last), arrivals)
      {
        ghost var before := last;
        assert arrivals[i..][0] == arrivals[i] && arrivals[i..][1..] == arrivals[i + 1..];
        var at := Reserve(arrivals[i]);
        assert times + Schedule(interval, before, arrivals[i..])
            == times + [at] + Schedule(interval, last, arrivals[i + 1..]);
        times := times + [at];
      }
    }
  }

  function Reservation(interval: int, last: int, now: int): int {
    if interval <= 0 then now else Max(now, last + interval)
  }

  /** The moments reserved for a run of arrivals. */
  function Schedule(interval: int, last: int, arrivals: seq<int>): (times: seq<int>)
    ensures |times| == |arrivals|
    decreases |arrivals|
  {
    if interval <= 0 || arrivals == [] then arrivals
    else
      var at := Reservation(interval, last, arrivals[0]);
      [at] + Schedule(interval, at, arrivals[1..])
  }

  // ---- Spacing -------------------------------------------------------------------------------

  ghost predicate NotBefore(times: seq<int>, arrivals: seq<int>) {
    && |times| == |arrivals|
    && forall i :: 0 <= i < |times| ==> arrivals[i] <= times[i]
  }

  /** Each moment is at least an interval after the one before it. */
  ghost predicate SpacedFrom(interval: int, last: int, times: seq<int>)
    decreases |times|
  {
    times == [] || (last + interval <= times[0] && SpacedFrom(interval, times[0], times[1..]))
  }

  lemma {:induction false} ScheduleIsSpaced(interval: int, last: int, arrivals: seq<int>)
    requires interval > 0
    ensures SpacedFrom(interval, last, Schedule(interval, last, arrivals))
    ensures NotBefore(Schedule(interval, last, arrivals), arrivals)
    decreases |arrivals|
  {
    if arrivals != [] {
      ScheduleIsSpaced(interval, Reservation(interval, last, arrivals[0]), arrivals[1..]);
    }
  }

  /** No schedule that keeps the spacing and serves nobody before arrival is earlier anywhere. */
  lemma {:induction false} ScheduleIsEarliest(interval: int, last: int, arrivals: seq<int>, other: seq<int>)
    requires interval > 0 && NotBefore(other, arrivals) && SpacedFrom(interval, last, other)
    ensures forall i :: 0 <= i < |other| ==> Schedule(interval, last, arrivals)[i] <= other[i]
    decreases |arrivals|
  {
    if arrivals != [] {
      var at := Reservation(interval, last, arrivals[0]);
      SpacedEarlier(interval, at, other[0], other[1..]);
      ScheduleIsEarliest(interval, at, arrivals[1..], other[1..]);
    }
  }

  lemma SpacedEarlier(interval: int, early: int, last: int, times: seq<int>)
    requires early <= last && SpacedFrom(interval, last, times)
    ensures SpacedFrom(interval, early, times)
  {
  }

  lemma {:induction false} SpacedApart(interval: int, last: int, times: seq<int>, j: nat)
    requires SpacedFrom(interval, last, times) && j < |times|
    ensures last + interval * (j + 1) <= times[j]
    decreases j
  {
    if j > 0 {
      SpacedApart(interval, times[0], times[1..], j - 1);
      assert interval * (j + 1) == interval * j + interval;
    }
  }

  lemma {:induction false} SpacedTail(interval: int, last: int, times: seq<int>, i: nat)
    requires SpacedFrom(interval, last, times) && i < |times|
    ensures SpacedFrom(interval, times[i], times[i + 1..])
    decreases i
  {
    if i > 0 {
      SpacedTail(interval, times[0], times[1..], i - 1);
      assert times[1..][i..] == times[i + 1..];
    }
  }

  // ---- How many calls a stretch of time lets through -----------------------------------------

  /** The calls that go ahead at or after t and less than `length` later. */
  function Within(times: seq<int>, t: int, length: int): set<nat> {
    set i: nat | i < |times| && t <= times[i] < t + length
  }

  lemma {:induction false} StretchSize(s: set<nat>, low: nat, count: nat)
    requires forall i :: i in s ==> low <= i < low + count
    ensures |s| <= count
    decreases count
  {
    if count == 0 {
      assert s == {};
    } else {
      StretchSize(s - {low}, low + 1, count - 1);
      assert |s| <= |s - {low}| + 1;
    }
  }

  lemma {:induction false} FirstOf(s: set<nat>, n: nat) returns (low: nat)
    requires n in s
    ensures low in s && forall i :: i in s ==> low <= i
    decreases n
  {
    low := n;
    if i: nat :| i in s && i < n {
      low := FirstOf(s, i);
    }
  }

  lemma TimesGrows(interval: int, a: int, b: int)
    requires interval >= 0 && a <= b
    ensures interval * a <= interval * b
  {
  }

  /** k turns later is at least k intervals later. */
  lemma TurnsApart(interval: int, last: int, times: seq<int>, i: nat, j: nat, k: nat)
    requires interval > 0 && SpacedFrom(interval, last, times) && i <= j < |times| && i + k <= j
    ensures times[i] + interval * k <= times[j]
  {
    if i < j {
      hide SpacedFrom;
      SpacedTail(interval, last, times, i);
      SpacedApart(interval, times[i], times[i + 1..], j - i - 1);
      TimesGrows(interval, k, j - i);
    }
  }

  /** A window of length k intervals, open on the right, lets at most k calls through. */
  lemma WindowHoldsAtMost(interval: int, last: int, arrivals: seq<int>, t: int, k: nat)
    requires interval > 0
    ensures |Within(Schedule(interval, last, arrivals), t, interval * k)| <= k
  {
    hide SpacedFrom, Schedule, NotBefore;
    var times := Schedule(interval, last, arrivals);
    var inside := Within(times, t, interval * k);
    if n :| n in inside {
      var low := FirstOf(inside, n);
      ScheduleIsSpaced(interval, last, arrivals);
      forall i | i in inside ensures low <= i < low + k {
        if i >= low + k {
          TurnsApart(interval, last, times, low, i, k);
        }
      }
      StretchSize(inside, low, k);
    }
  }

  // ---- The rate itself -----------------------------------------------------------------------

  /** What the configured rate promises: no second lets more than qps calls through. */
  ghost predicate KeepsRate(qps: int) {
    forall last, arrivals, t :: |Within(Schedule(Interval(qps), last, arrivals), t, SECOND)| <= qps
  }

  /** Calls that all arrive at 0 go ahead at start, start + interval, start + 2 * interval, ... */
  lemma {:induction false} BurstIsPacked(interval: int, start: nat, arrivals: seq<int>)
    requires interval > 0 && forall i :: 0 <= i < |arrivals| ==> arrivals[i] == 0
    ensures forall i :: 0 <= i < |arrivals| ==>
      Schedule(interval, start - interval, arrivals)[i] == start + interval * i
    decreases |arrivals|
  {
    if arrivals != [] {
      var rest := arrivals[1..];
      BurstIsPacked(interval, start + interval, rest);
      var times := Schedule(interval, start - interval, arrivals);
      forall i | 0 <= i < |times| ensures times[i] == start + interval * i {
        if i > 0 {
          assert times[i] == Schedule(interval, start, rest)[i - 1];
          assert interval * i == interval + interval * (i - 1);
        }
      }
    }
  }

  /** qps + 1 calls that arrive together all go ahead within a second if rounding gains time. */
  lemma BurstExceedsRate(qps: nat, interval: int, arrivals: seq<int>)
    requires interval >= 0 && interval * qps < SECOND
    requires |arrivals| == qps + 1 && forall i :: 0 <= i < |arrivals| ==> arrivals[i] == 0
    ensures |Within(Schedule(interval, -interval, arrivals), 0, SECOND)| > qps
  {
    if interval > 0 {
      BurstIsPacked(interval, 0, arrivals);
    }
    var times := Schedule(interval, -interval, arrivals);
    forall i: nat | i <= qps ensures i in Within(times, 0, SECOND) {
      hide Schedule;
      assert times[i] == interval * i;
      TimesGrows(interval, i, qps);
      TimesGrows(interval, 0, i);
    }
    AllOf(Within(times, 0, SECOND), qps + 1);
  }

  /** The rate is kept exactly when it divides a second; otherwise rounding the interval down
      lets one more call into some second. */
  lemma RateIsKeptIfItDividesASecond(qps: int)
    requires qps > 0
    ensures KeepsRate(qps) <==> SECOND % qps == 0
  {
    hide Schedule, Within;
    var interval := Interval(qps);
    assert SECOND == interval * qps + SECOND % qps;
    if SECOND % qps == 0 {
      assert interval > 0;
      forall last, arrivals, t ensures |Within(Schedule(interval, last, arrivals), t, SECOND)| <= qps {
        WindowHoldsAtMost(interval, last, arrivals, t, qps);
      }
    } else {
      BurstExceedsRate(qps, interval, seq(qps + 1, i => 0));
    }
  }

  /** Without a rate, and above a thousand million calls a second, nobody waits. */
  lemma NobodyWaits(qps: int, last: int, arrivals: seq<int>)
    requires qps <= 0 || qps > 1_000_000_000
    ensures Schedule(Interval(qps), last, arrivals) == arrivals
  {
  }

  lemma {:induction false} AllOf(s: set<nat>, n: nat)
    requires forall i: nat :: i < n ==> i in s
    ensures |s| >= n
  {
    if n > 0 {
      AllOf(s - {n - 1}, n - 1);
      assert |s| == |s - {n - 1}| + 1;
    }
  }
}
