/** The benchmark loop: a clock, operations that succeed or fail, and the running
    statistics kept in int64 nanoseconds. */
module Benchmark {
  import opened GoText

  /** 9 hours, in nanoseconds. */
  const MAX_DURATION: int64 := 9 * 3600 * 1_000_000_000

  /** One operation as the environment decides it: the time until the clock is read
      before it, its duration, the time until the clock is read again after the
      statistics, and its error text if it fails. */
  datatype Op = Op(lead: nat, duration: nat, lag: nat, error: Option<Bytes>)

  /** One iteration: a write, a read, and by how much the sleep overruns. */
  datatype Iteration = Iteration(write: Op, read: Op, overrun: nat)

  datatype Stats = Stats(min: int64, max: int64, avgTotal: int64, elapsed: int64, err: Bytes)

  /** What time.Since reports, saturating as time.Time.Sub does. */
  function Since(start: nat, now: nat): int64
    requires start <= now
  {
    if now - start > MAX_INT64 then MAX_INT64 else now - start
  }

  // ----- the loop as the source runs it -----

  datatype Outcome = Panicked | Finished

  class Result {
    var min: int64
    var max: int64
    var avgTotal: int64
    var elapsed: int64
    var err: Bytes

    constructor ()
      ensures View() == Stats(MAX_DURATION, 0, 0, 0, [])
    {
      min, max, avgTotal, elapsed, err := MAX_DURATION, 0, 0, 0, [];
    }

    function View(): Stats
      reads this
    {
      Stats(min, max, avgTotal, elapsed, err)
    }

    /** One operation starting at `now`, with its bookkeeping. */
    method Measure(op: Op, workerStart: nat, now: nat) returns (now': nat)
      requires workerStart <= now
      modifies this
      ensures now' == EndOf(op, now) && View() == Record(old(View()), op, workerStart, now)
    {
      var startTime := now + op.lead;
      now' := startTime + op.duration;
      match op.error
      case Some(text) =>
        err := text;
      case None =>
        var took := Since(startTime, now');
        if took < min {
          min := took;
        }
        if took > max {
          max := took;
        }
        avgTotal := WrapAdd(avgTotal, took);
        now' := now' + op.lag;
        elapsed := Since(workerStart, now');
    }
  }

  /** rand.Int63n panics on a period that is not positive, before anything is timed. */
  method BenchOperation(iterations: seq<Iteration>, period: int64, workerStart: nat)
    returns (outcome: Outcome, result: Result, now: nat)
    ensures fresh(result)
    ensures outcome == Panicked <==> period <= 0
    ensures outcome == Panicked ==> now == workerStart
    ensures outcome == Finished ==>
              now == ClockAfter(iterations, period, workerStart)
              && result.View() == StatsAfter(iterations, period, workerStart)
  {
    result := new Result();
    now := workerStart;
    if period <= 0 {
      return Panicked, result, now;
    }
    for i := 0 to |iterations|
      invariant workerStart <= now == ClockAfter(iterations[..i], period, workerStart)
      invariant result.View() == StatsAfter(iterations[..i], period, workerStart)
    {
      assert iterations[..i + 1][..i] == iterations[..i];
      result.err := [];
      now := result.Measure(iterations[i].write, workerStart, now);
      now := result.Measure(iterations[i].read, workerStart, now);
      now := now + period + iterations[i].overrun;
    }
    assert iterations[..|iterations|] == iterations;
    outcome := Finished;
  }

  // ----- its specification -----

  function EndOf(op: Op, now: nat): nat {
    now + op.lead + op.duration + if op.error == None then op.lag else 0
  }

  function Record(s: Stats, op: Op, workerStart: nat, now: nat): Stats
    requires workerStart <= now
  {
    match op.error
    case Some(text) => s.(err := text)
    case None =>
      var took := Since(now + op.lead, now + op.lead + op.duration);
      Stats(if took < s.min then took else s.min, if took > s.max then took else s.max,
            WrapAdd(s.avgTotal, took), Since(workerStart, EndOf(op, now)), s.err)
  }

  function ClockAfter(iterations: seq<Iteration>, period: nat, workerStart: nat): (now: nat)
    ensures workerStart <= now
  {
    if iterations == [] then workerStart
    else
      var n := |iterations| - 1;
      var it := iterations[n];
      var before := ClockAfter(iterations[..n], period, workerStart);
      EndOf(it.read, EndOf(it.write, before)) + period + it.overrun
  }

  function StatsAfter(iterations: seq<Iteration>, period: nat, workerStart: nat): Stats {
    if iterations == [] then Stats(MAX_DURATION, 0, 0, 0, [])
    else
      var n := |iterations| - 1;
      var it := iterations[n];
      var now := ClockAfter(iterations[..n], period, workerStart);
      var before := StatsAfter(iterations[..n], period, workerStart);
      Record(Record(before.(err := []), it.write, workerStart, now), it.read, workerStart, EndOf(it.write, now))
  }

  // ----- folds over the trace -----

  function Took(op: Op): seq<nat> { if op.error == None then [op.duration] else [] }

  /** The durations of the successful operations, in order. */
  function Durations(iterations: seq<Iteration>): seq<nat> {
    if iterations == [] then []
    else
      var it := iterations[|iterations| - 1];
      Durations(iterations[..|iterations| - 1]) + Took(it.write) + Took(it.read)
  }

  function Sum(ds: seq<nat>): nat {
    if ds == [] then 0 else Sum(ds[..|ds| - 1]) + ds[|ds| - 1]
  }

  predicate IsMinimum(m: int, ds: seq<nat>, ceiling: int) {
    && (m == ceiling || m in ds)
    && m <= ceiling && forall i :: 0 <= i < |ds| ==> m <= ds[i]
  }

  predicate IsMaximum(m: int, ds: seq<nat>) {
    && (m == 0 || m in ds)
    && m >= 0 && forall i :: 0 <= i < |ds| ==> ds[i] <= m
  }

  /** The statistics are the folds, and time is conserved. */
  predicate Faithful(s: Stats, ds: seq<nat>, workerStart: nat, now: nat, slept: nat) {
    && IsMinimum(s.min, ds, MAX_DURATION)
    && IsMaximum(s.max, ds)
    && s.avgTotal == Sum(ds)
    && workerStart + s.avgTotal + slept <= now
  }

  lemma RecordFaithful(s: Stats, op: Op, ds: seq<nat>, workerStart: nat, now: nat, slept: nat)
    requires Faithful(s, ds, workerStart, now, slept)
    requires EndOf(op, now) - workerStart <= MAX_INT64
    ensures Faithful(Record(s, op, workerStart, now), ds + Took(op), workerStart, EndOf(op, now), slept)
    ensures op.error == None ==>
              Record(s, op, workerStart, now).elapsed == EndOf(op, now) - workerStart
  {
    assert (ds + Took(op))[..|ds|] == ds;
    if op.error == None {
      var all := ds + [op.duration];
      assert all[|ds|] == op.duration;
      assert forall d :: d in ds ==> d in all;
    } else {
      assert ds + [] == ds;
    }
  }

  predicate Succeeds(it: Iteration) { it.write.error == None || it.read.error == None }

  lemma OneMore(n: nat, x: int)
    ensures (n + 1) * x == n * x + x
  {
  }

  /** Both operations of one iteration. */
  lemma IterationFaithful(s: Stats, it: Iteration, ds: seq<nat>, workerStart: nat, now: nat, slept: nat)
    requires Faithful(s, ds, workerStart, now, slept)
    requires EndOf(it.read, EndOf(it.write, now)) - workerStart <= MAX_INT64
    ensures var middle := EndOf(it.write, now);
            var s' := Record(Record(s.(err := []), it.write, workerStart, now), it.read, workerStart, middle);
            && Faithful(s', ds + Took(it.write) + Took(it.read), workerStart, EndOf(it.read, middle), slept)
            && (Succeeds(it) ==> s'.avgTotal + slept <= s'.elapsed <= EndOf(it.read, middle) - workerStart)
  {
    var middle := EndOf(it.write, now);
    RecordFaithful(s.(err := []), it.write, ds, workerStart, now, slept);
    RecordFaithful(Record(s.(err := []), it.write, workerStart, now), it.read, ds + Took(it.write),
                   workerStart, middle, slept);
  }

  lemma AfterSleep(s: Stats, ds: seq<nat>, workerStart: nat, now: nat, slept: nat, period: nat, overrun: nat)
    requires Faithful(s, ds, workerStart, now, slept)
    ensures Faithful(s, ds, workerStart, now + period + overrun, slept + period)
  {
  }

  /** The sleeps of n iterations. */
  function Slept(n: nat, period: nat): nat { if n == 0 then 0 else Slept(n - 1, period) + period }

  lemma {:induction false} SleptIs(n: nat, period: nat)
    ensures Slept(n, period) == n * period
  {
    if n > 0 {
      SleptIs(n - 1, period);
      OneMore(n - 1, period);
    }
  }

  lemma {:induction false} StatsFold(iterations: seq<Iteration>, period: nat, workerStart: nat)
    requires ClockAfter(iterations, period, workerStart) - workerStart <= MAX_INT64
    ensures Faithful(StatsAfter(iterations, period, workerStart), Durations(iterations), workerStart,
                     ClockAfter(iterations, period, workerStart), Slept(|iterations|, period))
  {
    if iterations != [] {
      var n := |iterations| - 1;
      var init, it := iterations[..n], iterations[n];
      StatsFold(init, period, workerStart);
      hide Faithful, Record;
      var now := ClockAfter(init, period, workerStart);
      IterationFaithful(StatsAfter(init, period, workerStart), it, Durations(init), workerStart, now,
                        Slept(n, period));
      AfterSleep(StatsAfter(iterations, period, workerStart), Durations(iterations), workerStart,
                 EndOf(it.read, EndOf(it.write, now)), Slept(n, period), period, it.overrun);
    }
  }

  /** While the run's own duration fits in int64, nothing overflows and the loop's
      statistics are the minimum (with MaxDuration), maximum and sum of the
      successful durations. */
  lemma StatsAreFolds(iterations: seq<Iteration>, period: nat, workerStart: nat)
    requires ClockAfter(iterations, period, workerStart) - workerStart <= MAX_INT64
    ensures Faithful(StatsAfter(iterations, period, workerStart), Durations(iterations), workerStart,
                     ClockAfter(iterations, period, workerStart), |iterations| * period)
  {
    StatsFold(iterations, period, workerStart);
    SleptIs(|iterations|, period);
  }

  lemma LastSuccess(iterations: seq<Iteration>, period: nat, workerStart: nat)
    requires iterations != [] && Succeeds(iterations[|iterations| - 1])
    requires ClockAfter(iterations, period, workerStart) - workerStart <= MAX_INT64
    ensures var s := StatsAfter(iterations, period, workerStart);
            && s.avgTotal + Slept(|iterations| - 1, period) <= s.elapsed
            && workerStart + s.elapsed <= ClockAfter(iterations, period, workerStart)
  {
    var n := |iterations| - 1;
    var init := iterations[..n];
    StatsFold(init, period, workerStart);
    IterationFaithful(StatsAfter(init, period, workerStart), iterations[n], Durations(init), workerStart,
                      ClockAfter(init, period, workerStart), Slept(n, period));
  }

  /** After a success in iteration i, the time spent in operations and the i sleeps
      before it fit into Elapsed; so AvgTotal cannot overflow before the clock does. */
  lemma TimeConserved(iterations: seq<Iteration>, period: nat, workerStart: nat, i: nat)
    requires i < |iterations| && Succeeds(iterations[i])
    requires ClockAfter(iterations[..i + 1], period, workerStart) - workerStart <= MAX_INT64
    ensures var s := StatsAfter(iterations[..i + 1], period, workerStart);
            && s.avgTotal + i * period <= s.elapsed
            && workerStart + s.elapsed <= ClockAfter(iterations[..i + 1], period, workerStart)
  {
    LastSuccess(iterations[..i + 1], period, workerStart);
    SleptIs(i, period);
  }

  lemma {:induction false} SumBounds(ds: seq<nat>, lo: int, hi: int)
    requires forall i :: 0 <= i < |ds| ==> lo <= ds[i] <= hi
    ensures |ds| * lo <= Sum(ds) <= |ds| * hi
  {
    if ds != [] {
      var n := |ds| - 1;
      SumBounds(ds[..n], lo, hi);
      OneMore(n, lo);
      OneMore(n, hi);
      assert Sum(ds) == Sum(ds[..n]) + ds[n] && lo <= ds[n] <= hi;
    }
  }

  /** The average lies between Min and Max, and Min exceeds Max exactly when nothing
      succeeded. */
  lemma MinAverageMax(iterations: seq<Iteration>, period: nat, workerStart: nat)
    requires ClockAfter(iterations, period, workerStart) - workerStart <= MAX_INT64
    ensures var (s, count) := (StatsAfter(iterations, period, workerStart), |Durations(iterations)|);
            && count * s.min <= s.avgTotal <= count * s.max
            && (s.min > s.max <==> count == 0)
  {
    StatsAreFolds(iterations, period, workerStart);
    var s, ds := StatsAfter(iterations, period, workerStart), Durations(iterations);
    SumBounds(ds, s.min, s.max);
    if ds != [] {
      assert s.min as int <= ds[0] <= s.max as int;
    }
  }

  /** Err is the last iteration's: the read's error text, or else the write's. */
  lemma ErrIsLast(iterations: seq<Iteration>, period: nat, workerStart: nat)
    requires iterations != []
    ensures var it := iterations[|iterations| - 1];
            StatsAfter(iterations, period, workerStart).err
            == match (it.read.error, it.write.error)
               case (Some(text), _) => text
               case (None, Some(text)) => text
               case (None, None) => []
  {
  }

  /** With error texts that are not empty, Err is empty exactly when the last write
      and the last read both succeeded. */
  lemma ErrEmptyIff(iterations: seq<Iteration>, period: nat, workerStart: nat)
    requires iterations != []
    requires var it := iterations[|iterations| - 1]; it.write.error != Some([]) && it.read.error != Some([])
    ensures var it := iterations[|iterations| - 1];
            StatsAfter(iterations, period, workerStart).err == []
            <==> it.write.error == None && it.read.error == None
  {
    ErrIsLast(iterations, period, workerStart);
  }

  // ----- the recorded intervals -----

  function Interval(op: Op, now: nat): seq<(int, int)> {
    if op.error == None then [(now + op.lead, now + op.lead + op.duration)] else []
  }

  /** Start and end of every recorded operation, in order. */
  function Intervals(iterations: seq<Iteration>, period: nat, workerStart: nat): seq<(int, int)> {
    if iterations == [] then []
    else
      var n := |iterations| - 1;
      var it := iterations[n];
      var now := ClockAfter(iterations[..n], period, workerStart);
      Intervals(iterations[..n], period, workerStart)
      + Interval(it.write, now) + Interval(it.read, EndOf(it.write, now))
  }

  /** Each interval ends before the next begins, all within [from, to]. */
  predicate Ordered(spans: seq<(int, int)>, from: nat, to: nat) {
    && (forall i :: 0 <= i < |spans| ==> from <= spans[i].0 <= spans[i].1 <= to)
    && (forall i, j :: 0 <= i < j < |spans| ==> spans[i].1 <= spans[j].0)
  }

  function Lengths(spans: seq<(int, int)>): seq<int> {
    seq(|spans|, i requires 0 <= i < |spans| => spans[i].1 - spans[i].0)
  }

  lemma AppendInterval(spans: seq<(int, int)>, op: Op, from: nat, now: nat)
    requires from <= now && Ordered(spans, from, now)
    ensures Ordered(spans + Interval(op, now), from, EndOf(op, now))
    ensures Lengths(spans + Interval(op, now)) == Lengths(spans) + Took(op)
  {
  }

  /** Recorded operations never overlap, and their lengths are the recorded durations. */
  lemma {:induction false} IntervalsOrdered(iterations: seq<Iteration>, period: nat, workerStart: nat)
    ensures Ordered(Intervals(iterations, period, workerStart), workerStart,
                    ClockAfter(iterations, period, workerStart))
    ensures Lengths(Intervals(iterations, period, workerStart)) == Durations(iterations)
  {
    if iterations != [] {
      var n := |iterations| - 1;
      var init, it := iterations[..n], iterations[n];
      IntervalsOrdered(init, period, workerStart);
      var now := ClockAfter(init, period, workerStart);
      var spans := Intervals(init, period, workerStart);
      AppendInterval(spans, it.write, workerStart, now);
      AppendInterval(spans + Interval(it.write, now), it.read, workerStart, EndOf(it.write, now));
    }
  }

  // ----- what Elapsed means -----

  /** How long after a recorded operation the clock is read for Elapsed. */
  function Lag(op: Op): seq<int> { if op.error == None then [op.lag] else [] }

  /** The lags of the recorded operations, in order. */
  function Lags(iterations: seq<Iteration>): seq<int> {
    if iterations == [] then []
    else
      var it := iterations[|iterations| - 1];
      Lags(iterations[..|iterations| - 1]) + Lag(it.write) + Lag(it.read)
  }

  /** The moment after the last recorded operation, or the start if there is none. */
  function LastSeen(spans: seq<(int, int)>, lags: seq<int>, workerStart: nat): int
    requires |spans| == |lags|
  {
    if spans == [] then workerStart else spans[|spans| - 1].1 + lags[|lags| - 1]
  }

  lemma RecordElapsed(s: Stats, op: Op, workerStart: nat, now: nat, spans: seq<(int, int)>, lags: seq<int>)
    requires workerStart <= now && |spans| == |lags| && EndOf(op, now) - workerStart <= MAX_INT64
    requires s.elapsed == LastSeen(spans, lags, workerStart) - workerStart
    ensures |spans + Interval(op, now)| == |lags + Lag(op)|
    ensures Record(s, op, workerStart, now).elapsed
            == LastSeen(spans + Interval(op, now), lags + Lag(op), workerStart) - workerStart
  {
    assert spans + [] == spans && lags + [] == lags;
  }

  /** While the run fits in int64, Elapsed is zero if nothing succeeded, and otherwise
      exactly the time from the start of the worker to the reading of the clock after
      the last success; failed operations and sleeps after it do not count. */
  lemma {:induction false} ElapsedIs(iterations: seq<Iteration>, period: nat, workerStart: nat)
    requires ClockAfter(iterations, period, workerStart) - workerStart <= MAX_INT64
    ensures |Intervals(iterations, period, workerStart)| == |Lags(iterations)|
    ensures StatsAfter(iterations, period, workerStart).elapsed
            == LastSeen(Intervals(iterations, period, workerStart), Lags(iterations), workerStart) - workerStart
  {
    if iterations != [] {
      var n := |iterations| - 1;
      var init, it := iterations[..n], iterations[n];
      ElapsedIs(init, period, workerStart);
      var now := ClockAfter(init, period, workerStart);
      var s := StatsAfter(init, period, workerStart).(err := []);
      var spans, lags := Intervals(init, period, workerStart), Lags(init);
      hide LastSeen;
      RecordElapsed(s, it.write, workerStart, now, spans, lags);
      RecordElapsed(Record(s, it.write, workerStart, now), it.read, workerStart, EndOf(it.write, now),
                    spans + Interval(it.write, now), lags + Lag(it.write));
    }
  }

  /** An iteration in which both operations fail leaves everything but Err. */
  lemma FailuresLeaveNoTrace(iterations: seq<Iteration>, period: nat, workerStart: nat)
    requires iterations != [] && !Succeeds(iterations[|iterations| - 1])
    requires ClockAfter(iterations, period, workerStart) - workerStart <= MAX_INT64
    ensures StatsAfter(iterations, period, workerStart).(err := [])
            == StatsAfter(iterations[..|iterations| - 1], period, workerStart).(err := [])
    ensures Intervals(iterations, period, workerStart)
            == Intervals(iterations[..|iterations| - 1], period, workerStart)
  {
  }

  // ----- where the time goes -----

  function Spent(op: Op): nat { op.lead + op.duration + if op.error == None then op.lag else 0 }

  function Work(iterations: seq<Iteration>): nat {
    if iterations == [] then 0
    else
      var it := iterations[|iterations| - 1];
      Work(iterations[..|iterations| - 1]) + Spent(it.write) + Spent(it.read) + it.overrun
  }

  /** Every moment of the run is an operation's, its bookkeeping's or a sleep's. */
  lemma {:induction false} ClockIs(iterations: seq<Iteration>, period: nat, workerStart: nat)
    ensures ClockAfter(iterations, period, workerStart)
            == workerStart + Work(iterations) + |iterations| * period
  {
    if iterations != [] {
      var n := |iterations| - 1;
      ClockIs(iterations[..n], period, workerStart);
      OneMore(n, period);
    }
  }

  /** The clock's int64 difference is exact as long as it fits, and the largest int64
      from there on. */
  lemma SinceIs(start: nat, now: nat, d: int)
    requires start <= now && 0 <= d
    ensures Since(start, now) == d <==> d <= MAX_INT64 && (now == start + d || (d == MAX_INT64 && now >= start + d))
  {
  }
}
