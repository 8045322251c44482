/** Per-route counters, and the moving average of the latency, which is truncated to whole nanoseconds. */
module RouteMetrics {
  import opened Numbers

  /** Nine tenths of the old average and one tenth of the new duration, exactly, then truncated. */
  function NextAverage(avg: int, duration: int): int {
    Quotient(9 * avg + duration, 10)
  }

  class Route {
    var totalCalls: nat
    var errorCount: nat
    var lastCalled: int
    var avgLatency: int

    constructor ()
      ensures totalCalls == errorCount == 0 && lastCalled == avgLatency == 0
    {
      totalCalls, errorCount, lastCalled, avgLatency := 0, 0, 0, 0;
    }

    method UpdateAverageLatency(duration: int)
      modifies this`avgLatency
      ensures avgLatency == NextAverage(old(avgLatency), duration)
    {
      var currentAvg := avgLatency as real;
      var newAvg := currentAvg * 0.9 + duration as real * 0.1;
      TenthsAreExact(avgLatency, duration);
      avgLatency := Truncate(newAvg);
    }

    method IncrementRouteCounters(duration: int, failed: bool, now: int)
      modifies this
      ensures totalCalls == old(totalCalls) + 1
      ensures errorCount == old(errorCount) + if failed then 1 else 0
      ensures lastCalled == now
      ensures avgLatency == NextAverage(old(avgLatency), duration)
    {
      totalCalls := totalCalls + 1;
      lastCalled := now;
      if failed {
        errorCount := errorCount + 1;
      }
      UpdateAverageLatency(duration);
    }
  }

  /** The average in tenths, as the program computes it, and in whole numbers. */
  lemma TenthsAreExact(avg: int, duration: int)
    ensures NextAverage(avg, duration) == Truncate(avg as real * 0.9 + duration as real * 0.1)
  {
    var a := 9 * avg + duration;
    TruncateQuotient(a, 10);
    assert avg as real * 0.9 + duration as real * 0.1 == a as real / 10.0;
  }

  /** The average after a sequence of durations. */
  function After(avg: int, durations: seq<int>): int
    decreases |durations|
  {
    if durations == [] then avg
    else NextAverage(After(avg, durations[..|durations| - 1]), durations[|durations| - 1])
  }

  /** The average never leaves the range of the durations it has seen. */
  lemma {:induction false} StaysInRange(avg: int, hi: int, durations: seq<int>)
    requires 0 <= avg <= hi && forall i | 0 <= i < |durations| :: 0 <= durations[i] <= hi
    ensures 0 <= After(avg, durations) <= hi
    decreases |durations|
  {
    if durations == [] {
    } else {
      StaysInRange(avg, hi, durations[..|durations| - 1]);
    }
  }

  // ------------------------------------------------------------------
  // A constant duration
  // ------------------------------------------------------------------

  function Repeat(avg: int, d: int, n: nat): int {
    if n == 0 then avg else NextAverage(Repeat(avg, d, n - 1), d)
  }

  /** Where the average comes to rest: at the duration from above, and from below as soon as it
      is within nine nanoseconds. */
  function Rest(avg: int, d: int): int {
    if avg >= d then d else if d - avg <= 9 then avg else d - 9
  }

  /** One update moves towards the duration, never past it, stands still exactly at rest, and does
      not change where the average is heading. */
  lemma UpdateApproaches(avg: nat, d: nat)
    ensures var next := NextAverage(avg, d);
            && (avg >= d ==> d <= next <= avg)
            && (avg <= d ==> avg <= next <= d)
            && (next == avg <==> avg == Rest(avg, d))
            && Rest(next, d) == Rest(avg, d)
  {
  }

  lemma {:induction false} RepeatKeepsRest(avg: nat, d: nat, n: nat)
    ensures Repeat(avg, d, n) >= 0 && Rest(Repeat(avg, d, n), d) == Rest(avg, d)
    ensures avg >= d ==> Repeat(avg, d, n) >= d
    ensures avg <= d ==> Repeat(avg, d, n) <= d
  {
    if n == 0 {
    } else {
      RepeatKeepsRest(avg, d, n - 1);
      UpdateApproaches(Repeat(avg, d, n - 1), d);
    }
  }

  function Distance(a: int, b: int): nat {
    if a < b then b - a else a - b
  }

  /** Every update brings the average closer, until it rests. */
  lemma {:induction false} RepeatCloses(avg: nat, d: nat, n: nat)
    ensures Repeat(avg, d, n) == Rest(avg, d) || Distance(Repeat(avg, d, n), d) + n <= Distance(avg, d)
  {
    if n == 0 {
    } else {
      RepeatCloses(avg, d, n - 1);
      RepeatKeepsRest(avg, d, n - 1);
      UpdateApproaches(Repeat(avg, d, n - 1), d);
    }
  }

  /** Under a constant duration the average moves monotonically towards it and after finitely many
      updates stops, exactly at `Rest`: at the duration if it began there or above, and otherwise
      at most nine nanoseconds below. */
  lemma ComesToRest(avg: nat, d: nat, n: nat)
    requires n > Distance(avg, d)
    ensures Repeat(avg, d, n) == Rest(avg, d)
    ensures avg >= d ==> Rest(avg, d) == d
    ensures d - 9 <= Rest(avg, d) <= d
  {
    RepeatCloses(avg, d, n);
  }
}
