/** `ProgressTracker` (src/tempoNachoHCHO.py, lines 17-68): a step counter
    that keeps a rolling buffer of at most ten step times and prints a
    20-character progress bar with an estimate of the time left. The clock is
    a parameter (`now`, in seconds); the printed line is returned as a
    `ProgressLine` value instead. */
module ProgressTrackerModel {
  import opened Wrappers

  const BarLength := 20
  const WindowSize := 10
  const FullChar := '█'
  const EmptyChar := '░'

  function Min(a: int, b: int): int {
    if a <= b then a else b
  }

  function Sum(xs: seq<real>): real {
    if xs == [] then 0.0 else Sum(xs[..|xs| - 1]) + xs[|xs| - 1]
  }

  /** `np.mean` of a non-empty list. */
  function Mean(xs: seq<real>): real
    requires xs != []
  {
    Sum(xs) / |xs| as real
  }

  lemma SumAppend(xs: seq<real>, x: real)
    ensures Sum(xs + [x]) == Sum(xs) + x
  {
    assert (xs + [x])[..|xs|] == xs;
  }

  // ---------------------------------------------------------------------------
  // The step-time buffer of lines 40-44

  /** The buffer after one update at `elapsed` seconds since the start:
      below ten entries, `elapsed - sum(step_times)` is appended; at ten, the
      oldest entry is dropped first. */
  function NextWindow(window: seq<real>, elapsed: real): (r: seq<real>)
    requires |window| <= WindowSize
    ensures |r| == Min(|window| + 1, WindowSize)
    ensures r[..|r| - 1] == if |window| < WindowSize then window else window[1..]
    ensures Sum(r) == elapsed
  {
    var kept := if |window| < WindowSize then window else window[1..];
    var r := kept + [elapsed - Sum(kept)];
    SumAppend(kept, elapsed - Sum(kept));
    assert r[..|r| - 1] == kept;
    r
  }

  /** `avg_time_per_step` of lines 34-37: the mean of the buffer, or the
      elapsed time over the step count while the buffer is empty. */
  function AverageAsWritten(window: seq<real>, elapsed: real, step: int): real
    requires step >= 1
  {
    if window != [] then Mean(window) else elapsed / step as real
  }

  /** `remaining_time` of lines 47-48: the average step time times the steps
      still to go; it is negative once the count passes the total. */
  function RemainingTime(average: real, remainingSteps: int): (t: real)
    ensures average >= 0.0 && remainingSteps >= 0 ==> t >= 0.0
    ensures remainingSteps == 0 ==> t == 0.0
  {
    average * remainingSteps as real
  }

  /** Python's `//` on ints rounds toward negative infinity. */
  function FloorDiv(a: int, b: int): (q: int)
    requires b != 0
    ensures b > 0 ==> b * q <= a < b * q + b
    ensures b < 0 ==> b * q + b < a <= b * q
  {
    if b > 0 then a / b else (-a) / (-b)
  }

  /** `c * n` for a one-character string: empty when `n <= 0`. */
  function Repeat(c: char, n: int): (r: string)
    ensures |r| == if n <= 0 then 0 else n
    ensures forall k | 0 <= k < |r| :: r[k] == c
  {
    if n <= 0 then [] else Repeat(c, n - 1) + [c]
  }

  /** Lines 58-60: `int(20 * step // total)` full cells, then empty ones. */
  function Bar(step: int, total: int): (r: string)
    requires total != 0
  {
    var filled := FloorDiv(BarLength * step, total);
    Repeat(FullChar, filled) + Repeat(EmptyChar, BarLength - filled)
  }

  lemma MulMonotone(x: int, y: int, b: int)
    requires b > 0 && x <= y
    ensures x * b <= y * b
  {
  }

  /** Cell `k` is full exactly when `(k + 1) / 20` of the work is done. */
  lemma FullCell(k: int, a: int, b: int)
    requires b > 0
    ensures k < FloorDiv(a, b) <==> (k + 1) * b <= a
  {
    var q := FloorDiv(a, b);
    if k + 1 <= q {
      MulMonotone(k + 1, q, b);
    } else {
      MulMonotone(q + 1, k + 1, b);
    }
  }

  /** Within `0 <= step <= total` the bar is 20 cells wide, and a cell is
      full exactly when the completed share reaches its right edge. */
  lemma BarShape(step: int, total: int)
    requires 0 <= step <= total && total > 0
    ensures |Bar(step, total)| == BarLength
    ensures forall k | 0 <= k < BarLength ::
      Bar(step, total)[k] == (if (k + 1) * total <= BarLength * step then FullChar else EmptyChar)
  {
    var filled := FloorDiv(BarLength * step, total);
    FullCell(-1, BarLength * step, total);
    FullCell(BarLength, BarLength * step, total);
    MulMonotone(step, total, BarLength);
    assert 0 <= filled <= BarLength;
    forall k | 0 <= k < BarLength
      ensures Bar(step, total)[k] == (if (k + 1) * total <= BarLength * step then FullChar else EmptyChar)
    {
      FullCell(k, BarLength * step, total);
    }
  }

  /** What one update shows: the bar, the percentage, the step count, the
      elapsed time, the average step time, the estimate of the time left, and
      whether the line is ended. */
  datatype ProgressLine = ProgressLine(bar: string, percentage: real, step: int, total: int,
                                       elapsed: real, averageStep: real, remaining: real, complete: bool)

  const DivisionByZeroMessage := "division by zero"

  class ProgressTracker {
    var totalSteps: int
    var currentStep: int
    var startTime: real
    var description: string
    var stepTimes: seq<real>

    /** The buffer holds one entry per update, up to ten. */
    predicate Valid()
      reads this
    {
      0 <= currentStep && |stepTimes| == Min(currentStep, WindowSize)
    }

    /** `__init__` (lines 20-25). */
    constructor(totalSteps: int, description: string, now: real)
      ensures Valid()
      ensures this.totalSteps == totalSteps && this.description == description
      ensures currentStep == 0 && startTime == now && stepTimes == []
    {
      this.totalSteps := totalSteps;
      this.currentStep := 0;
      this.startTime := now;
      this.description := description;
      this.stepTimes := [];
    }

    /** `update` (lines 27-68). With `total_steps == 0` the percentage raises
        `ZeroDivisionError` after the counter and the buffer have changed. */
    method Update(now: real) returns (r: Result<ProgressLine, string>)
      requires Valid()
      modifies this
      ensures Valid()
      ensures totalSteps == old(totalSteps) && startTime == old(startTime) && description == old(description)
      ensures currentStep == old(currentStep) + 1
      ensures stepTimes == NextWindow(old(stepTimes), now - startTime)
      ensures r.Err? <==> totalSteps == 0
      ensures r.Err? ==> r.error == DivisionByZeroMessage
      ensures r.Ok? ==> r.value.bar == Bar(currentStep, totalSteps)
      ensures r.Ok? ==> r.value.percentage == currentStep as real / totalSteps as real * 100.0
      ensures r.Ok? ==> r.value.step == currentStep && r.value.total == totalSteps
      ensures r.Ok? ==> r.value.elapsed == now - startTime
      ensures r.Ok? ==> r.value.averageStep == AverageAsWritten(old(stepTimes), now - startTime, currentStep)
      ensures r.Ok? ==> r.value.remaining == RemainingTime(r.value.averageStep, totalSteps - currentStep)
      ensures r.Ok? ==> (r.value.complete <==> currentStep >= totalSteps)
    {
      currentStep := currentStep + 1;
      var elapsed := now - startTime;
      var average: real;
      if stepTimes != [] {
        average := Sum(stepTimes) / |stepTimes| as real;
      } else {
        average := elapsed / currentStep as real;
      }
      assert average == AverageAsWritten(old(stepTimes), elapsed, currentStep);
      if |stepTimes| < WindowSize {
        stepTimes := stepTimes + [elapsed - Sum(stepTimes)];
      } else {
        stepTimes := stepTimes[1..];
        stepTimes := stepTimes + [elapsed - Sum(stepTimes)];
      }
      assert stepTimes == NextWindow(old(stepTimes), elapsed);
      var remainingSteps := totalSteps - currentStep;
      var remaining := RemainingTime(average, remainingSteps);
      if totalSteps == 0 {
        return Err(DivisionByZeroMessage);
      }
      var percentage := currentStep as real / totalSteps as real * 100.0;
      var filled := FloorDiv(BarLength * currentStep, totalSteps);
      var bar := Repeat(FullChar, filled) + Repeat(EmptyChar, BarLength - filled);
      assert bar == Bar(currentStep, totalSteps);
      r := Ok(ProgressLine(bar, percentage, currentStep, totalSteps, elapsed, average, remaining,
                           currentStep >= totalSteps));
    }
  }

  // ---------------------------------------------------------------------------
  // What the buffer holds over a run

  /** The buffer after updates at the given elapsed times, in order. */
  function WindowAfter(times: seq<real>): (r: seq<real>)
    ensures |r| == Min(|times|, WindowSize)
  {
    if times == [] then [] else NextWindow(WindowAfter(times[..|times| - 1]), times[|times| - 1])
  }

  /** The buffer always sums to the last elapsed time, so once it is full its
      mean is the whole elapsed time over ten, not the mean of the last ten
      step durations. */
  lemma WindowMeanAsWritten(times: seq<real>)
    requires |times| >= WindowSize
    ensures Mean(WindowAfter(times)) == times[|times| - 1] / 10.0
  {
    var w := WindowAfter(times);
    assert w == NextWindow(WindowAfter(times[..|times| - 1]), times[|times| - 1]);
    assert Sum(w) == times[|times| - 1];
    assert |w| == 10;
  }

  /** Elapsed times 1, 2, ..., n: every step takes one second. */
  function SteadyRun(n: nat): (r: seq<real>)
    ensures |r| == n && forall k | 0 <= k < n :: r[k] == (k + 1) as real
  {
    seq(n, k => (k + 1) as real)
  }

  /** After twenty one-second steps, the twenty-first update estimates two
      seconds per step. */
  lemma SteadyRunAverageAsWritten()
    ensures AverageAsWritten(WindowAfter(SteadyRun(20)), 21.0, 21) == 2.0
  {
    WindowMeanAsWritten(SteadyRun(20));
  }

  /** The duration of each step: the first is its elapsed time, every later
      one the difference to the previous update. */
  function Durations(times: seq<real>): (r: seq<real>)
    ensures |r| == |times|
  {
    if times == [] then []
    else if |times| == 1 then [times[0]]
    else Durations(times[..|times| - 1]) + [times[|times| - 1] - times[|times| - 2]]
  }

  /** The last ten step durations, which the comment on line 40 describes. */
  function RecentDurations(times: seq<real>): (r: seq<real>)
    ensures |r| == Min(|times|, WindowSize)
  {
    var d := Durations(times);
    d[|d| - Min(|d|, WindowSize)..]
  }

  /** The average step time with the buffer holding real durations. */
  function Average(times: seq<real>, elapsed: real, step: int): real
    requires step >= 1
  {
    var recent := RecentDurations(times);
    if recent != [] then Mean(recent) else elapsed / step as real
  }

  lemma {:induction false} DurationsSum(times: seq<real>)
    requires times != []
    ensures Sum(Durations(times)) == times[|times| - 1]
  {
    if |times| > 1 {
      var init := times[..|times| - 1];
      DurationsSum(init);
      SumAppend(Durations(init), times[|times| - 1] - times[|times| - 2]);
    } else {
      assert Sum([times[0]]) == Sum([]) + times[0];
    }
  }

  lemma {:induction false} SteadyDurations(n: nat)
    ensures forall k | 0 <= k < n :: Durations(SteadyRun(n))[k] == 1.0
  {
    if n > 1 {
      SteadyDurations(n - 1);
      assert SteadyRun(n)[..n - 1] == SteadyRun(n - 1);
    } else if n == 1 {
      assert Durations(SteadyRun(1)) == [1.0];
    }
  }

  lemma {:induction false} SumOfConstant(xs: seq<real>, d: real)
    requires forall k | 0 <= k < |xs| :: xs[k] == d
    ensures Sum(xs) == |xs| as real * d
  {
    if xs != [] {
      SumOfConstant(xs[..|xs| - 1], d);
    }
  }

  lemma DivSelf(m: real)
    requires m != 0.0
    ensures m / m == 1.0
  {
  }

  /** With the durations in the buffer, steady one-second steps give a
      one-second estimate. */
  lemma SteadyRunAverage(n: nat)
    requires n >= 1
    ensures Average(SteadyRun(n), (n + 1) as real, n + 1) == 1.0
  {
    SteadyDurations(n);
    var d := Durations(SteadyRun(n));
    var recent := RecentDurations(SteadyRun(n));
    assert recent == d[|d| - Min(|d|, WindowSize)..];
    assert forall k | 0 <= k < |recent| :: recent[k] == 1.0;
    SumOfConstant(recent, 1.0);
    var m := |recent| as real;
    assert m > 0.0 && Sum(recent) == m;
    DivSelf(m);
    assert Mean(recent) == m / m;
    assert Average(SteadyRun(n), (n + 1) as real, n + 1) == Mean(recent);
  }
}
