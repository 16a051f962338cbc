/**
 * The sweep logic the three `MyLeds` variants share: the iteration ranges,
 * the average pause, the progressive pause bands, and the sequences of
 * values and pauses a sweep produces. Intensities are integer thousandths
 * (0..1000); pauses are exact `real` seconds.
 */
module Variation {
  import opened Blaster

  /** Full scale of a sweep, in thousandths. */
  const FullScale: int := 1000

  /**
   * `time.sleep`, kept as the log of the pauses requested. Like the real
   * function it refuses a negative pause.
   */
  class Clock {
    ghost var sleeps: seq<real>

    constructor ()
      ensures sleeps == []
    {
      sleeps := [];
    }

    method Sleep(seconds: real)
      requires seconds >= 0.0
      modifies this
      ensures sleeps == old(sleeps) + [seconds]
    {
      sleeps := sleeps + [seconds];
    }
  }

  function Abs(x: int): (r: nat)
    ensures r == x || r == -x
  {
    if x < 0 then -x else x
  }

  function Max0(x: int): nat
  {
    if x < 0 then 0 else x
  }

  /** Python's `range(start, stop, step)` for a step of 1 or -1. */
  function PyRange(start: int, stop: int, step: int): (r: seq<int>)
    requires step == 1 || step == -1
    ensures step == 1 ==> |r| == Max0(stop - start)
    ensures step == -1 ==> |r| == Max0(start - stop)
    ensures step == 1 ==> forall k :: 0 <= k < |r| ==> r[k] == start + k
    ensures step == -1 ==> forall k :: 0 <= k < |r| ==> r[k] == start - k
    decreases if step == 1 then stop - start else start - stop
  {
    if (step == 1 && start < stop) || (step == -1 && start > stop) then
      [start] + PyRange(start + step, stop, step)
    else
      []
  }

  /**
   * `_get_range`: 0 up to 999 when ascending, 1000 down to 1 when
   * descending; a thousand values either way.
   */
  function SweepRange(ascending: bool): (r: seq<int>)
    ensures |r| == FullScale
  {
    if ascending then PyRange(0, 1000, 1) else PyRange(1000, 0, -1)
  }

  /**
   * `_get_avg_pause_time`: the pause, in seconds, that spreads `duration`
   * minutes evenly over `steps` steps.
   */
  function AvgPauseTime(duration: int, steps: int): (r: real)
    requires steps != 0
    ensures r * steps as real == (duration * 60) as real
    ensures duration >= 0 && steps > 0 ==> r >= 0.0
  {
    (duration * 60) as real / steps as real
  }

  /**
   * Which of the five bands of `progressive_variation` holds `i`; Python's
   * conditions are tested in order, so every integer lands in
   * exactly one band.
   */
  function Band(i: int): (b: nat)
    ensures b < 5
    ensures b == 0 <==> i <= 200
    ensures b == 1 <==> 200 < i <= 400
    ensures b == 2 <==> 400 < i <= 600
    ensures b == 3 <==> 600 < i <= 800
    ensures b == 4 <==> 800 < i
  {
    if i < 201 then 0
    else if i > 200 && i < 401 then 1
    else if i > 400 && i < 601 then 2
    else if i > 600 && i < 801 then 3
    else 4
  }

  /** The multiplier an ascending sweep applies to the average pause in band `b`. */
  function AscendingFactor(b: nat): real
    requires b < 5
  {
    [3.0, 2.0, 1.0, 1.0 / 2.0, 1.0 / 3.0][b]
  }

  /** The multiplier a descending sweep applies to the average pause in band `b`. */
  function DescendingFactor(b: nat): real
    requires b < 5
  {
    [1.0 / 3.0, 1.0 / 2.0, 1.0, 2.0, 3.0][b]
  }

  function PauseFactor(ascending: bool, i: int): real
  {
    if ascending then AscendingFactor(Band(i)) else DescendingFactor(Band(i))
  }

  /**
   * The pause `progressive_variation` sleeps after writing `i`: the average
   * pause scaled by the factor of the band `i` falls in.
   */
  function ProgressivePause(avg: real, ascending: bool, i: int): (pause: real)
    ensures pause == avg * PauseFactor(ascending, i)
  {
    if ascending then
      if i < 201 then avg * 3.0
      else if i > 200 && i < 401 then avg * 2.0
      else if i > 400 && i < 601 then avg
      else if i > 600 && i < 801 then avg / 2.0
      else avg / 3.0
    else
      if i < 201 then avg / 3.0
      else if i > 200 && i < 401 then avg / 2.0
      else if i > 400 && i < 601 then avg
      else if i > 600 && i < 801 then avg * 2.0
      else avg * 3.0
  }

  /** The value `variation_out` writes: fully on after rising, off after falling. */
  function OutValue(ascending: bool): (v: Value)
    ensures v.Text? && |v.s| == 1 && AllPwmChars(v.s)
    ensures v.s[0] == '1' <==> ascending
    ensures v.s[0] == '0' <==> !ascending
  {
    if ascending then Text("1") else Text("0")
  }

  /** The records of writing `i / 1000` for each `i` of `values`, in order. */
  function Fractions(pin: nat, values: seq<int>): seq<Record>
  {
    seq(|values|, k requires 0 <= k < |values| => Record(pin, Fraction(values[k])))
  }

  /** Every record a full sweep writes: the loop's fractions, then `variation_out`'s. */
  function SweepWrites(pin: nat, ascending: bool): seq<Record>
  {
    Fractions(pin, SweepRange(ascending)) + [Record(pin, OutValue(ascending))]
  }

  /** `n` pauses of `seconds` each. */
  function Repeat(seconds: real, n: nat): seq<real>
  {
    seq(n, _ => seconds)
  }

  /** The pauses `progressive_variation` sleeps after writing each of `values`, in order. */
  function ProgressivePauses(avg: real, ascending: bool, values: seq<int>): seq<real>
  {
    seq(|values|, k requires 0 <= k < |values| => ProgressivePause(avg, ascending, values[k]))
  }

  /** One step of a sweep, in the order it happens: a write to the device or a pause. */
  datatype Event = Write(record: Record) | Pause(seconds: real)

  /**
   * The trace of a loop that writes each record of `writes` in turn and
   * sleeps, after each, the pause of the same rank in `pauses`.
   */
  function Interleave(writes: seq<Record>, pauses: seq<real>): (r: seq<Event>)
    requires |writes| == |pauses|
    ensures |r| == 2 * |writes|
  {
    if writes == [] then []
    else
      Interleave(writes[..|writes| - 1], pauses[..|pauses| - 1]) +
      [Write(writes[|writes| - 1]), Pause(pauses[|pauses| - 1])]
  }

  /**
   * The trace of a full sweep: each loop write followed by its pause, then
   * `variation_out`'s write.
   */
  function SweepTrace(pin: nat, ascending: bool, pauses: seq<real>): seq<Event>
    requires |pauses| == FullScale
  {
    Interleave(Fractions(pin, SweepRange(ascending)), pauses) + [Write(Record(pin, OutValue(ascending)))]
  }

  /** Total time spent sleeping. */
  function Sum(s: seq<real>): real
  {
    if s == [] then 0.0 else s[0] + Sum(s[1..])
  }

  // Lemmas

  /** `_get_range` counts up from 0 when ascending and down from 1000 otherwise. */
  lemma SweepRangeValues(ascending: bool)
    ensures forall k :: 0 <= k < FullScale ==>
              SweepRange(ascending)[k] == if ascending then k else FullScale - k
  {
  }

  /** Writing one more value of a sweep appends exactly its record. */
  lemma FractionsExtend(pin: nat, values: seq<int>, k: nat)
    requires k < |values|
    ensures Fractions(pin, values[..k + 1]) == Fractions(pin, values[..k]) + [Record(pin, Fraction(values[k]))]
  {
    assert values[..k + 1] == values[..k] + [values[k]];
  }

  /** One more pass of a loop appends its write, then its pause. */
  lemma InterleaveExtend(writes: seq<Record>, pauses: seq<real>, w: Record, p: real)
    requires |writes| == |pauses|
    ensures Interleave(writes + [w], pauses + [p]) == Interleave(writes, pauses) + [Write(w), Pause(p)]
  {
    assert (writes + [w])[..|writes|] == writes;
    assert (pauses + [p])[..|pauses|] == pauses;
  }

  /**
   * In a loop's trace the k-th write sits at position 2k and the k-th pause
   * right after it, before the next write.
   */
  lemma {:induction false} InterleaveAt(writes: seq<Record>, pauses: seq<real>)
    requires |writes| == |pauses|
    ensures forall k :: 0 <= k < |writes| ==>
              Interleave(writes, pauses)[2 * k] == Write(writes[k]) &&
              Interleave(writes, pauses)[2 * k + 1] == Pause(pauses[k])
  {
    if writes != [] {
      var n := |writes| - 1;
      InterleaveAt(writes[..n], pauses[..n]);
      assert forall k :: 0 <= k < n ==> writes[..n][k] == writes[k] && pauses[..n][k] == pauses[k];
    }
  }

  /**
   * A full sweep's trace alternates: the k-th value is written at step 2k
   * and followed by the k-th pause; `variation_out` writes last, after the
   * final pause.
   */
  lemma SweepTraceOrder(pin: nat, ascending: bool, pauses: seq<real>)
    requires |pauses| == FullScale
    ensures |SweepTrace(pin, ascending, pauses)| == 2 * FullScale + 1
    ensures forall k :: 0 <= k < FullScale ==>
              SweepTrace(pin, ascending, pauses)[2 * k] == Write(Record(pin, Fraction(SweepRange(ascending)[k]))) &&
              SweepTrace(pin, ascending, pauses)[2 * k + 1] == Pause(pauses[k])
    ensures SweepTrace(pin, ascending, pauses)[2 * FullScale - 1] == Pause(pauses[FullScale - 1])
    ensures SweepTrace(pin, ascending, pauses)[2 * FullScale] == Write(Record(pin, OutValue(ascending)))
  {
    var writes := Fractions(pin, SweepRange(ascending));
    var loop := Interleave(writes, pauses);
    var trace := SweepTrace(pin, ascending, pauses);
    assert trace == loop + [Write(Record(pin, OutValue(ascending)))];
    InterleaveAt(writes, pauses);
    forall k | 0 <= k < FullScale
      ensures trace[2 * k] == Write(Record(pin, Fraction(SweepRange(ascending)[k])))
      ensures trace[2 * k + 1] == Pause(pauses[k])
    {
      assert trace[2 * k] == loop[2 * k] && trace[2 * k + 1] == loop[2 * k + 1];
    }
    assert trace[2 * FullScale - 1] == loop[2 * (FullScale - 1) + 1];
  }

  /** One pass of the regular loop: its write, then its pause, extend the trace. */
  lemma RampStep(pin: nat, values: seq<int>, pause: real, k: nat)
    requires k < |values|
    ensures Interleave(Fractions(pin, values[..k + 1]), Repeat(pause, k + 1)) ==
            Interleave(Fractions(pin, values[..k]), Repeat(pause, k)) + [Write(Record(pin, Fraction(values[k]))), Pause(pause)]
  {
    FractionsExtend(pin, values, k);
    RepeatExtend(pause, k);
    InterleaveExtend(Fractions(pin, values[..k]), Repeat(pause, k), Record(pin, Fraction(values[k])), pause);
  }

  /** One pass of the progressive loop: its write, then its band's pause, extend the trace. */
  lemma ProgressiveStep(pin: nat, values: seq<int>, avg: real, ascending: bool, k: nat)
    requires k < |values|
    ensures Interleave(Fractions(pin, values[..k + 1]), ProgressivePauses(avg, ascending, values[..k + 1])) ==
            Interleave(Fractions(pin, values[..k]), ProgressivePauses(avg, ascending, values[..k])) +
            [Write(Record(pin, Fraction(values[k]))), Pause(ProgressivePause(avg, ascending, values[k]))]
  {
    FractionsExtend(pin, values, k);
    ProgressivePausesExtend(avg, ascending, values, k);
    InterleaveExtend(Fractions(pin, values[..k]), ProgressivePauses(avg, ascending, values[..k]),
                     Record(pin, Fraction(values[k])), ProgressivePause(avg, ascending, values[k]));
  }

  /**
   * A sweep's loop followed by `variation_out` leaves exactly the sweep's
   * records on the device and the sweep's trace.
   */
  lemma SweepCompletes(pin: nat, ascending: bool, pauses: seq<real>,
                       writes0: seq<Record>, writes1: seq<Record>, writes2: seq<Record>,
                       trace0: seq<Event>, trace1: seq<Event>, trace2: seq<Event>)
    requires |pauses| == FullScale
    requires writes1 == writes0 + Fractions(pin, SweepRange(ascending))
    requires writes2 == writes1 + [Record(pin, OutValue(ascending))]
    requires trace1 == trace0 + Interleave(Fractions(pin, SweepRange(ascending)), pauses)
    requires trace2 == trace1 + [Write(Record(pin, OutValue(ascending)))]
    ensures writes2 == writes0 + SweepWrites(pin, ascending)
    ensures trace2 == trace0 + SweepTrace(pin, ascending, pauses)
  {
    var loopWrites := Fractions(pin, SweepRange(ascending));
    AppendLast(writes0, writes1, writes2, loopWrites, Record(pin, OutValue(ascending)));
    AppendLast(trace0, trace1, trace2, Interleave(loopWrites, pauses), Write(Record(pin, OutValue(ascending))));
  }

  lemma AppendLast<T>(s0: seq<T>, s1: seq<T>, s2: seq<T>, middle: seq<T>, last: T)
    requires s1 == s0 + middle && s2 == s1 + [last]
    ensures s2 == s0 + (middle + [last])
  {
  }

  /** One more regular pause appends exactly that pause. */
  lemma RepeatExtend(seconds: real, k: nat)
    ensures Repeat(seconds, k + 1) == Repeat(seconds, k) + [seconds]
  {
  }

  /** Sleeping after one more value of a progressive sweep appends exactly its pause. */
  lemma ProgressivePausesExtend(avg: real, ascending: bool, values: seq<int>, k: nat)
    requires k < |values|
    ensures ProgressivePauses(avg, ascending, values[..k + 1]) ==
            ProgressivePauses(avg, ascending, values[..k]) + [ProgressivePause(avg, ascending, values[k])]
  {
    assert values[..k + 1] == values[..k] + [values[k]];
  }

  lemma {:induction false} SumRepeat(seconds: real, n: nat)
    ensures Sum(Repeat(seconds, n)) == n as real * seconds
  {
    if n > 0 {
      assert Repeat(seconds, n)[1..] == Repeat(seconds, n - 1);
      SumRepeat(seconds, n - 1);
    }
  }

  /**
   * A regular sweep sleeps one average pause per step, a thousand in all,
   * which adds up to exactly the requested number of minutes.
   */
  lemma RegularSweepLastsDuration(duration: int)
    ensures Sum(Repeat(AvgPauseTime(duration, FullScale), FullScale)) == (duration * 60) as real
  {
    SumRepeat(AvgPauseTime(duration, FullScale), FullScale);
  }

  /** With the step count fixed at a thousand, the pause is 0.06 s per minute of duration. */
  lemma FixedStepPause(duration: int)
    ensures AvgPauseTime(duration, FullScale) == duration as real * 0.06
    ensures duration >= 0 ==> AvgPauseTime(duration, FullScale) >= 0.0
  {
  }

  /** The test value: a thousand minutes over a thousand steps is a minute per step. */
  lemma AvgPauseTestValue()
    ensures AvgPauseTime(1000, 1000) == 60.0
  {
  }

  /**
   * The two sweeps mirror each other: the descending sweep starts at full
   * scale, stops at 1, and its k-th value is full scale minus the ascending
   * sweep's k-th; the ascending one starts at 0 and stops at 999.
   */
  lemma SweepRangesMirror()
    ensures SweepRange(true)[0] == 0 && SweepRange(true)[FullScale - 1] == FullScale - 1
    ensures SweepRange(false)[0] == FullScale && SweepRange(false)[FullScale - 1] == 1
    ensures forall k :: 0 <= k < FullScale ==>
              SweepRange(false)[k] == FullScale - SweepRange(true)[k]
    ensures FullScale !in SweepRange(true) && 0 !in SweepRange(false)
  {
  }

  /** Every value a sweep's loop writes is within [0, 1], in thousandths. */
  lemma SweepValuesInUnit(ascending: bool)
    ensures forall k :: 0 <= k < FullScale ==> 0 <= SweepRange(ascending)[k] <= FullScale
  {
  }

  /**
   * Consecutive values of a sweep differ by exactly one thousandth, upwards
   * when ascending and downwards otherwise.
   */
  lemma SweepStepsByOne(ascending: bool)
    ensures forall k :: 0 <= k < FullScale - 1 ==>
              SweepRange(ascending)[k + 1] == SweepRange(ascending)[k] + (if ascending then 1 else -1)
  {
  }

  /**
   * A full sweep writes 1001 records: 1000 loop values, then "1" after
   * rising or "0" after falling.
   */
  lemma SweepEndsFullOnOrOff(pin: nat, ascending: bool)
    ensures |SweepWrites(pin, ascending)| == FullScale + 1
    ensures SweepWrites(pin, ascending)[FullScale] == Record(pin, Text(if ascending then "1" else "0"))
  {
    assert |Fractions(pin, SweepRange(ascending))| == FullScale;
  }

  /** The record `variation_out` writes reads back as "1" or "0". */
  lemma OutValueReadsBack(pin: nat, ascending: bool)
    ensures ReadPwm(pin, Record(pin, OutValue(ascending)).Line()) == Found(if ascending then "1" else "0")
  {
    var v := if ascending then "1" else "0";
    assert AllPwmChars(v);
    ReadBack(pin, v, "");
    assert Format(pin, v) + "" == Format(pin, v);
  }

  /** At every value the ascending and descending multipliers are reciprocal. */
  lemma FactorsReciprocal(i: int)
    ensures PauseFactor(true, i) * PauseFactor(false, i) == 1.0
  {
  }

  /**
   * Pauses lengthen where light is low when rising and where it is high
   * when falling: the ascending pause never grows as `i` rises and the
   * descending one never shrinks.
   */
  lemma ProgressivePauseMonotonic(avg: real, i: int, j: int)
    requires avg >= 0.0 && i <= j
    ensures ProgressivePause(avg, true, j) <= ProgressivePause(avg, true, i)
    ensures ProgressivePause(avg, false, i) <= ProgressivePause(avg, false, j)
  {
  }

  /**
   * Over time both progressive sweeps slow down first and speed up later:
   * along either sweep, no pause is longer than an earlier one.
   */
  lemma ProgressivePausesShorten(avg: real, ascending: bool)
    requires avg >= 0.0
    ensures forall j, k :: 0 <= j <= k < FullScale ==>
              ProgressivePauses(avg, ascending, SweepRange(ascending))[k] <=
              ProgressivePauses(avg, ascending, SweepRange(ascending))[j]
  {
    var range := SweepRange(ascending);
    var pauses := ProgressivePauses(avg, ascending, range);
    forall j, k | 0 <= j <= k < FullScale ensures pauses[k] <= pauses[j] {
      if ascending {
        ProgressivePauseMonotonic(avg, range[j], range[k]);
      } else {
        ProgressivePauseMonotonic(avg, range[k], range[j]);
      }
    }
  }

  /** A progressive sweep never requests a negative pause. */
  lemma ProgressivePauseNonNegative(avg: real, ascending: bool, i: int)
    requires avg >= 0.0
    ensures ProgressivePause(avg, ascending, i) >= 0.0
  {
  }
}
