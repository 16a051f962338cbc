/**
 * The `MyLeds` light of rlieh_pwm/cli.py: full sweeps at a regular or a
 * progressive pace, and a validated linear ramp between two intensities,
 * all written through an RliehPWM channel and paced by `time.sleep`.
 */
module PwmCli {
  import opened Blaster
  import opened Variation
  import PwmCore

  /** Why `range_variation` raises ValueError, with the values its message reports. */
  datatype RangeError =
    | EqualBounds(begin: int, end: int)
    | BeginBelowZero(begin: int)
    | EndAboveMax(end: int)

  datatype Outcome = Pass | Fail(error: RangeError)

  /**
   * The checks `range_variation` makes before doing anything, in the order
   * it makes them. Nothing bounds `begin` above or `end` below.
   */
  function ValidateRange(begin: int, end: int): (r: Outcome)
    ensures r.Pass? <==> begin != end && 0 <= begin && end <= FullScale
    ensures r == Fail(EqualBounds(begin, end)) <==> begin == end
    ensures r == Fail(BeginBelowZero(begin)) <==> begin != end && begin < 0
    ensures r == Fail(EndAboveMax(end)) <==> begin != end && 0 <= begin && FullScale < end
  {
    if begin == end then Fail(EqualBounds(begin, end))
    else if begin < 0 then Fail(BeginBelowZero(begin))
    else if end > 1000 then Fail(EndAboveMax(end))
    else Pass
  }

  /**
   * The values of a ramp from `begin` to `end`, both included, one
   * thousandth apart.
   */
  function RangeSteps(begin: int, end: int): (r: seq<int>)
    requires begin != end
    ensures |r| == Abs(end - begin) + 1
    ensures r[0] == begin && r[|r| - 1] == end
    ensures forall k :: 0 <= k < |r| ==> r[k] == if end > begin then begin + k else begin - k
  {
    if end > begin then PyRange(begin, end + 1, 1) else PyRange(begin, end - 1, -1)
  }

  class MyLeds {
    /** The channel `MyLeds` inherits from in Python. */
    const light: PwmCore.RliehPWM
    const clock: Clock
    /** Every write and pause this light has made, in the order it made them. */
    ghost var trace: seq<Event>

    constructor (pin: nat)
      ensures fresh(light) && fresh(clock)
      ensures light.pin == pin && light.writes == [] && clock.sleeps == [] && trace == []
    {
      light := new PwmCore.RliehPWM(pin, None);
      clock := new Clock();
      trace := [];
    }

    /** `self.pwm = value`: one write to the channel, recorded in the trace. */
    method SetPwm(value: Value)
      modifies this, light
      ensures light.writes == old(light.writes) + [Record(light.pin, value)]
      ensures trace == old(trace) + [Write(Record(light.pin, value))]
    {
      light.SetPwm(value);
      trace := trace + [Write(Record(light.pin, value))];
    }

    /** `sleep(seconds)`, recorded in the trace. */
    method Sleep(seconds: real)
      requires seconds >= 0.0
      modifies this, clock
      ensures clock.sleeps == old(clock.sleeps) + [seconds]
      ensures trace == old(trace) + [Pause(seconds)]
    {
      clock.Sleep(seconds);
      trace := trace + [Pause(seconds)];
    }

    /** A full sweep, one average pause after each value, then fully on or off. */
    method RegularVariation(duration: int, ascending: bool)
      requires duration >= 0
      modifies this, light, clock
      ensures light.writes == old(light.writes) + SweepWrites(light.pin, ascending)
      ensures clock.sleeps == old(clock.sleeps) + Repeat(AvgPauseTime(duration, FullScale), FullScale)
      ensures trace == old(trace) + SweepTrace(light.pin, ascending, Repeat(AvgPauseTime(duration, FullScale), FullScale))
    {
      var avgPauseTime := AvgPauseTime(duration, 1000);
      var range := SweepRange(ascending);
      ghost var writes0, trace0 := light.writes, trace;
      Ramp(range, avgPauseTime);
      ghost var writes1, trace1 := light.writes, trace;
      VariationOut(ascending);
      SweepCompletes(light.pin, ascending, Repeat(avgPauseTime, FullScale),
                     writes0, writes1, light.writes, trace0, trace1, trace);
    }

    /** The loop of the regular sweep and of the ramp: write each value, then pause. */
    method Ramp(values: seq<int>, pause: real)
      requires pause >= 0.0
      modifies this, light, clock
      ensures light.writes == old(light.writes) + Fractions(light.pin, values)
      ensures clock.sleeps == old(clock.sleeps) + Repeat(pause, |values|)
      ensures trace == old(trace) + Interleave(Fractions(light.pin, values), Repeat(pause, |values|))
    {
      for k := 0 to |values|
        invariant light.writes == old(light.writes) + Fractions(light.pin, values[..k])
        invariant clock.sleeps == old(clock.sleeps) + Repeat(pause, k)
        invariant trace == old(trace) + Interleave(Fractions(light.pin, values[..k]), Repeat(pause, k))
      {
        SetPwm(Fraction(values[k]));
        Sleep(pause);
        assert light.writes == old(light.writes) + Fractions(light.pin, values[..k + 1]) by {
          FractionsExtend(light.pin, values, k);
        }
        assert clock.sleeps == old(clock.sleeps) + Repeat(pause, k + 1) by {
          RepeatExtend(pause, k);
        }
        assert trace == old(trace) + Interleave(Fractions(light.pin, values[..k + 1]), Repeat(pause, k + 1)) by {
          RampStep(light.pin, values, pause, k);
        }
      }
      assert values[..|values|] == values;
    }

    /**
     * A ramp from `begin` to `end` thousandths over `duration` minutes; on
     * invalid bounds it reports the first failed check and does nothing.
     */
    method RangeVariation(begin: int, end: int, duration: int) returns (r: Outcome)
      requires ValidateRange(begin, end).Pass? ==> duration >= 0
      modifies this, light, clock
      ensures r == ValidateRange(begin, end)
      ensures r.Fail? ==> light.writes == old(light.writes) && clock.sleeps == old(clock.sleeps) &&
                          trace == old(trace)
      ensures r.Pass? ==> light.writes == old(light.writes) + Fractions(light.pin, RangeSteps(begin, end))
      ensures r.Pass? ==> clock.sleeps == old(clock.sleeps) +
                            Repeat(AvgPauseTime(duration, Abs(end - begin)), Abs(end - begin) + 1)
      ensures r.Pass? ==> trace == old(trace) +
                            Interleave(Fractions(light.pin, RangeSteps(begin, end)),
                                       Repeat(AvgPauseTime(duration, Abs(end - begin)), Abs(end - begin) + 1))
    {
      if begin == end {
        return Fail(EqualBounds(begin, end));
      } else if begin < 0 {
        return Fail(BeginBelowZero(begin));
      } else if end > 1000 {
        return Fail(EndAboveMax(end));
      }
      var steps := Abs(end - begin);
      var pauseTime := AvgPauseTime(duration, steps);
      var step, stop;
      if end > begin {
        step, stop := 1, end + 1;
      } else {
        step, stop := -1, end - 1;
      }
      var range := PyRange(begin, stop, step);
      assert range == RangeSteps(begin, end);
      Ramp(range, pauseTime);
      return Pass;
    }

    /** A full sweep whose pause depends on the band of each value, then fully on or off. */
    method ProgressiveVariation(duration: int, ascending: bool)
      requires duration >= 0
      modifies this, light, clock
      ensures light.writes == old(light.writes) + SweepWrites(light.pin, ascending)
      ensures clock.sleeps == old(clock.sleeps) +
                              ProgressivePauses(AvgPauseTime(duration, FullScale), ascending, SweepRange(ascending))
      ensures trace == old(trace) +
                       SweepTrace(light.pin, ascending,
                                  ProgressivePauses(AvgPauseTime(duration, FullScale), ascending, SweepRange(ascending)))
    {
      var avgPauseTime := AvgPauseTime(duration, 1000);
      var range := SweepRange(ascending);
      ghost var writes0, trace0 := light.writes, trace;
      ProgressiveRamp(range, avgPauseTime, ascending);
      ghost var writes1, trace1 := light.writes, trace;
      VariationOut(ascending);
      SweepCompletes(light.pin, ascending, ProgressivePauses(avgPauseTime, ascending, range),
                     writes0, writes1, light.writes, trace0, trace1, trace);
    }

    /** The progressive sweep's loop: write each value, then pause for its band. */
    method ProgressiveRamp(values: seq<int>, avgPauseTime: real, ascending: bool)
      requires avgPauseTime >= 0.0
      modifies this, light, clock
      ensures light.writes == old(light.writes) + Fractions(light.pin, values)
      ensures clock.sleeps == old(clock.sleeps) + ProgressivePauses(avgPauseTime, ascending, values)
      ensures trace == old(trace) + Interleave(Fractions(light.pin, values), ProgressivePauses(avgPauseTime, ascending, values))
    {
      for k := 0 to |values|
        invariant light.writes == old(light.writes) + Fractions(light.pin, values[..k])
        invariant clock.sleeps == old(clock.sleeps) + ProgressivePauses(avgPauseTime, ascending, values[..k])
        invariant trace == old(trace) +
                           Interleave(Fractions(light.pin, values[..k]), ProgressivePauses(avgPauseTime, ascending, values[..k]))
      {
        var i := values[k];
        SetPwm(Fraction(i));
        var pauseTime := ProgressivePause(avgPauseTime, ascending, i);
        ProgressivePauseNonNegative(avgPauseTime, ascending, i);
        Sleep(pauseTime);
        assert light.writes == old(light.writes) + Fractions(light.pin, values[..k + 1]) by {
          FractionsExtend(light.pin, values, k);
        }
        assert clock.sleeps == old(clock.sleeps) + ProgressivePauses(avgPauseTime, ascending, values[..k + 1]) by {
          ProgressivePausesExtend(avgPauseTime, ascending, values, k);
        }
        assert trace == old(trace) + Interleave(Fractions(light.pin, values[..k + 1]),
                                                ProgressivePauses(avgPauseTime, ascending, values[..k + 1])) by {
          ProgressiveStep(light.pin, values, avgPauseTime, ascending, k);
        }
      }
      assert values[..|values|] == values;
    }

    /** The last write of a sweep: "1" after rising, "0" after falling. */
    method VariationOut(ascending: bool)
      modifies this, light
      ensures light.writes == old(light.writes) + [Record(light.pin, OutValue(ascending))]
      ensures trace == old(trace) + [Write(Record(light.pin, OutValue(ascending)))]
    {
      if ascending {
        SetPwm(Text("1"));
      } else {
        SetPwm(Text("0"));
      }
    }
  }

  // Lemmas

  /** A ramp is strictly increasing when `end > begin` and strictly decreasing otherwise. */
  lemma RangeStepsStrictlyMonotonic(begin: int, end: int)
    requires begin != end
    ensures forall j, k :: 0 <= j < k < |RangeSteps(begin, end)| ==>
              if end > begin then RangeSteps(begin, end)[j] < RangeSteps(begin, end)[k]
              else RangeSteps(begin, end)[j] > RangeSteps(begin, end)[k]
  {
  }

  /**
   * An accepted ramp stays within [0, 1] exactly when `begin <= 1000` and
   * `end >= 0`, the two bounds the validation does not check.
   */
  lemma RangeWithinUnit(begin: int, end: int)
    requires ValidateRange(begin, end).Pass?
    ensures (forall k :: 0 <= k < |RangeSteps(begin, end)| ==> 0 <= RangeSteps(begin, end)[k] <= FullScale)
            <==> begin <= FullScale && 0 <= end
  {
    var r := RangeSteps(begin, end);
    if begin <= FullScale && 0 <= end {
      forall k | 0 <= k < |r| ensures 0 <= r[k] <= FullScale {
      }
    }
  }

  /** Bounds outside [0, 1000] on the unchecked sides are accepted and written. */
  lemma RangeAcceptsOutOfUnit()
    ensures ValidateRange(1500, 900).Pass? && RangeSteps(1500, 900)[0] == 1500
    ensures ValidateRange(5, -3).Pass? && RangeSteps(5, -3)[8] == -3
  {
  }

  /**
   * A ramp of n steps sleeps n + 1 times the pause of duration / n, so
   * its pauses add up to the requested minutes plus one more pause.
   */
  lemma RangeSleepTotal(begin: int, end: int, duration: int)
    requires begin != end
    ensures Sum(Repeat(AvgPauseTime(duration, Abs(end - begin)), Abs(end - begin) + 1)) ==
            (duration * 60) as real + AvgPauseTime(duration, Abs(end - begin))
  {
    var n := Abs(end - begin);
    SumRepeat(AvgPauseTime(duration, n), n + 1);
    assert (n + 1) as real * AvgPauseTime(duration, n) ==
           n as real * AvgPauseTime(duration, n) + AvgPauseTime(duration, n);
  }
}
