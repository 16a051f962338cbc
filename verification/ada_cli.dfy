/**
 * The `MyLeds` light of rlieh_pwm/cli_ada.py: full sweeps at a regular or a
 * progressive pace over an RliehPWM channel, with the step count fixed at
 * a thousand.
 */
module AdaCli {
  import opened Blaster
  import opened Variation
  import PwmCore

  class MyLeds {
    /** The channel `MyLeds` inherits from in Python. */
    const light: PwmCore.RliehPWM
    const clock: Clock
    /** Every write and pause this light has made, in the order it made them. */
    ghost var trace: seq<Event>

    constructor (pin: nat)
      ensures fresh(light) && fresh(clock)
      ensures light.pin == pin && light.writes == [] && clock.sleeps == [] && trace == []
    {
      light := new PwmCore.RliehPWM(pin, None);
      clock := new Clock();
      trace := [];
    }

    /** `self.pwm = value`: one write to the channel, recorded in the trace. */
    method SetPwm(value: Value)
      modifies this, light
      ensures light.writes == old(light.writes) + [Record(light.pin, value)]
      ensures trace == old(trace) + [Write(Record(light.pin, value))]
    {
      light.SetPwm(value);
      trace := trace + [Write(Record(light.pin, value))];
    }

    /** `sleep(seconds)`, recorded in the trace. */
    method Sleep(seconds: real)
      requires seconds >= 0.0
      modifies this, clock
      ensures clock.sleeps == old(clock.sleeps) + [seconds]
      ensures trace == old(trace) + [Pause(seconds)]
    {
      clock.Sleep(seconds);
      trace := trace + [Pause(seconds)];
    }

    /** A full sweep, one average pause after each value, then fully on or off. */
    method RegularVariation(duration: int, ascending: bool)
      requires duration >= 0
      modifies this, light, clock
      ensures light.writes == old(light.writes) + SweepWrites(light.pin, ascending)
      ensures clock.sleeps == old(clock.sleeps) + Repeat(AvgPauseTime(duration, FullScale), FullScale)
      ensures trace == old(trace) + SweepTrace(light.pin, ascending, Repeat(AvgPauseTime(duration, FullScale), FullScale))
    {
      var avgPauseTime := AvgPauseTime(duration, 1000);
      var range := SweepRange(ascending);
      ghost var writes0, trace0 := light.writes, trace;
      Ramp(range, avgPauseTime);
      ghost var writes1, trace1 := light.writes, trace;
      VariationOut(ascending);
      SweepCompletes(light.pin, ascending, Repeat(avgPauseTime, FullScale),
                     writes0, writes1, light.writes, trace0, trace1, trace);
    }

    /** The loop of the regular sweep: write each value, then pause. */
    method Ramp(values: seq<int>, pause: real)
      requires pause >= 0.0
      modifies this, light, clock
      ensures light.writes == old(light.writes) + Fractions(light.pin, values)
      ensures clock.sleeps == old(clock.sleeps) + Repeat(pause, |values|)
      ensures trace == old(trace) + Interleave(Fractions(light.pin, values), Repeat(pause, |values|))
    {
      for k := 0 to |values|
        invariant light.writes == old(light.writes) + Fractions(light.pin, values[..k])
        invariant clock.sleeps == old(clock.sleeps) + Repeat(pause, k)
        invariant trace == old(trace) + Interleave(Fractions(light.pin, values[..k]), Repeat(pause, k))
      {
        SetPwm(Fraction(values[k]));
        Sleep(pause);
        assert light.writes == old(light.writes) + Fractions(light.pin, values[..k + 1]) by {
          FractionsExtend(light.pin, values, k);
        }
        assert clock.sleeps == old(clock.sleeps) + Repeat(pause, k + 1) by {
          RepeatExtend(pause, k);
        }
        assert trace == old(trace) + Interleave(Fractions(light.pin, values[..k + 1]), Repeat(pause, k + 1)) by {
          RampStep(light.pin, values, pause, k);
        }
      }
      assert values[..|values|] == values;
    }

    /** A full sweep whose pause depends on the band of each value, then fully on or off. */
    method ProgressiveVariation(duration: int, ascending: bool)
      requires duration >= 0
      modifies this, light, clock
      ensures light.writes == old(light.writes) + SweepWrites(light.pin, ascending)
      ensures clock.sleeps == old(clock.sleeps) +
                              ProgressivePauses(AvgPauseTime(duration, FullScale), ascending, SweepRange(ascending))
      ensures trace == old(trace) +
                       SweepTrace(light.pin, ascending,
                                  ProgressivePauses(AvgPauseTime(duration, FullScale), ascending, SweepRange(ascending)))
    {
      var avgPauseTime := AvgPauseTime(duration, 1000);
      var range := SweepRange(ascending);
      ghost var writes0, trace0 := light.writes, trace;
      ProgressiveRamp(range, avgPauseTime, ascending);
      ghost var writes1, trace1 := light.writes, trace;
      VariationOut(ascending);
      SweepCompletes(light.pin, ascending, ProgressivePauses(avgPauseTime, ascending, range),
                     writes0, writes1, light.writes, trace0, trace1, trace);
    }

    /** The progressive sweep's loop: write each value, then pause for its band. */
    method ProgressiveRamp(values: seq<int>, avgPauseTime: real, ascending: bool)
      requires avgPauseTime >= 0.0
      modifies this, light, clock
      ensures light.writes == old(light.writes) + Fractions(light.pin, values)
      ensures clock.sleeps == old(clock.sleeps) + ProgressivePauses(avgPauseTime, ascending, values)
      ensures trace == old(trace) + Interleave(Fractions(light.pin, values), ProgressivePauses(avgPauseTime, ascending, values))
    {
      for k := 0 to |values|
        invariant light.writes == old(light.writes) + Fractions(light.pin, values[..k])
        invariant clock.sleeps == old(clock.sleeps) + ProgressivePauses(avgPauseTime, ascending, values[..k])
        invariant trace == old(trace) +
                           Interleave(Fractions(light.pin, values[..k]), ProgressivePauses(avgPauseTime, ascending, values[..k]))
      {
        var i := values[k];
        SetPwm(Fraction(i));
        var pauseTime := ProgressivePause(avgPauseTime, ascending, i);
        ProgressivePauseNonNegative(avgPauseTime, ascending, i);
        Sleep(pauseTime);
        assert light.writes == old(light.writes) + Fractions(light.pin, values[..k + 1]) by {
          FractionsExtend(light.pin, values, k);
        }
        assert clock.sleeps == old(clock.sleeps) + ProgressivePauses(avgPauseTime, ascending, values[..k + 1]) by {
          ProgressivePausesExtend(avgPauseTime, ascending, values, k);
        }
        assert trace == old(trace) + Interleave(Fractions(light.pin, values[..k + 1]),
                                                ProgressivePauses(avgPauseTime, ascending, values[..k + 1])) by {
          ProgressiveStep(light.pin, values, avgPauseTime, ascending, k);
        }
      }
      assert values[..|values|] == values;
    }

    /** The last write of a sweep: "1" after rising, "0" after falling. */
    method VariationOut(ascending: bool)
      modifies this, light
      ensures light.writes == old(light.writes) + [Record(light.pin, OutValue(ascending))]
      ensures trace == old(trace) + [Write(Record(light.pin, OutValue(ascending)))]
    {
      if ascending {
        SetPwm(Text("1"));
      } else {
        SetPwm(Text("0"));
      }
    }
  }
}
