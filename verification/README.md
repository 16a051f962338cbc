# rlieh-pwm: a Dafny model of the PWM light modulation

RLIEH drives an aquarium or greenhouse light through the pi-blaster driver.
A channel (`RliehPWM` in rlieh_pwm, its twin `RliehLeds` in rlieh_leds) owns
one GPIO pin. Assigning its `pwm` property writes one `"{pin}={value}"`
record to `/dev/pi-blaster`. Reading the property searches the device text
for `{pin}=[.0-9]+` and returns the matched digits, or 0.

On top of the channel, three copies of a `MyLeds` light sweep the intensity:
- `regular_variation` writes `i/1000` for each `i` of a thousand-value range, with a constant pause after each write, then writes "1" or "0".
- `progressive_variation` is the same sweep, but scales the pause by the band `i` falls in.
- `range_variation` (rlieh_pwm/cli.py only) is a validated linear ramp from `begin` to `end` thousandths.

The copies live in rlieh_pwm/cli.py, rlieh_pwm/cli_ada.py and rlieh_leds/cli_old.py.

Files and modules:

- `blaster.dfy`, module `Blaster`: the device protocol. This covers the values handed to the setter, the record format, and the getter's regular-expression search as a pure function of the device text. The read-back lemmas are here too.
- `pwm_core.dfy`, module `PwmCore`, and `leds_core.dfy`, module `LedsCore`: the two channel classes.
  - `pin` and `blaster` are constants.
  - The device is a ghost log `writes` of the records written.
  - The setter `SetPwm` appends exactly one record.
  - The getter `Pwm` is a function of the device text it is given.
- `variation.dfy`, module `Variation`: the sweep logic the three `MyLeds` share, defined once.
  - Python's `range` for a ±1 step, and `_get_range`.
  - `_get_avg_pause_time`, the band selection and the progressive pause.
  - The sequences of records and pauses a sweep produces, with the lemmas about them.
  - `Clock`, which models `time.sleep` as a ghost log `sleeps` of the pauses requested.
  - `Event` and `Interleave`: the order of a sweep's writes and pauses as one trace.
- `pwm_cli.dfy` (`PwmCli`), `ada_cli.dfy` (`AdaCli`), `old_cli.dfy` (`OldCli`): the `MyLeds` class of each file.
  - Each loop is a `for` loop over the range. It sits in its own method: `Ramp` for the constant pause, `ProgressiveRamp` for the band-scaled one. `regular_variation` and `range_variation` run the same loop, so they share `Ramp`.
  - Each method's `ensures` ties the new `writes` and `sleeps` logs to the shared specification functions.
  - `MyLeds` also keeps a ghost `trace` of its writes and pauses in the order it makes them. Its `SetPwm` and `Sleep` write or sleep and append the event. Each sweep's `ensures` gives the whole trace: each write followed by its pause, and `variation_out`'s write last.

Intensities are integer thousandths. `Fraction(i)` stands for the float `str(i/1000.0)` that the loops write. Pauses are exact `real` seconds.

`MyLeds` subclasses the channel in Python. Here it holds the channel as `light` and the sleep log as `clock`.

## Model

| member | source | states |
|---|---|---|
| `Blaster.Decimal` | rlieh_pwm/core.py:86 | a pin renders as a non-empty string of decimal digits that spells the pin's number, so the pattern built from it has no other regex syntax |
| `Blaster.DecimalInjective` | rlieh_pwm/core.py:63 | different pins render differently, so each pin's pattern has its own literal part |
| `Blaster.Format` | rlieh_pwm/core.py:86 | the record `{pin}={value}`: the pin's digits, then the first `=`, then exactly the value, so splitting at the first `=` gives the value back |
| `Blaster.FindFrom` | rlieh_pwm/core.py:63-72 | the result is the leftmost position at or after `from` where `{pin}=` followed by one `[.0-9]` character occurs; `None` exactly when there is no such position |
| `Blaster.Run` | rlieh_pwm/core.py:63 | the greedy `[.0-9]+` tail: the longest prefix made only of digits and dots, stopping at the end or at the first other character |
| `Blaster.ReadPwm` | rlieh_pwm/core.py:59-75 | the getter returns 0 exactly when the pattern occurs nowhere; otherwise it returns the non-empty maximal `[.0-9]` run after `=` at the first match |
| `Blaster.ReadBack` | rlieh_pwm/core.py:63-87 | reading back the record the setter writes returns the value written, when that value is a non-empty run of digits and dots and nothing digit-like follows it (such as the newline `echo` adds) |
| `Blaster.EmptyValueReadsZero` | rlieh_leds/core.py:52-60 | a record with an empty value does not match `[.0-9]+`, so the getter falls back to 0 |
| `Blaster.UnanchoredMatch` | rlieh_leds/core.py:48-58 | the search is unanchored: on the text `18=0.5` the channel on pin 8 reads `0.5` |
| `PwmCore.RliehPWM.constructor` | rlieh_pwm/core.py:49-57 | stores the pin and `/dev/pi-blaster`; writes one record when an initial value is given, none otherwise |
| `PwmCore.RliehPWM.Pwm` | rlieh_pwm/core.py:59-75 | the getter, on the device text it is given: 0 exactly when the pattern is absent, otherwise the first maximal match; a function, so it writes nothing and changes no field |
| `PwmCore.RliehPWM.SetPwm` | rlieh_pwm/core.py:78-88 | each assignment appends exactly one record `{pin}={value}` to the write log; there is no range check on the value |
| `LedsCore.RliehLeds.constructor` | rlieh_leds/core.py:34-42 | stores the pin and `/dev/pi-blaster`; writes only when an initial value is given |
| `LedsCore.RliehLeds.Pwm` | rlieh_leds/core.py:44-61 | the getter: 0 when `{pin}=[.0-9]+` does not occur, else the first maximal run after `=`; it issues no write and changes no field |
| `LedsCore.RliehLeds.SetPwm` | rlieh_leds/core.py:63-73 | each assignment appends exactly one `{pin}={value}` record, unchecked |
| `Variation.Clock.Sleep` | rlieh_pwm/cli.py:59 | a sleep appends its pause to the sleep log; a negative pause is refused, as `time.sleep` refuses it |
| `Variation.PyRange` | rlieh_pwm/cli.py:88 | Python's `range(start, stop, ±1)`: its length is the distance clipped at 0, and its k-th element is `start ± k` |
| `Variation.SweepRange` | rlieh_pwm/cli.py:128-140 | `_get_range` has exactly 1000 values, whichever the direction |
| `Variation.SweepRangeValues` | rlieh_pwm/cli.py:136-140 | the k-th value of `_get_range` is `k` when ascending and `1000 - k` when descending |
| `Variation.SweepStepsByOne` | rlieh_pwm/cli.py:55-58 | consecutive sweep values differ by exactly one thousandth, upwards when ascending and downwards otherwise |
| `Variation.SweepRangesMirror` | rlieh_pwm/cli_ada.py:110-122 | ascending runs 0..999 and leaves out 1000; descending runs 1000..1 and leaves out 0; the two are mirror images |
| `Variation.SweepValuesInUnit` | rlieh_leds/cli_old.py:83-95 | every value a sweep's loop writes lies in [0, 1000] thousandths, i.e. in [0, 1] |
| `Variation.AvgPauseTime` | rlieh_pwm/cli.py:142-152 | `steps` pauses of the result add up to exactly `duration` minutes; the result is non-negative for a non-negative duration |
| `Variation.AvgPauseTestValue` | rlieh_pwm/cli.py:151 | 1000 minutes over 1000 steps gives a 60-second pause |
| `Variation.FixedStepPause` | rlieh_pwm/cli_ada.py:124-134 | with the step count fixed at 1000, the pause is `0.06 · duration` seconds, and never negative for a non-negative duration |
| `Variation.RegularSweepLastsDuration` | rlieh_leds/cli_old.py:97-107 | a regular sweep's 1000 average pauses add up to exactly `duration · 60` seconds |
| `Variation.FractionsExtend` | rlieh_pwm/cli.py:56-58 | writing one more value of the loop appends exactly one record, carrying that value's thousandths, after the earlier ones |
| `Variation.RepeatExtend` | rlieh_pwm/cli.py:59 | one more pass of the regular loop appends exactly one more average pause |
| `Variation.SweepEndsFullOnOrOff` | rlieh_leds/cli_old.py:42-46 | a full sweep writes 1001 records; the last is "1" after rising and "0" after falling |
| `Variation.OutValue` | rlieh_pwm/cli.py:154-164 | `variation_out` writes a one-character value, "1" exactly when rising and "0" exactly when falling |
| `Variation.OutValueReadsBack` | rlieh_leds/cli_old.py:109-119 | the record `variation_out` writes reads back through the getter as "1" after rising and "0" after falling |
| `Variation.Band` | rlieh_pwm/cli_ada.py:85-95 | the band conditions, tested in order, put every integer in exactly one of the five bands ≤200, 201–400, 401–600, 601–800, >800 |
| `Variation.ProgressivePause` | rlieh_pwm/cli.py:103-124 | each branch of the pause selection is the average pause times its band's factor: ×3, ×2, ×1, ÷2, ÷3 rising, and the reverse falling |
| `Variation.FactorsReciprocal` | rlieh_pwm/cli_ada.py:85-106 | at every value, the ascending factor times the descending factor is 1 |
| `Variation.ProgressivePauseMonotonic` | rlieh_leds/cli_old.py:58-79 | for a non-negative average, the ascending pause never grows as `i` rises, and the descending pause never shrinks |
| `Variation.ProgressivePauseNonNegative` | rlieh_leds/cli_old.py:53-80 | a progressive sweep never requests a negative pause |
| `Variation.ProgressivePausesExtend` | rlieh_pwm/cli_ada.py:81-107 | one more pass of the progressive loop appends exactly the band-scaled pause of the value just written |
| `Variation.ProgressivePausesShorten` | rlieh_pwm/cli.py:93-125 | along either progressive sweep, in time order, no pause is longer than an earlier one |
| `Variation.Interleave` | rlieh_pwm/cli.py:56-59 | the trace of a loop that writes then sleeps has two events per value |
| `Variation.InterleaveAt` | rlieh_pwm/cli.py:56-59 | in a loop's trace the k-th write is at step 2k and the k-th pause right after it, before the next write |
| `Variation.InterleaveExtend` | rlieh_pwm/cli.py:56-59 | one more pass of a loop appends its write and then its pause to the trace |
| `Variation.RampStep` | rlieh_pwm/cli.py:88-91 | one pass of the regular loop appends the value's record and one average pause to the trace |
| `Variation.ProgressiveStep` | rlieh_pwm/cli.py:99-125 | one pass of the progressive loop appends the value's record and then that value's band-scaled pause |
| `Variation.SweepTraceOrder` | rlieh_pwm/cli.py:52-60 | a full sweep's trace has 2001 steps: the k-th value is written at step 2k and followed by the k-th pause; `variation_out` writes last, after the final pause |
| `Variation.SweepCompletes` | rlieh_pwm/cli.py:99-126 | the loop's records and trace followed by `variation_out`'s write are exactly the sweep's records and trace |
| `PwmCli.ValidateRange` | rlieh_pwm/cli.py:65-77 | the checks in source order: equal bounds first, then `begin < 0`, then `end > 1000`; it accepts exactly when none holds; nothing bounds `begin` above or `end` below |
| `PwmCli.RangeSteps` | rlieh_pwm/cli.py:78-88 | a ramp has `abs(end - begin) + 1` values from `begin` to `end` inclusive; the k-th is `begin ± k` |
| `PwmCli.RangeStepsStrictlyMonotonic` | rlieh_pwm/cli.py:80-90 | a ramp strictly increases when `end > begin` and strictly decreases otherwise |
| `PwmCli.RangeWithinUnit` | rlieh_pwm/cli.py:65-90 | an accepted ramp stays within [0, 1000] exactly when `begin <= 1000` and `end >= 0`, the two bounds that are not checked |
| `PwmCli.RangeAcceptsOutOfUnit` | rlieh_pwm/cli.py:69-76 | the bounds (1500, 900) and (5, -3) pass validation, and their ramps write 1.5 and -0.003 |
| `PwmCli.RangeSleepTotal` | rlieh_pwm/cli.py:78-91 | a ramp of n steps sleeps n + 1 pauses of `duration/n`, so it sleeps the requested minutes plus one pause |
| `PwmCli.MyLeds.constructor` | rlieh_pwm/cli.py:49-50 | a light on the given pin, created without writing, with empty logs and an empty trace |
| `PwmCli.MyLeds.SetPwm` | rlieh_pwm/cli.py:57-58 | `self.pwm = value`: one record on the channel, and one `Write` event at the end of the trace |
| `PwmCli.MyLeds.Sleep` | rlieh_pwm/cli.py:59 | `sleep(seconds)`: one pause in the sleep log, and one `Pause` event at the end of the trace |
| `PwmCli.MyLeds.RegularVariation` | rlieh_pwm/cli.py:52-60 | writes the 1000 sweep values in order, then "1" or "0"; the trace puts one average pause after each loop write, before the next one, and `variation_out`'s write after the last pause |
| `PwmCli.MyLeds.Ramp` | rlieh_pwm/cli.py:56-59 | the loop the regular sweep and the ramp share: one record per value in order, one pause of the given length per value, and a trace in which each pause follows its write |
| `PwmCli.MyLeds.RangeVariation` | rlieh_pwm/cli.py:62-91 | returns the first failed check, with nothing written, slept or traced; otherwise writes every ramp value in order, and its trace puts one pause of `duration·60/abs(end-begin)` after each write |
| `PwmCli.MyLeds.ProgressiveVariation` | rlieh_pwm/cli.py:93-126 | writes the same records as the regular sweep; the trace puts the band-scaled pause after each loop write, and `variation_out`'s write last |
| `PwmCli.MyLeds.ProgressiveRamp` | rlieh_pwm/cli.py:99-125 | the progressive loop: one record per value in order, and a trace in which each is followed by the band-scaled pause of that value |
| `PwmCli.MyLeds.VariationOut` | rlieh_pwm/cli.py:154-164 | exactly one write, also appended to the trace: "1" when ascending, "0" when descending |
| `AdaCli.MyLeds.constructor` | rlieh_pwm/cli_ada.py:61-63 | a light on the given pin over an `RliehPWM`, created without writing, with empty logs and an empty trace |
| `AdaCli.MyLeds.SetPwm` | rlieh_pwm/cli_ada.py:70-71 | `self.pwm = value`: one record on the channel, and one `Write` event at the end of the trace |
| `AdaCli.MyLeds.Sleep` | rlieh_pwm/cli_ada.py:72 | `sleep(seconds)`: one pause in the sleep log, and one `Pause` event at the end of the trace |
| `AdaCli.MyLeds.RegularVariation` | rlieh_pwm/cli_ada.py:65-73 | 1000 loop writes of `i/1000`, then one write of "1" or "0"; the trace puts one average pause after each loop write and the final write after the last pause |
| `AdaCli.MyLeds.Ramp` | rlieh_pwm/cli_ada.py:69-72 | the regular loop: one record per value in order, and a trace in which each is followed by one pause of the given length |
| `AdaCli.MyLeds.ProgressiveVariation` | rlieh_pwm/cli_ada.py:75-108 | the same records as `RegularVariation`, ending with `variation_out`'s; the trace puts each value's band-scaled pause right after its write |
| `AdaCli.MyLeds.ProgressiveRamp` | rlieh_pwm/cli_ada.py:81-107 | the progressive loop: one record per value in order, and a trace in which each is followed by its band-scaled pause |
| `AdaCli.MyLeds.VariationOut` | rlieh_pwm/cli_ada.py:136-146 | one write, also appended to the trace: "1" when ascending, "0" when descending |
| `OldCli.MyLeds.constructor` | rlieh_leds/cli_old.py:34-36 | a light on the given pin over an `RliehLeds`, created without writing, with empty logs and an empty trace |
| `OldCli.MyLeds.SetPwm` | rlieh_leds/cli_old.py:43-44 | `self.pwm = value`: one record on the channel, and one `Write` event at the end of the trace |
| `OldCli.MyLeds.Sleep` | rlieh_leds/cli_old.py:45 | `sleep(seconds)`: one pause in the sleep log, and one `Pause` event at the end of the trace |
| `OldCli.MyLeds.RegularVariation` | rlieh_leds/cli_old.py:38-46 | 1000 loop writes of `i/1000`, then one write of "1" or "0"; the trace puts one average pause after each loop write and the final write after the last pause |
| `OldCli.MyLeds.Ramp` | rlieh_leds/cli_old.py:42-45 | the regular loop: one record per value in order, and a trace in which each is followed by one pause of the given length |
| `OldCli.MyLeds.ProgressiveVariation` | rlieh_leds/cli_old.py:48-81 | the same records as `RegularVariation`, ending with `variation_out`'s; the trace puts each value's band-scaled pause right after its write |
| `OldCli.MyLeds.ProgressiveRamp` | rlieh_leds/cli_old.py:54-80 | the progressive loop: one record per value in order, and a trace in which each is followed by its band-scaled pause |
| `OldCli.MyLeds.VariationOut` | rlieh_leds/cli_old.py:109-119 | one write, also appended to the trace: "1" when ascending, "0" when descending |

The model follows the code of these files. The code has no percentage scale, no tenths-of-a-percent step planner, no named lighting profiles and no typed write errors, so neither does the model.

Several docstrings do not match their code; the model follows the code:

- The module docstring of rlieh_pwm/core.py (lines 18-22) describes a percentage from 0 to 100, such as `light.pwm = 42.42`. The class docstring (line 46) and the setter (line 83) say the value is between 0 and 1. No code converts between the two scales.
- The class docstring (rlieh_pwm/core.py:46) calls `pwm` a float. The getter returns the matched text, a string, or the integer 0 (lines 73-75). `Reading` models exactly these two results.
- The docstring of `_get_avg_pause_time` (rlieh_pwm/cli.py:148-149) says it returns an integer. It returns the float `int(duration) * 60. / steps` (line 151).
- The docstring of `_get_range` (rlieh_pwm/cli.py:133) says a descending range starts from `self.limit`. There is no such attribute; the range starts at 1000.
- The docstring of `progressive_variation` says pauses are longer for low light values. That holds only when rising. When falling, the factors are reciprocal, so the long pauses come at high light (`Variation.ProgressivePauseMonotonic`).

The last three also appear in rlieh_pwm/cli_ada.py (lines 78, 115, 131) and rlieh_leds/cli_old.py (lines 51, 88, 104).

## Left out

- Device I/O is not modelled. The getter does not open or read `/dev/pi-blaster`: `Pwm` takes the device text as a parameter. The setter's shell command (`echo … > /dev/pi-blaster` through `call`) becomes an append to the ghost `writes` log. Shell quoting, a failed command and the device's own behaviour are not modelled.
- Float rendering is not modelled. `Fraction(i)` stands for `str(i/1000.0)`, and its text is not computed. So the read-back lemma covers only values given as text, such as the "1" and "0" of `variation_out`.
- Wall-clock time is not modelled. `time.sleep` only records the pause requested. Python raises on a negative pause; instead, the sweeps require `duration >= 0` (`RangeVariation` only when the bounds pass validation).
- The channel's `writes` and the clock's `sleeps` are two separate logs. The order between them is recorded only in `MyLeds`'s `trace`, which holds the events of that one light. Writes made to the channel outside `MyLeds` do not enter the trace.
- `int(duration)` is not modelled. Durations are already integers. Parsing a CLI string, and the ValueError from a non-integer string, are out.
- `Variation.AvgPauseTime` requires `steps != 0`. In Python a zero step count raises ZeroDivisionError, but no caller passes 0: the default is 1000 and `range_variation` rejects equal bounds first.
- The pin is a natural number rendered in decimal. Python formats whatever object is passed, and the CLI passes a string. A pin text with regex metacharacters would change the getter's pattern; that case is not modelled.
- Inheritance is replaced by composition. `MyLeds` holds its channel instead of subclassing it; the writes are the same.
- The docopt command-line dispatch is not modelled (`main` and the `__main__` blocks). This includes the default duration of 1, the undefined `RliehLeds` name in rlieh_pwm/cli_ada.py, and the pin-18 override in rlieh_leds/cli_old.py.
- Default arguments are not modelled as defaults; every call passes all its arguments. These are `pin=18` of both channel constructors (rlieh_pwm/core.py:49, rlieh_leds/core.py:34), `ascending=True` of the sweeps and `_get_range`, and `steps=1000` of `_get_avg_pause_time` in rlieh_pwm/cli.py. Where the code relies on the default of 1000 steps, the model passes 1000 explicitly.
- `print` calls are left out; they are debug output only.
- rlieh_pwm/tests.py is not part of this model. It calls `_steps`, `_avg_pause_time` and a `log_level` argument that these files do not define. Only its expected 60-second pause is restated, by `Variation.AvgPauseTestValue`.
- setup.py and rlieh_pwm/__init__.py are packaging and version metadata, and are not part of this model.
- The total time a progressive sweep sleeps is neither computed nor bounded.
