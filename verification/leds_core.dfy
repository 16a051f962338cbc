/**
 * The LED channel of the rlieh_leds package, the same logic as RliehPWM.
 * Each assignment to `pwm` writes one "{pin}={value}" record to the device;
 * reading `pwm` parses the device text. The device is modelled by a ghost
 * log of the records written, and the getter by a function of the text read.
 */
module LedsCore {
  import opened Blaster

  class RliehLeds {
    /** The GPIO pin; set once, never reassigned. */
    const pin: nat
    /** The device the records are written to. */
    const blaster: string
    /** Every record written to the device through this channel, in order. */
    ghost var writes: seq<Record>

    /** Stores the pin and device path; writes only when an initial value is given. */
    constructor (pin: nat, pwm: Option<Value>)
      ensures this.pin == pin && blaster == DevicePath
      ensures writes == if pwm.Some? then [Record(pin, pwm.value)] else []
    {
      this.pin := pin;
      blaster := DevicePath;
      writes := [];
      new;
      if pwm.Some? {
        SetPwm(pwm.value);
      }
    }

    /**
     * The `pwm` getter, given the text read from the device: this pin's value
     * as the first match of `{pin}=[.0-9]+`, or 0. It writes nothing.
     */
    function Pwm(contents: string): (r: Reading)
      ensures r.Zero? <==> forall p :: !MatchesAt(contents, Key(pin), p)
      ensures r.Found? ==> exists p :: IsFirstMatch(contents, Key(pin), p) &&
                                       MaximalRunAt(contents, p + |Key(pin)|, r.text)
    {
      ReadPwm(pin, contents)
    }

    /** The `pwm` setter: exactly one record, with no range check on `value`. */
    method SetPwm(value: Value)
      modifies this
      ensures writes == old(writes) + [Record(pin, value)]
    {
      writes := writes + [Record(pin, value)];
    }
  }
}
