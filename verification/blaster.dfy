/**
 * The pi-blaster device protocol shared by both channel classes: a channel
 * writes one textual record "{pin}={value}" per assignment, and reads its
 * value back by searching the device text for the first occurrence of the
 * regular expression `{pin}=[.0-9]+`, falling back to 0 when there is none.
 */
module Blaster {

  datatype Option<+T> = None | Some(value: T)

  /** Path of the pi-blaster device every channel writes to. */
  const DevicePath: string := "/dev/pi-blaster"

  /**
   * A value handed to the `pwm` setter. `Text(s)` is a value already in
   * textual form (the CLI's `set VALUE`, `str(1)`, `str(0)`);
   * `Fraction(i)` is `str(i / 1000.0)`, the float the sweeps write, kept
   * as its integer number of thousandths.
   */
  datatype Value = Text(s: string) | Fraction(thousandths: int)

  /** One record written to the device: "{pin}={value}". */
  datatype Record = Record(pin: nat, value: Value)
  {
    /** The record's text, for values whose text is known. */
    function Line(): string
      requires value.Text?
    {
      Format(pin, value.s)
    }
  }

  /** What the `pwm` getter returns: the matched text, or the integer 0. */
  datatype Reading = Found(text: string) | Zero

  function Digit(d: nat): (c: char)
    requires d < 10
    ensures '0' <= c <= '9'
  {
    ('0' as int + d) as char
  }

  /** The number a string of decimal digits spells. */
  function DigitsValue(s: string): nat
    requires forall k :: 0 <= k < |s| ==> '0' <= s[k] <= '9'
  {
    if s == [] then 0 else DigitsValue(s[..|s| - 1]) * 10 + (s[|s| - 1] as int - '0' as int)
  }

  /**
   * The decimal rendering of a pin number, as `'{0}'.format(pin)` gives it:
   * a non-empty string of digits that spells `n`.
   */
  function Decimal(n: nat): (s: string)
    ensures |s| > 0
    ensures forall k :: 0 <= k < |s| ==> '0' <= s[k] <= '9'
    ensures DigitsValue(s) == n
  {
    if n < 10 then [Digit(n)]
    else
      var init := Decimal(n / 10);
      assert (init + [Digit(n % 10)])[..|init|] == init;
      init + [Digit(n % 10)]
  }

  /**
   * The record text "{pin}={value}" the setter echoes to the device. Its
   * first "=" follows the pin's digits, so splitting there gives back the
   * pin's rendering and the value.
   */
  function Format(pin: nat, value: string): (s: string)
    ensures |s| == |Decimal(pin)| + 1 + |value|
    ensures forall k :: 0 <= k < |Decimal(pin)| ==> s[k] != '=' && s[k] == Decimal(pin)[k]
    ensures s[|Decimal(pin)|] == '='
    ensures s[|Decimal(pin)| + 1..] == value
  {
    Decimal(pin) + "=" + value
  }

  /** The literal part "{pin}=" of the getter's pattern. */
  function Key(pin: nat): (key: string)
    ensures |key| > 0 && key[|key| - 1] == '='
    ensures forall k :: 0 <= k < |key| - 1 ==> '0' <= key[k] <= '9'
  {
    Decimal(pin) + "="
  }

  /** The character class `[.0-9]`. */
  predicate IsPwmChar(c: char)
  {
    c == '.' || '0' <= c <= '9'
  }

  predicate AllPwmChars(s: string)
  {
    forall k :: 0 <= k < |s| ==> IsPwmChar(s[k])
  }

  /** The pattern `key[.0-9]+` can start matching at position `p` of `text`. */
  predicate MatchesAt(text: string, key: string, p: int)
  {
    0 <= p && p + |key| < |text| && text[p..p + |key|] == key && IsPwmChar(text[p + |key|])
  }

  /** `p` is where an unanchored search finds its leftmost match. */
  predicate IsFirstMatch(text: string, key: string, p: int)
  {
    MatchesAt(text, key, p) && forall q :: 0 <= q < p ==> !MatchesAt(text, key, q)
  }

  /** `s` is the longest run of `[.0-9]` characters starting at position `i` of `text`. */
  predicate MaximalRunAt(text: string, i: int, s: string)
  {
    0 <= i && i + |s| <= |text| && text[i..i + |s|] == s && AllPwmChars(s) &&
    (i + |s| == |text| || !IsPwmChar(text[i + |s|]))
  }

  /** Leftmost position at or after `from` where the pattern matches. */
  function FindFrom(text: string, key: string, from: nat): (r: Option<nat>)
    ensures r.Some? ==> from <= r.value && MatchesAt(text, key, r.value)
    ensures r.Some? ==> forall q :: from <= q < r.value ==> !MatchesAt(text, key, q)
    ensures r.None? ==> forall q :: from <= q ==> !MatchesAt(text, key, q)
    decreases |text| - from
  {
    if from + |key| >= |text| then None
    else if MatchesAt(text, key, from) then Some(from)
    else FindFrom(text, key, from + 1)
  }

  /** The greedy `[.0-9]+` part of a match: the longest such prefix of `s`. */
  function Run(s: string): (r: string)
    ensures |r| <= |s| && r == s[..|r|]
    ensures AllPwmChars(r)
    ensures |r| == |s| || !IsPwmChar(s[|r|])
  {
    if s == [] || !IsPwmChar(s[0]) then [] else [s[0]] + Run(s[1..])
  }

  /**
   * The `pwm` getter on given device text: the characters after "=" in the
   * first match of `{pin}=[.0-9]+`, or 0 when the pattern does not occur.
   */
  function ReadPwm(pin: nat, contents: string): (r: Reading)
    ensures r.Zero? <==> forall p :: !MatchesAt(contents, Key(pin), p)
    ensures r.Found? ==> |r.text| > 0
    ensures r.Found? ==> exists p :: IsFirstMatch(contents, Key(pin), p) &&
                                     MaximalRunAt(contents, p + |Key(pin)|, r.text)
  {
    var key := Key(pin);
    match FindFrom(contents, key, 0)
    case None => Zero
    case Some(p) =>
      var run := Run(contents[p + |key|..]);
      assert IsFirstMatch(contents, key, p);
      assert MaximalRunAt(contents, p + |key|, run);
      Found(run)
  }

  lemma {:induction false} RunOfPwmText(v: string, rest: string)
    requires AllPwmChars(v)
    requires rest == [] || !IsPwmChar(rest[0])
    ensures Run(v + rest) == v
  {
    if v != [] {
      assert (v + rest)[1..] == v[1..] + rest;
      RunOfPwmText(v[1..], rest);
    } else {
      assert v + rest == rest;
    }
  }

  /**
   * Reading back the record the setter writes, followed by anything that
   * does not extend the value (nothing, or the newline `echo` appends),
   * gives the value written, provided it is a non-empty run of digits and dots.
   */
  lemma ReadBack(pin: nat, v: string, rest: string)
    requires |v| > 0 && AllPwmChars(v)
    requires rest == [] || !IsPwmChar(rest[0])
    ensures ReadPwm(pin, Format(pin, v) + rest) == Found(v)
  {
    var key := Key(pin);
    var text := Format(pin, v) + rest;
    assert text == key + (v + rest);
    assert text[..|key|] == key;
    assert text[|key|] == v[0];
    assert MatchesAt(text, key, 0);
    assert FindFrom(text, key, 0) == Some(0);
    assert text[|key|..] == v + rest;
    RunOfPwmText(v, rest);
  }

  /** Different pins render differently, so each pin has its own key. */
  lemma DecimalInjective(a: nat, b: nat)
    requires Decimal(a) == Decimal(b)
    ensures a == b
  {
  }

  /** A record with an empty value does not match `[.0-9]+`: the getter gives 0. */
  lemma EmptyValueReadsZero(pin: nat)
    ensures ReadPwm(pin, Format(pin, "")) == Zero
  {
    assert Format(pin, "") == Key(pin);
  }

  /**
   * The search is not anchored at a record boundary: on text holding only
   * pin 18's record, the channel on pin 8 reads pin 18's value.
   */
  lemma UnanchoredMatch()
    ensures ReadPwm(8, "18=0.5") == Found("0.5")
  {
    var text := "18=0.5";
    assert Key(8) == "8=";
    assert !MatchesAt(text, "8=", 0);
    assert MatchesAt(text, "8=", 1);
    assert FindFrom(text, "8=", 0) == Some(1);
    assert text[3..] == "0.5";
    RunOfPwmText("0.5", "");
    assert "0.5" + "" == "0.5";
  }
}
