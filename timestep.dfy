/** The command-line timestep of the animation and the length of the time
    axis it induces.

    The script is started as `milankovitch.py <timestep>`; the timestep is
    the number of years between two frames. It is accepted only when it is
    present, consists of digits and lies in [100, 5000]; otherwise the
    script prints an error and exits. The arguments are modelled as the list
    that follows the program name. */
module Timestep {

  /** Why the command line was refused. Each one prints a message and exits. */
  datatype ArgError = MissingArgument | NotNumeric | OutOfRange

  datatype Result = Ok(value: int) | Err(error: ArgError)

  const MinTimestep: int := 100
  const MaxTimestep: int := 5000

  /** The animation covers the last 20 million years. */
  const Span: int := 20000000

  predicate IsDigit(c: char) {
    '0' <= c <= '9'
  }

  predicate AllDigits(s: string) {
    forall i :: 0 <= i < |s| ==> IsDigit(s[i])
  }

  /** `str.isnumeric` restricted to ASCII: non-empty and made of digits only. */
  predicate IsNumeric(s: string) {
    |s| > 0 && AllDigits(s)
  }

  function DigitChar(d: nat): (c: char)
    requires d < 10
    ensures IsDigit(c) && c as int - '0' as int == d
  {
    ('0' as int + d) as char
  }

  lemma AllDigitsPrefix(s: string, k: nat)
    requires AllDigits(s) && k <= |s|
    ensures AllDigits(s[..k])
  {
  }

  /** The value `int(s)` gives to a string of decimal digits (leading zeros allowed). */
  function DigitsValue(s: string): (v: nat)
    requires AllDigits(s)
  {
    if |s| == 0 then 0
    else
      AllDigitsPrefix(s, |s| - 1);
      var high := DigitsValue(s[..|s| - 1]);
      high * 10 + (s[|s| - 1] as int - '0' as int)
  }

  /** The argument check at the top of the script: a missing argument, a
      non-numeric one and an out-of-range value are refused, in that order. */
  function ParseTimestep(args: seq<string>): (r: Result)
    ensures r.Ok? <==> |args| > 0 && IsNumeric(args[0])
                       && MinTimestep <= DigitsValue(args[0]) <= MaxTimestep
    ensures r.Ok? ==> r.value == DigitsValue(args[0])
    ensures r == Err(MissingArgument) <==> |args| == 0
    ensures r == Err(NotNumeric) <==> |args| > 0 && !IsNumeric(args[0])
  {
    if |args| == 0 then Err(MissingArgument)
    else if !IsNumeric(args[0]) then Err(NotNumeric)
    else
      var v := DigitsValue(args[0]);
      if v < MinTimestep || v > MaxTimestep then Err(OutOfRange)
      else Ok(v)
  }

  /** The decimal rendering of a natural number, without leading zeros. */
  function Decimal(v: nat): (s: string)
    ensures IsNumeric(s)
    ensures v >= 10 ==> s[0] != '0'
  {
    if v < 10 then [DigitChar(v)]
    else
      var head := Decimal(v / 10);
      head + [DigitChar(v % 10)]
  }

  /** Reading back the decimal rendering gives the number again. */
  lemma {:induction false} DecimalRoundTrip(v: nat)
    ensures DigitsValue(Decimal(v)) == v
  {
    if v >= 10 {
      var s := Decimal(v);
      DecimalRoundTrip(v / 10);
      assert s[..|s| - 1] == Decimal(v / 10);
    }
  }

  /** Every timestep in range is accepted when written in decimal, and every
      other natural number is refused as out of range. */
  lemma AcceptsExactlyTheRange(v: nat)
    ensures ParseTimestep([Decimal(v)])
            == if MinTimestep <= v <= MaxTimestep then Ok(v) else Err(OutOfRange)
  {
    DecimalRoundTrip(v);
  }

  /** `int` ignores leading zeros, so "0100" is accepted like "100". */
  lemma {:induction false} LeadingZeroIgnored(s: string)
    requires AllDigits(s)
    ensures AllDigits("0" + s) && DigitsValue("0" + s) == DigitsValue(s)
  {
    var z := "0" + s;
    assert forall i :: 0 < i < |z| ==> z[i] == s[i - 1];
    if |s| > 0 {
      AllDigitsPrefix(s, |s| - 1);
      LeadingZeroIgnored(s[..|s| - 1]);
      assert z[..|z| - 1] == "0" + s[..|s| - 1];
    }
  }

  /** Only the first argument is inspected; anything after it is ignored. */
  lemma ExtraArgumentsIgnored(args: seq<string>, more: seq<string>)
    requires |args| > 0
    ensures ParseTimestep(args + more) == ParseTimestep(args)
  {
  }

  /** The number of samples of `np.arange(0, Span, timestep)`: the multiples
      of the timestep that lie below the span. */
  function SeriesLength(timestep: int): (n: nat)
    requires timestep > 0
    ensures (n - 1) * timestep < Span <= n * timestep
  {
    var q := (Span + timestep - 1) / timestep;
    var m := (Span + timestep - 1) % timestep;
    assert q * timestep + m == Span + timestep - 1;
    assert (q - 1) * timestep == q * timestep - timestep;
    q
  }

  /** An accepted timestep gives between 4000 and 200000 frames. */
  lemma SeriesLengthBounds(timestep: int)
    requires MinTimestep <= timestep <= MaxTimestep
    ensures 4000 <= SeriesLength(timestep) <= 200000
  {
  }
}
