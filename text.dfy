/** The padding of two strings of the text overlay.

    The elapsed time is shown in millions of years, rounded to three
    decimals; `str` drops trailing zeros, so the string is padded back with
    '0's: to five characters, or to six in the second half of the time axis.
    The six-character case is apparently meant for times with two integer
    digits, but the test is on the frame index, not on the time, so the two
    need not coincide near the middle of the axis. The precession value gets a
    leading space when it is positive, in the column where a minus sign
    would go. The rounding and `str` are not modelled: the functions take
    the strings they produce. */
module TextOverlay {

  /** `timestep > (1/2) * len(time_interp)`, compared as real numbers. */
  predicate SecondHalf(index: int, n: int) {
    index as real > n as real / 2.0
  }

  /** The three padding steps, in order; each sees the previous one's result. */
  function PadTime(s: string, index: int, n: int): (r: string)
    ensures |s| <= |r| && r[..|s|] == s
    ensures forall i :: |s| <= i < |r| ==> r[i] == '0'
    ensures 3 <= |s| <= 5 ==> |r| == if SecondHalf(index, n) then 6 else 5
    ensures !(3 <= |s| <= 5) ==> r == s
  {
    var s1 := if |s| == 3 then s + "00" else s;
    var s2 := if |s1| == 4 then s1 + "0" else s1;
    if |s2| == 5 && SecondHalf(index, n) then s2 + "0" else s2
  }

  /** Padding an already padded string changes nothing. */
  lemma PadTimeIdempotent(s: string, index: int, n: int)
    ensures PadTime(PadTime(s, index, n), index, n) == PadTime(s, index, n)
  {
  }

  /** A length-3 string ends up three zeros longer in the second half,
      although its own step adds only two: the chain carries it on. */
  lemma ShortTimeInSecondHalf(s: string, index: int, n: int)
    requires |s| == 3 && SecondHalf(index, n)
    ensures PadTime(s, index, n) == s + "000"
  {
  }

  /** The precession string, given the number it denotes (`float(s)`). */
  function PadPrecession(s: string, value: real): (r: string)
    ensures |r| == if value > 0.0 then |s| + 1 else |s|
    ensures r[|r| - |s|..] == s
    ensures value > 0.0 ==> r[0] == ' '
  {
    if value > 0.0 then " " + s else s
  }
}
