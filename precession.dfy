/** The display form of the precession angle.

    The precession tilt series lies in [0, 180] degrees. For display it is
    turned into a series over [0, 360]: an element that is smaller than the
    element before it in the input (the angle is on its way back) is
    replaced by `360 - x`, so a swing up and back reads as one turn. The
    first element is compared against the sentinel -999. */
module PrecessionDisplay {

  /** The value the running `prev` starts from. */
  const Sentinel: real := -999.0

  /** What element `i` is compared against: the input element before it. */
  function Previous(x: seq<real>, i: int): real
    requires 0 <= i < |x|
  {
    if i == 0 then Sentinel else x[i - 1]
  }

  predicate Descending(x: seq<real>, i: int)
    requires 0 <= i < |x|
  {
    x[i] < Previous(x, i)
  }

  /** The whole converted series, element by element. */
  function Converted(x: seq<real>): (y: seq<real>)
    ensures |y| == |x|
  {
    seq(|x|, i requires 0 <= i < |x| => if Descending(x, i) then 360.0 - x[i] else x[i])
  }

  /** `convert_180_360`: fills a fresh zero array in one pass, carrying the
      previous input element in `prev`. */
  method Convert180To360(data180: seq<real>) returns (data360: array<real>)
    ensures fresh(data360)
    ensures data360.Length == |data180|
    ensures data360[..] == Converted(data180)
  {
    data360 := new real[|data180|];
    var prev := Sentinel;
    for i := 0 to |data180|
      invariant prev == if i == 0 then Sentinel else data180[i - 1]
      invariant forall j :: 0 <= j < i ==> data360[j] == Converted(data180)[j]
    {
      var curr := data180[i];
      if curr < prev {
        data360[i] := 360.0 - data180[i];
      } else {
        data360[i] := data180[i];
      }
      prev := curr;
    }
  }

  /** The first element is kept whenever it is not below the sentinel. */
  lemma FirstKept(x: seq<real>)
    requires |x| > 0 && x[0] >= Sentinel
    ensures Converted(x)[0] == x[0]
  {
  }

  /** Every element is compared with the INPUT before it, not with the
      converted one: changing an already converted neighbour in the output
      would not matter. Each output element depends only on x[i-1] and x[i]. */
  lemma Local(x: seq<real>, x': seq<real>, i: int)
    requires 0 < i < |x| == |x'|
    requires x[i - 1] == x'[i - 1] && x[i] == x'[i]
    ensures Converted(x)[i] == Converted(x')[i]
  {
  }

  predicate InHalfTurn(x: seq<real>) {
    forall i :: 0 <= i < |x| ==> 0.0 <= x[i] <= 180.0
  }

  /** On a tilt series in [0, 180], the output lies in [0, 360], and it lies
      above 180 exactly at the elements that were converted. */
  lemma ConvertedRange(x: seq<real>, i: int)
    requires InHalfTurn(x) && 0 <= i < |x|
    ensures 0.0 <= Converted(x)[i] <= 360.0
    ensures Converted(x)[i] > 180.0 <==> Descending(x, i)
  {
  }

  /** Folding a displayed angle back into [0, 180]. */
  function Unconverted(y: seq<real>): (x: seq<real>)
    ensures |x| == |y|
  {
    seq(|y|, i requires 0 <= i < |y| => if y[i] > 180.0 then 360.0 - y[i] else y[i])
  }

  /** No information is lost: on a series in [0, 180], folding the output
      back gives the input again. */
  lemma RoundTrip(x: seq<real>)
    requires InHalfTurn(x)
    ensures Unconverted(Converted(x)) == x
  {
  }
}
