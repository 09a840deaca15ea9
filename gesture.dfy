/**
 * The decision rule of the finger counter: what it does with the result of
 * the image pipeline (contours, hull, convexity defects, one angle per defect).
 * The pipeline itself is abstracted to a Detection value; each defect is reduced
 * to the verdict "its angle is at most 90 degrees", i.e. it is a valley between
 * two raised fingers.
 */
module Gesture {

  /** The most fingers the counter ever reports. */
  const MaxFingers: nat := 6

  /** What the image pipeline found in the region of interest. */
  datatype Detection =
    | NoContours                  // findContours returned nothing
    | NoDefects                   // the largest contour has no convexity defects
    | Defects(valleys: seq<bool>) // one verdict per defect: angle <= 90

  function Min(a: int, b: int): (m: int)
    ensures m <= a && m <= b && (m == a || m == b)
  {
    if a < b then a else b
  }

  /** Number of defects judged to be valleys: the number of true verdicts, prefix by prefix. */
  function ValleyCount(valleys: seq<bool>): nat
  {
    if valleys == [] then 0
    else ValleyCount(valleys[..|valleys| - 1]) + (if valleys[|valleys| - 1] then 1 else 0)
  }

  /** The decoded gesture: the value the counter reports for a detection. */
  function FingerCount(d: Detection): nat
  {
    match d
    case NoContours => 0
    case NoDefects => 0
    case Defects(valleys) => Min(ValleyCount(valleys) + 1, MaxFingers)
  }

  /**
   * The counting loop over the defects, then the clamp. The result is 0 exactly
   * when nothing countable was found, and otherwise one more than the number of
   * valleys, capped at six.
   */
  method CountFingers(d: Detection) returns (n: nat)
    ensures n <= MaxFingers
    ensures n == 0 <==> !d.Defects?
    ensures d.Defects? ==> n == Min(ValleyCount(d.valleys) + 1, MaxFingers)
    ensures n == FingerCount(d)
  {
    if d.NoContours? {
      return 0;
    }
    if d.NoDefects? {
      return 0;
    }
    var valleys := d.valleys;
    var fingerCount: nat := 0;
    for i := 0 to |valleys|
      invariant fingerCount == ValleyCount(valleys[..i])
    {
      assert valleys[..i + 1][..i] == valleys[..i];
      if valleys[i] {
        fingerCount := fingerCount + 1;
      }
    }
    assert valleys[..|valleys|] == valleys;
    n := Min(fingerCount + 1, MaxFingers);
  }

  /** The valley count is the number of true verdicts among the defects. */
  lemma {:induction false} ValleyCountIsTrueVerdicts(valleys: seq<bool>)
    ensures ValleyCount(valleys) == multiset(valleys)[true]
  {
    if valleys != [] {
      var init := valleys[..|valleys| - 1];
      ValleyCountIsTrueVerdicts(init);
      assert valleys == init + [valleys[|valleys| - 1]];
      assert multiset(valleys) == multiset(init) + multiset{valleys[|valleys| - 1]};
    }
  }

  /**
   * There are never more valleys than defects, and there are as many only when
   * every defect is a valley.
   */
  lemma {:induction false} ValleyCountBound(valleys: seq<bool>)
    ensures ValleyCount(valleys) <= |valleys|
    ensures ValleyCount(valleys) == |valleys| <==> forall i :: 0 <= i < |valleys| ==> valleys[i]
  {
    if valleys != [] {
      var init := valleys[..|valleys| - 1];
      ValleyCountBound(init);
      if ValleyCount(valleys) == |valleys| {
        forall i | 0 <= i < |valleys| ensures valleys[i] {
          if i < |init| {
            assert init[i] == valleys[i];
          }
        }
      }
      if forall i :: 0 <= i < |valleys| ==> valleys[i] {
        assert forall i :: 0 <= i < |init| ==> init[i] == valleys[i];
      }
    }
  }

  /**
   * The decoded value always lies in [0, 6]; it is 0 exactly when there are no
   * contours or no defects; with defects it is at least 1 and at most one more
   * than the number of defects.
   */
  lemma FingerCountRange(d: Detection)
    ensures 0 <= FingerCount(d) <= MaxFingers
    ensures FingerCount(d) == 0 <==> (d.NoContours? || d.NoDefects?)
    ensures d.Defects? ==> 1 <= FingerCount(d) <= |d.valleys| + 1
  {
    if d.Defects? {
      ValleyCountBound(d.valleys);
    }
  }

  /** Five or more valleys always report the full six fingers. */
  lemma FingerCountSaturates(valleys: seq<bool>)
    requires multiset(valleys)[true] >= MaxFingers - 1
    ensures FingerCount(Defects(valleys)) == MaxFingers
  {
    ValleyCountIsTrueVerdicts(valleys);
  }
}
