/** The linear range remap `mapVals`. */
module RangeMap {

  /** Maps `v` from the range [from0, from1] onto [to0, to1]. */
  function MapVals(v: real, from0: real, from1: real, to0: real, to1: real): (r: real)
    requires from1 != from0
    ensures v == from0 ==> r == to0
    ensures v == from1 ==> r == to1
  {
    to0 + (to1 - to0) * ((v - from0) / (from1 - from0))
  }

  /** The remap is affine in `v`: it preserves every affine combination of two values. */
  lemma MapValsAffine(v1: real, v2: real, t: real, from0: real, from1: real, to0: real, to1: real)
    requires from1 != from0
    ensures MapVals(t * v1 + (1.0 - t) * v2, from0, from1, to0, to1)
         == t * MapVals(v1, from0, from1, to0, to1) + (1.0 - t) * MapVals(v2, from0, from1, to0, to1)
  {
    var k := (to1 - to0) / (from1 - from0);
    assert forall v :: MapVals(v, from0, from1, to0, to1) == to0 + k * (v - from0);
  }

  /** A value inside the source range lands between the two target ends,
      whichever order those are in. */
  lemma MapValsBetween(v: real, from0: real, from1: real, to0: real, to1: real)
    requires from0 < from1
    requires from0 <= v <= from1
    ensures to0 <= to1 ==> to0 <= MapVals(v, from0, from1, to0, to1) <= to1
    ensures to1 <= to0 ==> to1 <= MapVals(v, from0, from1, to0, to1) <= to0
  {
    var t := (v - from0) / (from1 - from0);
    UnitFraction(v - from0, from1 - from0);
    ScaleUnit(to1 - to0, t);
  }

  /** A fraction of a positive whole that is at most the whole lies in [0, 1]. */
  lemma UnitFraction(a: real, w: real)
    requires w > 0.0 && 0.0 <= a <= w
    ensures 0.0 <= a / w <= 1.0
  {
  }

  /** Scaling by a factor in [0, 1] stays between 0 and the scaled value. */
  lemma ScaleUnit(d: real, t: real)
    requires 0.0 <= t <= 1.0
    ensures d >= 0.0 ==> 0.0 <= d * t <= d
    ensures d <= 0.0 ==> d <= d * t <= 0.0
  {
    assert d - d * t == d * (1.0 - t);
  }

  /** With an increasing target range the remap is monotone on the source range. */
  lemma MapValsMonotone(v1: real, v2: real, from0: real, from1: real, to0: real, to1: real)
    requires from0 < from1 && to0 <= to1
    requires v1 <= v2
    ensures MapVals(v1, from0, from1, to0, to1) <= MapVals(v2, from0, from1, to0, to1)
  {
    var t1 := (v1 - from0) / (from1 - from0);
    var t2 := (v2 - from0) / (from1 - from0);
    assert t1 <= t2;
    assert (to1 - to0) * t1 <= (to1 - to0) * t2;
  }
}
