/** The sampler `dividePaths`: walk each path at offsets 0, step, 2 step, ...
    up to and including its length and keep the points the host resolves. */
module Divide {
  import opened Geometry
  import opened Config

  /** A host path, reduced to what the sampler uses: its arc length and the point
      at an arc-length offset (`None` where the host resolves no point). */
  datatype PathShape = PathShape(length: real, getPoint: real -> Option<Point>)

  /** The step is usable: in "Number" mode the division is defined. */
  predicate StepDefined(s: Settings) {
    ByLength(s) || s.divNum != 0.0
  }

  /** The step along one path: `divNum` itself in "Length" mode, the path's
      length divided by `divNum` in any other mode. */
  function Step(p: PathShape, s: Settings): (r: real)
    requires StepDefined(s)
    ensures s.divBy == "Length" ==> r == s.divNum
    ensures s.divBy != "Length" ==> r * s.divNum == p.length
  {
    if ByLength(s) then s.divNum else p.length / s.divNum
  }

  /** The sampling loop over this path ends: its step is positive. */
  predicate Samplable(p: PathShape, s: Settings) {
    StepDefined(s) && Step(p, s) > 0.0
  }

  /** With the default settings every path is sampled every 10 units, so the
      sampling loop always ends. */
  lemma DefaultsSamplable(p: PathShape)
    ensures Samplable(p, Defaults) && Step(p, Defaults) == 10.0
  {
    DefaultModes();
  }

  /** Every path of the selection can be sampled. */
  predicate AllSamplable(paths: seq<PathShape>, s: Settings) {
    forall i :: 0 <= i < |paths| ==> Samplable(paths[i], s)
  }

  /** The k-th offset the sampler visits. */
  function Offset(step: real, k: nat): real {
    k as real * step
  }

  /** How many offsets the sampler visits on a path of the given length. */
  function SampleCount(length: real, step: real): nat
    requires step > 0.0
  {
    if length < 0.0 then 0
    else
      assert length / step >= 0.0;
      (length / step).Floor + 1
  }

  /** The loop visits offset `k * step` exactly when it does not exceed the length,
      so the visited offsets are the first `SampleCount` multiples of the step. */
  lemma SampleCountSpec(length: real, step: real, k: nat)
    requires step > 0.0
    ensures k < SampleCount(length, step) <==> Offset(step, k) <= length
  {
    var kr := k as real;
    if length >= 0.0 {
      var q := length / step;
      assert q >= 0.0;
      assert k <= q.Floor <==> kr <= q by {
        FloorBound(q, k);
      }
      assert kr <= q <==> kr * step <= length by {
        ScaleQuotient(length, step, kr);
      }
    } else {
      assert Offset(step, k) >= 0.0;
    }
  }

  /** An integer is at most a real's floor exactly when it is at most the real. */
  lemma FloorBound(q: real, k: int)
    ensures k <= q.Floor <==> k as real <= q
  {
    assert q.Floor as real <= q < q.Floor as real + 1.0;
  }

  /** Comparing with a quotient is comparing the product with the dividend. */
  lemma ScaleQuotient(length: real, step: real, x: real)
    requires step > 0.0
    ensures x <= length / step <==> x * step <= length
  {
    var q := length / step;
    assert q * step == length;
    assert x * step - q * step == (x - q) * step;
    if x <= q {
      assert (q - x) * step >= 0.0;
    } else {
      assert (x - q) * step > 0.0;
    }
  }

  /** The point resolved at one offset, as a list of zero or one points. */
  function Resolved(o: Option<Point>): seq<Point> {
    if o.Some? then [o.value] else []
  }

  /** The points resolved at the first `n` offsets, in offset order. */
  function SamplesUpTo(p: PathShape, step: real, n: nat): seq<Point> {
    if n == 0 then []
    else SamplesUpTo(p, step, n - 1) + Resolved(p.getPoint(Offset(step, n - 1)))
  }

  /** The points sampled from one path. */
  function Samples(p: PathShape, step: real): seq<Point>
    requires step > 0.0
  {
    SamplesUpTo(p, step, SampleCount(p.length, step))
  }

  /** A point is among the first `n` samples exactly when the host resolves it at
      one of the first `n` offsets; there are at most `n` of them. */
  lemma {:induction false} SamplesUpToSpec(p: PathShape, step: real, n: nat)
    ensures |SamplesUpTo(p, step, n)| <= n
    ensures forall x :: x in SamplesUpTo(p, step, n) <==>
      exists k: nat :: k < n && p.getPoint(Offset(step, k)) == Some(x)
  {
    if n > 0 {
      SamplesUpToSpec(p, step, n - 1);
      forall x | (exists k: nat :: k < n && p.getPoint(Offset(step, k)) == Some(x))
        ensures x in SamplesUpTo(p, step, n)
      {
        var k: nat :| k < n && p.getPoint(Offset(step, k)) == Some(x);
        if k < n - 1 {
          assert x in SamplesUpTo(p, step, n - 1);
        }
      }
    }
  }

  /** The samples of a path are the points the host resolves at offsets
      `k * step <= length`, and skipped offsets only make the list shorter. */
  lemma SamplesSpec(p: PathShape, step: real)
    requires step > 0.0
    ensures |Samples(p, step)| <= SampleCount(p.length, step)
    ensures forall x :: x in Samples(p, step) <==>
      exists k: nat :: Offset(step, k) <= p.length && p.getPoint(Offset(step, k)) == Some(x)
  {
    var n := SampleCount(p.length, step);
    SamplesUpToSpec(p, step, n);
    forall k: nat ensures k < n <==> Offset(step, k) <= p.length {
      SampleCountSpec(p.length, step, k);
    }
  }

  /** On a path of non-negative length the first offset is 0: the first sample is
      the path's start point whenever the host resolves one there. */
  lemma FirstSample(p: PathShape, step: real)
    requires step > 0.0 && p.length >= 0.0
    requires p.getPoint(0.0).Some?
    ensures |Samples(p, step)| > 0 && Samples(p, step)[0] == p.getPoint(0.0).value
  {
    var n := SampleCount(p.length, step);
    assert n >= 1;
    FirstSampleUpTo(p, step, n);
  }

  /** Helper for `FirstSample`: the first resolved point stays first as more offsets are visited. */
  lemma {:induction false} FirstSampleUpTo(p: PathShape, step: real, n: nat)
    requires n >= 1 && p.getPoint(0.0).Some?
    ensures |SamplesUpTo(p, step, n)| > 0 && SamplesUpTo(p, step, n)[0] == p.getPoint(0.0).value
  {
    if n > 1 {
      FirstSampleUpTo(p, step, n - 1);
    } else {
      assert Offset(step, 0) == 0.0;
    }
  }

  /** In "Number" mode with `divNum = N` on a path of positive length the sampler
      visits exactly the N + 1 offsets `k * length / N` for k = 0 .. N, the last one
      being the end of the path, so it yields at most N + 1 points. */
  lemma NumberModeCount(p: PathShape, s: Settings, N: nat)
    requires !ByLength(s) && N > 0 && s.divNum == N as real
    requires p.length > 0.0
    ensures Samplable(p, s)
    ensures SampleCount(p.length, Step(p, s)) == N + 1
    ensures Offset(Step(p, s), N) == p.length
    ensures |Samples(p, Step(p, s))| <= N + 1
  {
    var step := Step(p, s);
    assert step == p.length / (N as real);
    assert step * (N as real) == p.length;
    assert step > 0.0;
    assert p.length / step == N as real;
    SamplesSpec(p, step);
  }

  /** The sampling loop of one path: from offset 0, while the offset does not exceed
      the length, keep the resolved point and advance by the step. */
  method SamplePath(cpth: PathShape, dvln: real) returns (ppts: seq<Point>)
    requires dvln > 0.0
    ensures ppts == Samples(cpth, dvln)
  {
    var pthl := cpth.length;
    var evll := 0.0;
    ghost var k: nat := 0;
    ppts := [];
    while evll <= pthl
      invariant evll == Offset(dvln, k)
      invariant k <= SampleCount(pthl, dvln)
      invariant ppts == SamplesUpTo(cpth, dvln, k)
      decreases SampleCount(pthl, dvln) - k
    {
      SampleCountSpec(pthl, dvln, k);
      var nwpt := cpth.getPoint(evll);
      if nwpt.Some? {
        ppts := ppts + [nwpt.value];
      }
      evll := evll + dvln;
      k := k + 1;
    }
    SampleCountSpec(pthl, dvln, k);
  }

  /** The per-path sample lists of a selection, in path order. */
  function SampleAll(paths: seq<PathShape>, s: Settings): (r: seq<seq<Point>>)
    requires AllSamplable(paths, s)
    ensures |r| == |paths|
  {
    if paths == [] then []
    else
      var last := paths[|paths| - 1];
      SampleAll(paths[..|paths| - 1], s) + [Samples(last, Step(last, s))]
  }

  /** There is one sample list per path, the i-th being the samples of path i. */
  lemma {:induction false} SampleAllSpec(paths: seq<PathShape>, s: Settings)
    requires AllSamplable(paths, s)
    ensures forall i :: 0 <= i < |paths| ==> SampleAll(paths, s)[i] == Samples(paths[i], Step(paths[i], s))
  {
    if paths != [] {
      SampleAllSpec(paths[..|paths| - 1], s);
    }
  }

  /** The concatenation of a sequence of point lists, in list order. */
  function Flatten(ls: seq<seq<Point>>): seq<Point> {
    if ls == [] then [] else Flatten(ls[..|ls| - 1]) + ls[|ls| - 1]
  }

  /** Flattening distributes over concatenation of list sequences. */
  lemma {:induction false} FlattenAppend(ls1: seq<seq<Point>>, ls2: seq<seq<Point>>)
    ensures Flatten(ls1 + ls2) == Flatten(ls1) + Flatten(ls2)
    decreases |ls2|
  {
    if ls2 == [] {
      assert ls1 + ls2 == ls1;
    } else {
      var init := ls2[..|ls2| - 1];
      FlattenAppend(ls1, init);
      assert (ls1 + ls2)[..|ls1 + ls2| - 1] == ls1 + init;
      assert (ls1 + ls2)[|ls1 + ls2| - 1] == ls2[|ls2| - 1];
    }
  }

  /** A point is in the flattened list exactly when it is in one of the lists. */
  lemma {:induction false} FlattenMember(ls: seq<seq<Point>>)
    ensures forall x :: x in Flatten(ls) <==> exists i :: 0 <= i < |ls| && x in ls[i]
  {
    if ls != [] {
      var init := ls[..|ls| - 1];
      FlattenMember(init);
      forall x | (exists i :: 0 <= i < |ls| && x in ls[i]) ensures x in Flatten(ls) {
        var i :| 0 <= i < |ls| && x in ls[i];
        if i < |ls| - 1 {
          assert x in init[i];
        }
      }
    }
  }

  /** The two result shapes of `dividePaths`: one list per path, or one list of all points. */
  datatype Division = Wrapped(lists: seq<seq<Point>>) | Flat(points: seq<Point>)

  /** The result shape for `wrap` holding the given per-path lists. */
  function Shape(wrap: bool, lists: seq<seq<Point>>): Division {
    if wrap then Wrapped(lists) else Flat(Flatten(lists))
  }

  /** The sampler `dividePaths`: per path compute the step, sample it, and either
      push the path's list (`wrap`) or concatenate it onto the result. */
  method DividePaths(paths: seq<PathShape>, wrap: bool, s: Settings) returns (npts: Division)
    requires AllSamplable(paths, s)
    ensures wrap ==> npts == Wrapped(SampleAll(paths, s))
    ensures !wrap ==> npts == Flat(Flatten(SampleAll(paths, s)))
  {
    var dvtp := ByLength(s);
    npts := if wrap then Wrapped([]) else Flat([]);
    var i := 0;
    while i < |paths|
      invariant 0 <= i <= |paths|
      invariant npts == Shape(wrap, SampleAll(paths[..i], s))
    {
      var cpth := paths[i];
      var dvln := if dvtp then s.divNum else cpth.length / s.divNum;
      var ppts := SamplePath(cpth, dvln);
      assert paths[..i + 1][..i] == paths[..i];
      assert SampleAll(paths[..i + 1], s) == SampleAll(paths[..i], s) + [ppts];
      if wrap {
        npts := Wrapped(npts.lists + [ppts]);
      } else {
        FlattenAppend(SampleAll(paths[..i], s), [ppts]);
        npts := Flat(npts.points + ppts);
      }
      i := i + 1;
    }
    assert paths[..i] == paths;
  }
}
