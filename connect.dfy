/** The connection engine `drawPaths`: enumerate candidate index pairs of two point
    lists, keep those whose distance lies strictly inside the length band, and give
    each kept pair a line whose stroke width is remapped from its distance. */
module Connect {
  import opened Geometry
  import opened Config
  import opened RangeMap

  /** A candidate pair: index `i` into the first list, `j` into the second. */
  datatype Pair = Pair(i: nat, j: nat)

  /** One `Path.Line` the engine creates; `opacity` is `None` when the script leaves it unset. */
  datatype LineRec = Line(from: Point, to: Point, strokeWidth: real, opacity: Option<real>)

  /** The single `Group` one call of the engine creates around its lines. */
  datatype GroupRec = Group(children: seq<LineRec>, opacity: Option<real>)

  /** Row `i` of the candidate pairs restricted to the columns `j0 .. j-1`, in column order. */
  function Row(i: nat, j0: nat, j: nat): seq<Pair>
    decreases j
  {
    if j <= j0 then [] else Row(i, j0, j - 1) + [Pair(i, j - 1)]
  }

  /** Row `i` from `j0` up to `j` holds the pairs `(i, j0)`, `(i, j0 + 1)`, ..., `(i, j - 1)`. */
  lemma {:induction false} RowSpec(i: nat, j0: nat, j: nat)
    ensures |Row(i, j0, j)| == if j <= j0 then 0 else j - j0
    ensures forall k :: 0 <= k < |Row(i, j0, j)| ==> Row(i, j0, j)[k] == Pair(i, j0 + k)
    decreases j
  {
    if j > j0 {
      RowSpec(i, j0, j - 1);
    }
  }

  /** The first column the inner loop visits in row `i`. */
  function FirstColumn(i: nat, self: bool): nat {
    if self then i + 1 else 0
  }

  /** A pair the engine must examine: in range, and above the diagonal in self mode. */
  predicate Examined(p: Pair, n1: nat, n2: nat, self: bool) {
    p.i < n1 && p.j < n2 && (self ==> p.i < p.j)
  }

  /** The candidate pairs of the first `n1` rows, in the order the nested loops visit them. */
  function Candidates(n1: nat, n2: nat, self: bool): seq<Pair> {
    if n1 == 0 then []
    else Candidates(n1 - 1, n2, self) + Row(n1 - 1, FirstColumn(n1 - 1, self), n2)
  }

  /** Strict i-major (lexicographic) order on pairs. */
  predicate Before(p: Pair, q: Pair) {
    p.i < q.i || (p.i == q.i && p.j < q.j)
  }

  /** Every pair comes strictly before all later ones, so none occurs twice. */
  predicate Increasing(ps: seq<Pair>) {
    forall k1, k2 :: 0 <= k1 < k2 < |ps| ==> Before(ps[k1], ps[k2])
  }

  /** The enumeration examines exactly the pairs `Examined` names, each once, in
      i-major order; outside self mode that is all `n1 * n2` ordered pairs. */
  lemma {:induction false} CandidatesSpec(n1: nat, n2: nat, self: bool)
    ensures forall p :: p in Candidates(n1, n2, self) <==> Examined(p, n1, n2, self)
    ensures Increasing(Candidates(n1, n2, self))
    ensures !self ==> |Candidates(n1, n2, self)| == n1 * n2
  {
    if n1 > 0 {
      CandidatesSpec(n1 - 1, n2, self);
      var c := Candidates(n1 - 1, n2, self);
      var f := FirstColumn(n1 - 1, self);
      var row := Row(n1 - 1, f, n2);
      RowSpec(n1 - 1, f, n2);
      assert Candidates(n1, n2, self) == c + row;
      forall p | Examined(p, n1, n2, self) ensures p in c + row {
        if p.i < n1 - 1 {
          assert p in c;
        } else {
          assert row[p.j - f] == p;
        }
      }
      forall k1, k2 | 0 <= k1 < k2 < |c + row| ensures Before((c + row)[k1], (c + row)[k2]) {
        if k1 < |c| && k2 >= |c| {
          assert c[k1] in c;
        }
      }
      if !self {
        assert |c + row| == (n1 - 1) * n2 + n2;
      }
    }
  }

  /** The strict band test of the engine. */
  predicate InBand(d: real, s: Settings) {
    s.minLength < d < s.maxLength
  }

  /** The pair is in range and the distance of its points passes the band test. */
  predicate Accepted(A: seq<Point>, B: seq<Point>, s: Settings, dist: Distance, c: Pair) {
    c.i < |A| && c.j < |B| && InBand(dist(A[c.i], B[c.j]), s)
  }

  /** Every pair of `ps` is accepted. */
  predicate AllAccepted(A: seq<Point>, B: seq<Point>, ps: seq<Pair>, s: Settings, dist: Distance) {
    forall k :: 0 <= k < |ps| ==> Accepted(A, B, s, dist, ps[k])
  }

  /** The pairs of `cs` that pass the band test, in their order in `cs`. */
  function Kept(A: seq<Point>, B: seq<Point>, cs: seq<Pair>, s: Settings, dist: Distance): seq<Pair> {
    if cs == [] then []
    else
      var c := cs[|cs| - 1];
      Kept(A, B, cs[..|cs| - 1], s, dist) + (if Accepted(A, B, s, dist, c) then [c] else [])
  }

  /** Opacity given to each line: unset in "Group" mode, the setting otherwise. */
  function LineOpacity(s: Settings): Option<real> {
    if GroupOpacity(s) then None else Some(s.opacity)
  }

  /** Opacity given to the group: the setting in "Group" mode, unset otherwise. */
  function GroupOpacityOf(s: Settings): Option<real> {
    if GroupOpacity(s) then Some(s.opacity) else None
  }

  /** The line drawn between two points at an accepted distance; the band test
      guarantees `minLength < maxLength`, so the remap never divides by zero. */
  function LineOf(p: Point, q: Point, s: Settings, dist: Distance): LineRec
    requires InBand(dist(p, q), s)
  {
    Line(p, q, MapVals(dist(p, q), s.minLength, s.maxLength, s.minStroke, s.maxStroke), LineOpacity(s))
  }

  /** The lines drawn for the candidates `cs`: one for each accepted pair, in candidate order. */
  function Lines(A: seq<Point>, B: seq<Point>, cs: seq<Pair>, s: Settings, dist: Distance): seq<LineRec> {
    if cs == [] then []
    else
      var c := cs[|cs| - 1];
      Lines(A, B, cs[..|cs| - 1], s, dist)
        + (if Accepted(A, B, s, dist, c) then [LineOf(A[c.i], B[c.j], s, dist)] else [])
  }

  /** The pairs one call connects. */
  function Connected(A: seq<Point>, B: seq<Point>, self: bool, s: Settings, dist: Distance): seq<Pair> {
    Kept(A, B, Candidates(|A|, |B|, self), s, dist)
  }

  /** The group one call of the engine creates. */
  function Drawing(A: seq<Point>, B: seq<Point>, self: bool, s: Settings, dist: Distance): GroupRec {
    Group(Lines(A, B, Candidates(|A|, |B|, self), s, dist), GroupOpacityOf(s))
  }

  /** A pair is kept exactly when it is a candidate and passes the band test. */
  lemma {:induction false} KeptMember(A: seq<Point>, B: seq<Point>, cs: seq<Pair>, s: Settings, dist: Distance)
    ensures forall p :: p in Kept(A, B, cs, s, dist) <==> p in cs && Accepted(A, B, s, dist, p)
  {
    if cs != [] {
      var init := cs[..|cs| - 1];
      KeptMember(A, B, init, s, dist);
      assert cs == init + [cs[|cs| - 1]];
    }
  }

  /** Filtering keeps the order of the candidates. */
  lemma {:induction false} KeptIncreasing(A: seq<Point>, B: seq<Point>, cs: seq<Pair>, s: Settings, dist: Distance)
    requires Increasing(cs)
    ensures Increasing(Kept(A, B, cs, s, dist))
  {
    if cs != [] {
      var init := cs[..|cs| - 1];
      var c := cs[|cs| - 1];
      KeptIncreasing(A, B, init, s, dist);
      KeptMember(A, B, init, s, dist);
      var ki := Kept(A, B, init, s, dist);
      forall k | 0 <= k < |ki| ensures Before(ki[k], c) {
        assert ki[k] in init;
        var m :| 0 <= m < |init| && init[m] == ki[k];
        assert cs[m] == ki[k];
      }
    }
  }

  /** The lines are exactly those of the kept pairs: one per kept pair, in the same order. */
  lemma {:induction false} LinesOfKept(A: seq<Point>, B: seq<Point>, cs: seq<Pair>, s: Settings, dist: Distance)
    ensures AllAccepted(A, B, Kept(A, B, cs, s, dist), s, dist)
    ensures |Lines(A, B, cs, s, dist)| == |Kept(A, B, cs, s, dist)|
    ensures forall k :: 0 <= k < |Kept(A, B, cs, s, dist)| ==>
      var p := Kept(A, B, cs, s, dist)[k];
      Lines(A, B, cs, s, dist)[k] == LineOf(A[p.i], B[p.j], s, dist)
  {
    if cs != [] {
      LinesOfKept(A, B, cs[..|cs| - 1], s, dist);
    }
  }

  /** A pair of indices is connected exactly when the loops examine it and its
      distance lies strictly inside `(minLength, maxLength)`; the connected pairs
      come in i-major order, so none is connected twice; and the group holds one
      line per connected pair, in that order. */
  lemma ConnectedSpec(A: seq<Point>, B: seq<Point>, self: bool, s: Settings, dist: Distance)
    ensures forall p :: p in Connected(A, B, self, s, dist) <==>
      Examined(p, |A|, |B|, self) && InBand(dist(A[p.i], B[p.j]), s)
    ensures Increasing(Connected(A, B, self, s, dist))
    ensures AllAccepted(A, B, Connected(A, B, self, s, dist), s, dist)
    ensures var ps := Connected(A, B, self, s, dist);
      var ls := Drawing(A, B, self, s, dist).children;
      |ls| == |ps| && forall k :: 0 <= k < |ps| ==> ls[k] == LineOf(A[ps[k].i], B[ps[k].j], s, dist)
  {
    var cs := Candidates(|A|, |B|, self);
    CandidatesSpec(|A|, |B|, self);
    KeptMember(A, B, cs, s, dist);
    KeptIncreasing(A, B, cs, s, dist);
    LinesOfKept(A, B, cs, s, dist);
  }

  /** In self mode no point is paired with itself and no unordered pair is
      connected in both orders. */
  lemma SelfModePairs(A: seq<Point>, s: Settings, dist: Distance)
    ensures var ps := Connected(A, A, true, s, dist);
      forall k1, k2 :: 0 <= k1 < |ps| && 0 <= k2 < |ps| ==>
        ps[k1].i < ps[k1].j && ps[k1] != Pair(ps[k2].j, ps[k2].i)
  {
    var ps := Connected(A, A, true, s, dist);
    ConnectedSpec(A, A, true, s, dist);
    forall k | 0 <= k < |ps| ensures ps[k].i < ps[k].j {
      assert ps[k] in ps;
    }
  }

  /** Every line joins two points at a distance inside the band, has the stroke
      width `mapVals` gives that distance, and so lies between the two stroke settings. */
  lemma StrokeWidths(A: seq<Point>, B: seq<Point>, self: bool, s: Settings, dist: Distance)
    ensures forall l :: l in Drawing(A, B, self, s, dist).children ==>
      && InBand(dist(l.from, l.to), s)
      && l.strokeWidth == MapVals(dist(l.from, l.to), s.minLength, s.maxLength, s.minStroke, s.maxStroke)
      && (s.minStroke <= s.maxStroke ==> s.minStroke <= l.strokeWidth <= s.maxStroke)
      && (s.maxStroke <= s.minStroke ==> s.maxStroke <= l.strokeWidth <= s.minStroke)
  {
    var ls := Drawing(A, B, self, s, dist).children;
    var ps := Connected(A, B, self, s, dist);
    ConnectedSpec(A, B, self, s, dist);
    forall l | l in ls
      ensures InBand(dist(l.from, l.to), s)
      ensures l.strokeWidth == MapVals(dist(l.from, l.to), s.minLength, s.maxLength, s.minStroke, s.maxStroke)
      ensures s.minStroke <= s.maxStroke ==> s.minStroke <= l.strokeWidth <= s.maxStroke
      ensures s.maxStroke <= s.minStroke ==> s.maxStroke <= l.strokeWidth <= s.minStroke
    {
      var k :| 0 <= k < |ls| && ls[k] == l;
      assert l == LineOf(A[ps[k].i], B[ps[k].j], s, dist);
      MapValsBetween(dist(l.from, l.to), s.minLength, s.maxLength, s.minStroke, s.maxStroke);
    }
  }

  /** In "Group" mode the group carries the opacity and no line does; in any
      other mode every line carries it and the group's is left unset. */
  lemma OpacityScope(A: seq<Point>, B: seq<Point>, self: bool, s: Settings, dist: Distance)
    ensures var g := Drawing(A, B, self, s, dist);
      && (s.opctyGrp == "Group" ==> g.opacity == Some(s.opacity) && forall l :: l in g.children ==> l.opacity == None)
      && (s.opctyGrp != "Group" ==> g.opacity == None && forall l :: l in g.children ==> l.opacity == Some(s.opacity))
  {
    var ls := Drawing(A, B, self, s, dist).children;
    var ps := Connected(A, B, self, s, dist);
    ConnectedSpec(A, B, self, s, dist);
    forall l | l in ls ensures l.opacity == LineOpacity(s) {
      var k :| 0 <= k < |ls| && ls[k] == l;
      assert l == LineOf(A[ps[k].i], B[ps[k].j], s, dist);
    }
  }

  /** With a non-negative minimum length no line is degenerate: a point is never
      joined to a point equal to it. */
  lemma NoDegenerateLines(A: seq<Point>, B: seq<Point>, self: bool, s: Settings, dist: Distance)
    requires IsDistance(dist)
    requires s.minLength >= 0.0
    ensures forall l :: l in Drawing(A, B, self, s, dist).children ==> l.from != l.to
  {
    StrokeWidths(A, B, self, s, dist);
  }

  /** One more candidate adds its line at the end exactly when it passes the band test. */
  lemma LinesSnoc(A: seq<Point>, B: seq<Point>, cs: seq<Pair>, c: Pair, s: Settings, dist: Distance)
    ensures Lines(A, B, cs + [c], s, dist)
         == Lines(A, B, cs, s, dist) + (if Accepted(A, B, s, dist, c) then [LineOf(A[c.i], B[c.j], s, dist)] else [])
  {
    assert (cs + [c])[..|cs|] == cs;
  }

  /** Examining column `j` of row `i` adds its line exactly when its distance is in the band. */
  lemma RowStep(A: seq<Point>, B: seq<Point>, i: nat, j0: nat, j: nat, s: Settings, dist: Distance)
    requires i < |A| && j0 <= j < |B|
    ensures Lines(A, B, Row(i, j0, j + 1), s, dist)
         == Lines(A, B, Row(i, j0, j), s, dist)
            + (if InBand(dist(A[i], B[j]), s) then [LineOf(A[i], B[j], s, dist)] else [])
  {
    assert Row(i, j0, j + 1) == Row(i, j0, j) + [Pair(i, j)];
    LinesSnoc(A, B, Row(i, j0, j), Pair(i, j), s, dist);
  }

  /** The lines of two runs of candidates are the lines of each run in turn. */
  lemma {:induction false} LinesAppend(A: seq<Point>, B: seq<Point>, cs1: seq<Pair>, cs2: seq<Pair>, s: Settings, dist: Distance)
    ensures Lines(A, B, cs1 + cs2, s, dist) == Lines(A, B, cs1, s, dist) + Lines(A, B, cs2, s, dist)
    decreases |cs2|
  {
    if cs2 == [] {
      assert cs1 + cs2 == cs1;
    } else {
      var init := cs2[..|cs2| - 1];
      var c := cs2[|cs2| - 1];
      assert (cs1 + cs2)[..|cs1 + cs2| - 1] == cs1 + init;
      assert (cs1 + cs2)[|cs1 + cs2| - 1] == c;
      LinesAppend(A, B, cs1, init, s, dist);
    }
  }

  /** The inner loop of the engine: row `i` of `A` against the points of `B` from
      column `j0` on, one line per pair inside the band. */
  method DrawRow(A: seq<Point>, B: seq<Point>, i: nat, j0: nat, s: Settings, dist: Distance) returns (row: seq<LineRec>)
    requires i < |A|
    ensures row == Lines(A, B, Row(i, j0, |B|), s, dist)
  {
    var ogrp := GroupOpacity(s);
    var jl := |B|;
    row := [];
    var j: nat := j0;
    while j < jl
      invariant j0 <= j && (j <= jl || j == j0)
      invariant row == Lines(A, B, Row(i, j0, j), s, dist)
    {
      var d := dist(A[i], B[j]);
      RowStep(A, B, i, j0, j, s, dist);
      if d > s.minLength && d < s.maxLength {
        var line := Line(A[i], B[j], MapVals(d, s.minLength, s.maxLength, s.minStroke, s.maxStroke),
                         if !ogrp then Some(s.opacity) else None);
        assert line == LineOf(A[i], B[j], s, dist);
        row := row + [line];
      }
      j := j + 1;
    }
  }

  /** The engine `drawPaths`: the nested loops over `A` and `B` (only `j > i` in
      self mode) collect one line per pair inside the band, then wrap them in one group. */
  method DrawPaths(A: seq<Point>, B: seq<Point>, self: bool, s: Settings, dist: Distance) returns (g: GroupRec)
    ensures g == Drawing(A, B, self, s, dist)
  {
    var ogrp := GroupOpacity(s);
    var lines: seq<LineRec> := [];
    var il, jl := |A|, |B|;
    var i: nat := 0;
    while i < il
      invariant i <= il
      invariant lines == Lines(A, B, Candidates(i, jl, self), s, dist)
    {
      var j0: nat := if self then i + 1 else 0;
      var row := DrawRow(A, B, i, j0, s, dist);
      LinesAppend(A, B, Candidates(i, jl, self), Row(i, j0, jl), s, dist);
      lines := lines + row;
      i := i + 1;
    }
    g := Group(lines, if ogrp then Some(s.opacity) else None);
  }
}
