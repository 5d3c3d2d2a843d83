/** The script's two entry points and its one piece of state: the pointer
    handler `handleMouse` with the point cache `msch` and its clear button, and
    the batch protocol `handleCross`. */
module Sketchy {
  import opened Geometry
  import opened Config
  import opened Connect
  import opened Divide
  import opened Topology

  /** Every call indexes one of `n` lists. */
  predicate CallsIn(calls: seq<Call>, n: nat) {
    forall k :: 0 <= k < |calls| ==> calls[k].i < n && calls[k].j < n
  }

  /** The groups drawn for a sequence of engine calls over the given lists, in call order. */
  function DrawCalls(lists: seq<seq<Point>>, calls: seq<Call>, s: Settings, dist: Distance): (r: seq<GroupRec>)
    requires CallsIn(calls, |lists|)
    ensures |r| == |calls|
  {
    if calls == [] then []
    else
      var c := calls[|calls| - 1];
      DrawCalls(lists, calls[..|calls| - 1], s, dist) + [Drawing(lists[c.i], lists[c.j], c.self, s, dist)]
  }

  /** One more call draws one more group, at the end. */
  lemma DrawCallsSnoc(lists: seq<seq<Point>>, calls: seq<Call>, c: Call, s: Settings, dist: Distance)
    requires CallsIn(calls, |lists|) && c.i < |lists| && c.j < |lists|
    ensures CallsIn(calls + [c], |lists|)
    ensures DrawCalls(lists, calls + [c], s, dist)
         == DrawCalls(lists, calls, s, dist) + [Drawing(lists[c.i], lists[c.j], c.self, s, dist)]
  {
    assert (calls + [c])[..|calls|] == calls;
  }

  /** The first `i + 1` neighbour calls extend the first `i` by call `i`. */
  lemma RingSnoc(n: nat, i: nat)
    requires i < n
    ensures Ring(n, i + 1) == Ring(n, i) + [Call(i, Succ(n, i), false)]
  {
  }

  /** Drawing list `i` against its successor on the cycle extends the groups of
      the first `i` neighbour calls to those of the first `i + 1`. */
  lemma NeighbourStep(lists: seq<seq<Point>>, i: nat, j: nat, groups: seq<GroupRec>, g: GroupRec, s: Settings, dist: Distance)
    requires i < |lists| && j == Succ(|lists|, i)
    requires groups == DrawCalls(lists, Ring(|lists|, i), s, dist)
    requires g == Drawing(lists[i], lists[j], false, s, dist)
    ensures groups + [g] == DrawCalls(lists, Ring(|lists|, i + 1), s, dist)
  {
    RingSnoc(|lists|, i);
    DrawCallsSnoc(lists, Ring(|lists|, i), Call(i, j, false), s, dist);
  }

  /** The neighbour calls followed by the first `i` self calls index the `n` lists. */
  lemma CrossPrefixIn(n: nat, i: nat)
    requires i <= n
    ensures CallsIn(Ring(n, CrossCount(n)) + Selfs(i), n)
  {
  }

  /** Drawing two runs of calls one after the other draws the groups of each in turn. */
  lemma {:induction false} DrawCallsAppend(lists: seq<seq<Point>>, c1: seq<Call>, c2: seq<Call>, s: Settings, dist: Distance)
    requires CallsIn(c1 + c2, |lists|)
    ensures CallsIn(c1, |lists|) && CallsIn(c2, |lists|)
    ensures DrawCalls(lists, c1 + c2, s, dist) == DrawCalls(lists, c1, s, dist) + DrawCalls(lists, c2, s, dist)
    decreases |c2|
  {
    if c2 == [] {
      assert c1 + c2 == c1;
    } else {
      var init := c2[..|c2| - 1];
      var c := c2[|c2| - 1];
      assert (c1 + c2)[..|c1 + c2| - 1] == c1 + init;
      assert (c1 + c2)[|c1 + c2| - 1] == c;
      assert CallsIn(c1 + init, |lists|) by {
        assert forall k :: 0 <= k < |c1 + init| ==> (c1 + init)[k] == (c1 + c2)[k];
      }
      DrawCallsAppend(lists, c1, init, s, dist);
      assert CallsIn(c2, |lists|) by {
        assert forall k :: 0 <= k < |c2| ==> c2[k] == (c1 + c2)[|c1| + k];
      }
    }
  }

  /** Group `k` is the drawing of call `k`. */
  lemma {:induction false} DrawCallsAt(lists: seq<seq<Point>>, calls: seq<Call>, k: nat, s: Settings, dist: Distance)
    requires CallsIn(calls, |lists|) && k < |calls|
    ensures DrawCalls(lists, calls, s, dist)[k] == Drawing(lists[calls[k].i], lists[calls[k].j], calls[k].self, s, dist)
    decreases |calls|
  {
    var init := calls[..|calls| - 1];
    if k < |init| {
      assert CallsIn(init, |lists|) by {
        assert forall k' :: 0 <= k' < |init| ==> init[k'] == calls[k'];
      }
      DrawCallsAt(lists, init, k, s, dist);
      assert init[k] == calls[k];
    }
  }

  /** The batch protocol's neighbour groups: group `k` draws list `k` against its
      successor on the cycle, for each of the `CrossCount(n)` neighbour calls. */
  lemma NeighbourGroups(lists: seq<seq<Point>>, selfRef: bool, s: Settings, dist: Distance)
    ensures forall k :: 0 <= k < CrossCount(|lists|) ==>
      DrawCalls(lists, CrossCalls(|lists|, selfRef), s, dist)[k]
        == Drawing(lists[k], lists[Succ(|lists|, k)], false, s, dist)
  {
    var n := |lists|;
    var calls := CrossCalls(n, selfRef);
    forall k | 0 <= k < CrossCount(n)
      ensures DrawCalls(lists, calls, s, dist)[k] == Drawing(lists[k], lists[Succ(n, k)], false, s, dist)
    {
      DrawCallsAt(lists, calls, k, s, dist);
      assert calls[k] == Call(k, Succ(n, k), false);
    }
  }

  /** The batch protocol's self groups: with self reference on, the neighbour groups
      are followed by list `k` against itself in self mode, for every `k` in order. */
  lemma SelfGroups(lists: seq<seq<Point>>, s: Settings, dist: Distance)
    ensures forall k :: 0 <= k < |lists| ==>
      DrawCalls(lists, CrossCalls(|lists|, true), s, dist)[CrossCount(|lists|) + k]
        == Drawing(lists[k], lists[k], true, s, dist)
  {
    var n := |lists|;
    var calls := CrossCalls(n, true);
    var m := CrossCount(n);
    forall k | 0 <= k < n
      ensures DrawCalls(lists, calls, s, dist)[m + k] == Drawing(lists[k], lists[k], true, s, dist)
    {
      DrawCallsAt(lists, calls, m + k, s, dist);
      assert calls[m + k] == Call(k, k, true);
    }
  }

  /** The points a pointer event connects to: the samples of the selected paths,
      flattened, followed by the whole cache when caching is on. */
  function MouseTargets(sltd: seq<PathShape>, cache: seq<Point>, s: Settings): seq<Point>
    requires AllSamplable(sltd, s)
  {
    Flatten(SampleAll(sltd, s)) + (if s.logPts then cache else [])
  }

  /** What a pointer event draws: every line starts at the pointer and ends at one
      of the targets; with a non-negative minimum length none ends at a point equal
      to the pointer, so its pairing with its own freshly cached copy is always rejected. */
  lemma PointerLines(mspt: Point, targets: seq<Point>, s: Settings, dist: Distance)
    requires IsDistance(dist)
    requires s.minLength >= 0.0
    ensures forall l :: l in Drawing([mspt], targets, false, s, dist).children ==>
      l.from == mspt && l.to in targets && l.to != mspt
  {
    var ls := Drawing([mspt], targets, false, s, dist).children;
    var ps := Connected([mspt], targets, false, s, dist);
    ConnectedSpec([mspt], targets, false, s, dist);
    NoDegenerateLines([mspt], targets, false, s, dist);
    forall l | l in ls ensures l.from == mspt && l.to in targets {
      var k :| 0 <= k < |ls| && ls[k] == l;
      assert l == LineOf([mspt][ps[k].i], targets[ps[k].j], s, dist);
    }
  }

  /** The script's session: the settings record and the pointer cache. */
  class Session {
    /** The settings record `dvls`, edited by the host's palette. */
    var settings: Settings
    /** The pointer cache `msch`: every cached pointer point, oldest first. */
    var msch: seq<Point>

    /** The state when the script starts: default settings and an empty cache. */
    constructor ()
      ensures settings == Defaults && msch == []
    {
      settings := Defaults;
      msch := [];
    }

    /** The "Empty" button of the point cache. */
    method ClearCache()
      modifies this
      ensures msch == [] && settings == old(settings)
    {
      msch := [];
    }

    /** A pointer press or drag at `mspt` with `sltd` the selected paths: unless
        nothing is selected and caching is off, sample the selection, cache the
        pointer point when caching is on, and connect the pointer against the
        samples and the whole cache. `drawn` is the group drawn, if any. */
    method HandleMouse(sltd: seq<PathShape>, mspt: Point, dist: Distance) returns (drawn: Option<GroupRec>)
      requires AllSamplable(sltd, settings)
      modifies this
      ensures settings == old(settings)
      ensures msch == if settings.logPts then old(msch) + [mspt] else old(msch)
      ensures drawn == if |sltd| > 0 || settings.logPts
        then Some(Drawing([mspt], MouseTargets(sltd, msch, settings), false, settings, dist))
        else None
    {
      drawn := None;
      if |sltd| > 0 || settings.logPts {
        var d := DividePaths(sltd, false, settings);
        var dpts := d.points;
        if settings.logPts {
          msch := msch + [mspt];
          dpts := dpts + msch;
        }
        assert !settings.logPts ==> dpts == dpts + [];
        var g := DrawPaths([mspt], dpts, false, settings, dist);
        drawn := Some(g);
      }
    }

    /** The batch protocol over the selected paths `dpths`: sample each path into
        its own list, connect each list with its neighbour on the cycle (only
        (0, 1) for two paths, nothing for fewer), then, if self reference is on,
        each list with itself. `groups` are the groups drawn, in drawing order. */
    method HandleCross(dpths: seq<PathShape>, dist: Distance) returns (groups: seq<GroupRec>)
      requires AllSamplable(dpths, settings)
      ensures groups == DrawCalls(SampleAll(dpths, settings), CrossCalls(|dpths|, settings.selfRef), settings, dist)
    {
      var dpts: seq<seq<Point>> := [];
      if |dpths| > 0 {
        var d := DividePaths(dpths, true, settings);
        dpts := d.lists;
      }
      assert dpts == SampleAll(dpths, settings);
      var cross := CrossNeighbours(dpts, dist);
      var selves := CrossSelves(dpts, dist);
      groups := cross + selves;
      var il := |dpts|;
      CrossPrefixIn(il, il);
      DrawCallsAppend(dpts, Ring(il, CrossCount(il)), if settings.selfRef then Selfs(il) else [], settings, dist);
    }

    /** The first loop of `handleCross`: list `i` against list `i + 1`, and the last
        against the first unless there are exactly two lists; nothing for fewer than two. */
    method CrossNeighbours(dpts: seq<seq<Point>>, dist: Distance) returns (groups: seq<GroupRec>)
      ensures groups == DrawCalls(dpts, Ring(|dpts|, CrossCount(|dpts|)), settings, dist)
    {
      var s := settings;
      var il := |dpts|;
      groups := [];
      var i: nat := 0;
      if il > 1 {
        while i < il
          invariant i <= CrossCount(il)
          invariant groups == DrawCalls(dpts, Ring(il, i), s, dist)
        {
          var j;
          if i < il - 1 {
            j := i + 1;
          } else if il != 2 {
            j := 0;
          } else {
            break;
          }
          var g := DrawPaths(dpts[i], dpts[j], false, s, dist);
          Successor(il, i);
          NeighbourStep(dpts, i, j, groups, g, s, dist);
          groups := groups + [g];
          i := i + 1;
        }
      }
    }

    /** The second loop of `handleCross`: when self reference is on and there is at
        least one list, each list against itself in self mode. */
    method CrossSelves(dpts: seq<seq<Point>>, dist: Distance) returns (groups: seq<GroupRec>)
      ensures groups == DrawCalls(dpts, if settings.selfRef then Selfs(|dpts|) else [], settings, dist)
    {
      var s := settings;
      var il := |dpts|;
      groups := [];
      if il > 0 && s.selfRef {
        var i: nat := 0;
        assert Selfs(0) == [];
        while i < il
          invariant i <= il
          invariant groups == DrawCalls(dpts, Selfs(i), s, dist)
        {
          var g := DrawPaths(dpts[i], dpts[i], true, s, dist);
          assert groups + [g] == DrawCalls(dpts, Selfs(i + 1), s, dist) by {
            assert Selfs(i + 1) == Selfs(i) + [Call(i, i, true)];
            DrawCallsSnoc(dpts, Selfs(i), Call(i, i, true), s, dist);
          }
          groups := groups + [g];
          i := i + 1;
        }
      } else if il == 0 {
        assert Selfs(0) == [];
      }
    }
  }
}
