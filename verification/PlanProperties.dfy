/** What every plan promises: it exists exactly for acyclic graphs, layers them by
    longest path, and depends only on the graph. */
module PlanProperties {
  import opened Wrappers
  import opened Sequences
  import opened Graphs
  import opened Sorting
  import opened Plan

  ghost predicate TargetsKnown(ids: seq<Id>, edges: seq<Arc>) {
    forall e :: e in edges ==> e.to in ids
  }

  lemma NodesAreIds(ids: seq<Id>, edges: seq<Arc>)
    requires TargetsKnown(ids, edges)
    ensures Nodes(ids, edges) == Elems(ids)
  {
    forall e | e in edges ensures e.to in Elems(ids) {}
  }

  lemma {:induction false} RepeatedIdsShrink(ids: seq<Id>)
    ensures |Elems(ids)| <= |ids|
    ensures |Elems(ids)| == |ids| <==> Distinct(ids)
  {
    if ids != [] {
      var front, last := ids[..|ids| - 1], ids[|ids| - 1];
      assert ids == front + [last];
      RepeatedIdsShrink(front);
      assert Elems(ids) == Elems(front) + {last};
      if last in front {
        var i :| 0 <= i < |front| && front[i] == last;
        assert ids[i] == ids[|ids| - 1];
      }
    }
  }

  /** With closed edges, `topoPlan` returns exactly when the ids are distinct and the graph has no cycle. */
  lemma PlansExactlyAcyclicGraphs(ids: seq<Id>, edges: seq<Arc>, r: Result<ExecutionPlan, PlanError>)
    requires SourcesKnown(ids, edges) && TargetsKnown(ids, edges)
    requires PlanOutcome(ids, edges, r)
    ensures r.Ok? <==> Distinct(ids) && Acyclic(ArcSet(edges))
    ensures !r.Ok? ==> r == Err(Cycle)
  {
    var E, V := ArcSet(edges), Nodes(ids, edges);
    NodesAreIds(ids, edges);
    AcyclicIffBounded(E, V);
    RepeatedIdsShrink(ids);
    var S := Settled(E, V);
    SubsetSize(S, V);
    if Acyclic(E) {
      assert S == V;
    }
    if r.Ok? {
      assert S == V;
      forall n | n in V ensures exists k: nat :: !WalkEndsAt(E, n, k) {
        assert n in S;
      }
    }
  }

  lemma {:induction false} SubsetSize(S: set<Id>, V: set<Id>)
    requires S <= V
    ensures |S| <= |V|
    ensures |S| == |V| ==> S == V
  {
    assert V == S + (V - S);
  }

  /** A plan is of an acyclic graph exactly when the ids and the targets of edges are, together, as many
      as the ids: otherwise a cycle was hidden by a target that is no id. */
  lemma PlannedAcyclicIff(ids: seq<Id>, edges: seq<Arc>, r: Result<ExecutionPlan, PlanError>)
    requires SourcesKnown(ids, edges) && PlanOutcome(ids, edges, r) && r.Ok?
    ensures Acyclic(ArcSet(edges)) <==> |Nodes(ids, edges)| == |ids|
  {
    var E, V := ArcSet(edges), Nodes(ids, edges);
    AcyclicIffBounded(E, V);
    var S := Settled(E, V);
    SubsetSize(S, V);
    assert S == V <==> forall n :: n in V ==> n in S;
  }

  /** The target of an edge need not be an id: it is then planned too and counted, which can hide a cycle. */
  lemma UnknownTargetHidesCycle()
    ensures var ids, edges := ["a", "b"], [Arc("a", "x"), Arc("b", "b")];
      && !Acyclic(ArcSet(edges))
      && forall r :: PlanOutcome(ids, edges, r) ==> r.Ok? && "x" in r.value.order
  {
    var ids, edges := ["a", "b"], [Arc("a", "x"), Arc("b", "b")];
    var E, V := ArcSet(edges), Nodes(ids, edges);
    assert edges[0] in edges && edges[1] in edges;
    assert E == {Arc("a", "x"), Arc("b", "b")};
    assert edges[0].to in V && edges[1].to in V && ids[0] in V && ids[1] in V;
    assert V == {"a", "b", "x"};
    var a, b, x := "a", "b", "x";
    assert a[0] != x[0] && a[0] != b[0] && b[0] != x[0];
    SettledBesideLoop(E, V, a, b, x);
    forall r | PlanOutcome(ids, edges, r) ensures r.Ok? && "x" in r.value.order {
      assert |Settled(E, V)| == |ids|;
      PlanOrderMembers(E, Settled(E, V), r.value);
    }
  }

  lemma SettledBesideLoop(E: set<Arc>, V: set<Id>, a: Id, b: Id, x: Id)
    requires a != b && b != x && a != x && V == {a, b, x} && E == {Arc(a, x), Arc(b, b)}
    ensures Settled(E, V) == {a, x} && !Acyclic(E)
  {
    assert ClosedWalk(E, [b, b]);
    StepBack(E, a, 0);
    assert !WalkEndsAt(E, a, 1);
    StepBack(E, x, 1);
    assert !WalkEndsAt(E, x, 2);
    assert HasPredecessorIn(E, {b}, b);
    forall k: nat ensures WalkEndsAt(E, b, k) { BackClosedWalks(E, {b}, b, k); }
    var S := Settled(E, V);
    assert a in S && x in S && b !in S;
  }

  // ---- the layers ----

  lemma {:induction false} FlattenMembers(waves: seq<seq<Id>>, n: Id)
    ensures n in Flatten(waves) <==> exists i :: 0 <= i < |waves| && n in waves[i]
  {
    if waves != [] {
      FlattenMembers(waves[..|waves| - 1], n);
      assert n in waves[|waves| - 1] ==> exists i :: 0 <= i < |waves| && n in waves[i];
    }
  }

  lemma PlanOrderMembers(E: set<Arc>, V: set<Id>, plan: ExecutionPlan)
    requires IsPlan(E, V, plan)
    ensures forall n :: n in plan.order <==> n in V
  {
    forall n ensures n in plan.order <==> n in V {
      FlattenMembers(plan.waves, n);
      if n in V {
        assert LevelBelow(E, n, |plan.waves|);
        var i :| 0 <= i < |plan.waves| && Level(E, n, i);
        assert IsWave(E, V, plan.waves[i], i);
      }
      if i :| 0 <= i < |plan.waves| && n in plan.waves[i] {
        assert IsWave(E, V, plan.waves[i], i);
      }
    }
  }

  lemma DistinctConcat(s: seq<Id>, t: seq<Id>)
    requires Distinct(s) && Distinct(t) && forall n :: n in s ==> n !in t
    ensures Distinct(s + t)
  {
    var u := s + t;
    forall i, j | 0 <= i < j < |u| ensures u[i] != u[j] {
      if i < |s| <= j {
        assert u[i] in s && u[j] in t;
      }
    }
  }

  lemma {:induction false} WavesDistinct(E: set<Arc>, V: set<Id>, waves: seq<seq<Id>>)
    requires AreWaves(E, V, waves)
    ensures Distinct(Flatten(waves))
  {
    if waves != [] {
      var front, last := waves[..|waves| - 1], waves[|waves| - 1];
      assert AreWaves(E, V, front) by {
        forall i | 0 <= i < |front| ensures IsWave(E, V, front[i], i) { assert front[i] == waves[i]; }
      }
      WavesDistinct(E, V, front);
      assert IsWave(E, V, last, |front|);
      SortedIsDistinct(last);
      forall n | n in Flatten(front) ensures n !in last {
        FlattenMembers(front, n);
        var i :| 0 <= i < |front| && n in front[i];
        assert IsWave(E, V, front[i], i);
        LevelIsLongest(E, n, i, |front|);
      }
      DistinctConcat(Flatten(front), last);
    }
  }

  lemma {:induction false} SamePermutation(s: seq<Id>, t: seq<Id>)
    requires Distinct(s) && Distinct(t) && forall n :: n in s <==> n in t
    ensures multiset(s) == multiset(t)
  {
    forall n ensures multiset(s)[n] == multiset(t)[n] {
      DistinctCount(s, n);
      DistinctCount(t, n);
    }
  }

  lemma {:induction false} DistinctCount(s: seq<Id>, n: Id)
    requires Distinct(s)
    ensures multiset(s)[n] == if n in s then 1 else 0
  {
    if s != [] {
      assert s == s[..|s| - 1] + [s[|s| - 1]];
      DistinctCount(s[..|s| - 1], n);
    }
  }

  lemma PlannedNodes(ids: seq<Id>, edges: seq<Arc>, r: Result<ExecutionPlan, PlanError>)
    requires SourcesKnown(ids, edges) && TargetsKnown(ids, edges)
    requires PlanOutcome(ids, edges, r) && r.Ok?
    ensures Distinct(ids) && IsPlan(ArcSet(edges), Elems(ids), r.value)
  {
    NodesAreIds(ids, edges);
    PlansExactlyAcyclicGraphs(ids, edges, r);
    RepeatedIdsShrink(ids);
    SubsetSize(Settled(ArcSet(edges), Nodes(ids, edges)), Elems(ids));
  }

  /** The order lists every id once, wave after wave. */
  lemma OrderIsPermutation(ids: seq<Id>, edges: seq<Arc>, r: Result<ExecutionPlan, PlanError>)
    requires SourcesKnown(ids, edges) && TargetsKnown(ids, edges)
    requires PlanOutcome(ids, edges, r) && r.Ok?
    ensures multiset(r.value.order) == multiset(ids)
    ensures r.value.order == Flatten(r.value.waves)
  {
    PlannedNodes(ids, edges, r);
    PlanOrderMembers(ArcSet(edges), Elems(ids), r.value);
    WavesDistinct(ArcSet(edges), Elems(ids), r.value.waves);
    SamePermutation(r.value.order, ids);
  }

  /** A node is in wave `i` exactly when the longest path ending at it has `i` edges. */
  lemma WaveIsLongestPath(ids: seq<Id>, edges: seq<Arc>, r: Result<ExecutionPlan, PlanError>, n: Id, i: nat)
    requires SourcesKnown(ids, edges) && TargetsKnown(ids, edges)
    requires PlanOutcome(ids, edges, r) && r.Ok? && n in ids
    ensures i < |r.value.waves| && n in r.value.waves[i] <==>
      WalkEndsAt(ArcSet(edges), n, i) && forall k :: k > i ==> !WalkEndsAt(ArcSet(edges), n, k)
  {
    var E, plan := ArcSet(edges), r.value;
    PlannedNodes(ids, edges, r);
    assert LevelBelow(E, n, |plan.waves|);
    var j :| 0 <= j < |plan.waves| && Level(E, n, j);
    assert IsWave(E, Elems(ids), plan.waves[j], j);
    forall k: nat ensures WalkEndsAt(E, n, k) <==> k <= j { LevelIsLongest(E, n, j, k); }
    if i < |plan.waves| {
      assert IsWave(E, Elems(ids), plan.waves[i], i);
    }
  }

  /** A path with an edge leads to a strictly later wave, so members of one wave are independent. */
  lemma PathsLeadToLaterWaves(ids: seq<Id>, edges: seq<Arc>, r: Result<ExecutionPlan, PlanError>,
                              w: seq<Id>, i: nat, j: nat)
    requires SourcesKnown(ids, edges) && TargetsKnown(ids, edges)
    requires PlanOutcome(ids, edges, r) && r.Ok?
    requires IsWalk(ArcSet(edges), w) && |w| > 1
    requires i < |r.value.waves| && w[0] in r.value.waves[i]
    requires j < |r.value.waves| && w[|w| - 1] in r.value.waves[j]
    ensures i < j
  {
    PlannedNodes(ids, edges, r);
    assert IsWave(ArcSet(edges), Elems(ids), r.value.waves[i], i);
    assert IsWave(ArcSet(edges), Elems(ids), r.value.waves[j], j);
    LevelRises(ArcSet(edges), w, i, j);
  }

  // ---- the plan is a function of the graph ----

  lemma WaveUnique(E: set<Arc>, V: set<Id>, s: seq<Id>, t: seq<Id>, i: nat)
    requires IsWave(E, V, s, i) && IsWave(E, V, t, i)
    ensures s == t
  {
    SortedUnique(s, t);
  }

  lemma NoLongerPlan(E: set<Arc>, V: set<Id>, p: ExecutionPlan, q: ExecutionPlan)
    requires IsPlan(E, V, p) && IsPlan(E, V, q)
    ensures |q.waves| <= |p.waves|
  {
    if |q.waves| > |p.waves| {
      var i := |p.waves|;
      assert IsWave(E, V, q.waves[i], i);
      var n := q.waves[i][0];
      assert n in q.waves[i];
      assert LevelBelow(E, n, i);
      var j :| 0 <= j < i && Level(E, n, j);
      LevelIsLongest(E, n, j, i);
    }
  }

  lemma PlanUnique(E: set<Arc>, V: set<Id>, p: ExecutionPlan, q: ExecutionPlan)
    requires IsPlan(E, V, p) && IsPlan(E, V, q)
    ensures p == q
  {
    NoLongerPlan(E, V, p, q);
    NoLongerPlan(E, V, q, p);
    forall i | 0 <= i < |p.waves| ensures p.waves[i] == q.waves[i] {
      assert IsWave(E, V, p.waves[i], i) && IsWave(E, V, q.waves[i], i);
      WaveUnique(E, V, p.waves[i], q.waves[i], i);
    }
    assert p.waves == q.waves;
  }

  /** Reordering the ids, or reordering and repeating the edges, changes nothing. */
  lemma PlanIgnoresListOrder(ids: seq<Id>, edges: seq<Arc>, r: Result<ExecutionPlan, PlanError>,
                             ids': seq<Id>, edges': seq<Arc>, r': Result<ExecutionPlan, PlanError>)
    requires PlanOutcome(ids, edges, r) && PlanOutcome(ids', edges', r')
    requires multiset(ids) == multiset(ids')
    requires ArcSet(edges) == ArcSet(edges')
    ensures r == r'
  {
    assert |ids| == |multiset(ids)| == |ids'|;
    forall n ensures n in ids <==> n in ids' {
      assert n in ids <==> n in multiset(ids);
      assert n in ids' <==> n in multiset(ids');
    }
    forall e ensures e in edges <==> e in edges' {
      assert e in edges <==> e in ArcSet(edges);
      assert e in edges' <==> e in ArcSet(edges');
    }
    assert Nodes(ids, edges) == Nodes(ids', edges');
    if r.Ok? {
      PlanUnique(ArcSet(edges), Settled(ArcSet(edges), Nodes(ids, edges)), r.value, r'.value);
    }
  }
}
