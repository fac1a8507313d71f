/** Tying the traversal to the planner: a pipeline that `planExecution` accepts is
    delivered depth-first exactly as its plan order would evaluate it. */
module RoutingPlan {
  import opened Wrappers
  import opened Graphs
  import opened Definitions
  import opened Plan
  import opened PlanProperties
  import opened Routing

  /** `parsePipeline` has checked that every edge joins two pipes of the pipeline. */
  ghost predicate EdgesClosed(p: PipelineDef) {
    forall e :: e in p.edges ==> e.from in PipeIds(p) && e.to in PipeIds(p)
  }

  lemma ArcsOfEdges(p: PipelineDef)
    ensures forall e :: e in p.edges ==> Arc(e.from, e.to) in ArcSet(EdgeArcs(p.edges))
    ensures EdgesClosed(p) ==>
              SourcesKnown(PipeIds(p), EdgeArcs(p.edges)) && TargetsKnown(PipeIds(p), EdgeArcs(p.edges))
  {
    var arcs := EdgeArcs(p.edges);
    forall e | e in p.edges ensures Arc(e.from, e.to) in arcs {
      var i :| 0 <= i < |p.edges| && p.edges[i] == e;
      assert arcs[i] == Arc(e.from, e.to);
    }
  }

  ghost predicate HasLevel(E: set<Arc>, p: Id) {
    exists k: nat :: Level(E, p, k)
  }

  /** The rank of a pipe: the wave it is in. */
  ghost function LevelOf(E: set<Arc>, p: Id): nat {
    if HasLevel(E, p) then var k: nat :| Level(E, p, k); k else 0
  }

  ghost function WaveRank(p: PipelineDef): Rank {
    map id | id in PipeIds(p) :: LevelOf(ArcSet(EdgeArcs(p.edges)), id)
  }

  lemma LevelOfIs(E: set<Arc>, p: Id, k: nat)
    requires Level(E, p, k)
    ensures LevelOf(E, p) == k
  {
    var j := LevelOf(E, p);
    assert Level(E, p, j);
    LevelIsLongest(E, p, j, k);
    LevelIsLongest(E, p, k, j);
  }

  lemma PlanRanks(p: PipelineDef, r: Result<ExecutionPlan, PlanError>, net: Net)
    requires EdgesClosed(p) && PlanOutcome(PipeIds(p), EdgeArcs(p.edges), r) && r.Ok? && net.edges == p.edges
    ensures Ranked(net, WaveRank(p), |r.value.waves|)
  {
    var E := ArcSet(EdgeArcs(p.edges));
    ArcsOfEdges(p);
    PlannedNodes(PipeIds(p), EdgeArcs(p.edges), r);
    hide ArcSet, EdgeArcs, PlanOutcome;
    forall id | id in PipeIds(p) ensures Level(E, id, LevelOf(E, id)) && LevelOf(E, id) < |r.value.waves| {
      assert id in Elems(PipeIds(p));
      assert LevelBelow(E, id, |r.value.waves|);
      var k :| 0 <= k < |r.value.waves| && Level(E, id, k);
      LevelOfIs(E, id, k);
    }
    forall e | e in net.edges ensures LevelOf(E, e.from) < LevelOf(E, e.to) {
      EdgeRises(E, e.from, e.to);
    }
  }

  lemma EdgeRises(E: set<Arc>, a: Id, b: Id)
    requires Arc(a, b) in E && Level(E, a, LevelOf(E, a)) && Level(E, b, LevelOf(E, b))
    ensures LevelOf(E, a) < LevelOf(E, b)
  {
    assert IsWalk(E, [a, b]);
    LevelRises(E, [a, b], LevelOf(E, a), LevelOf(E, b));
  }

  /** In the flattened order, members of later waves come later. */
  lemma {:induction false} LaterWaveLaterInOrder(waves: seq<seq<Id>>, x: nat, j: nat, b: Id)
    requires x < |Flatten(waves)| && j < |waves| && b in waves[j]
    requires forall i :: 0 <= i < |waves| && Flatten(waves)[x] in waves[i] ==> i < j
    ensures b in Flatten(waves)[x + 1..]
    decreases |waves|
  {
    var n := |waves| - 1;
    var front, last := waves[..n], waves[n];
    var head := Flatten(front);
    var order := head + last;
    assert Flatten(waves) == order;
    if x < |head| {
      assert head[x] == order[x];
      if j == n {
        var k :| 0 <= k < |last| && last[k] == b;
        assert order[|head| + k] == b;
      } else {
        assert forall i :: 0 <= i < n ==> front[i] == waves[i];
        LaterWaveLaterInOrder(front, x, j, b);
        assert order[x + 1..] == head[x + 1..] + last;
      }
    }
  }

  lemma PlanOrderIsTopological(p: PipelineDef, r: Result<ExecutionPlan, PlanError>, net: Net)
    requires EdgesClosed(p) && PlanOutcome(PipeIds(p), EdgeArcs(p.edges), r) && r.Ok? && net.edges == p.edges
    ensures Topological(net, r.value.order)
  {
    var E, V, waves := ArcSet(EdgeArcs(p.edges)), Elems(PipeIds(p)), r.value.waves;
    ArcsOfEdges(p);
    PlannedNodes(PipeIds(p), EdgeArcs(p.edges), r);
    PlanOrderMembers(E, V, r.value);
    forall x, e | 0 <= x < |r.value.order| && e in net.edges && e.from == r.value.order[x]
      ensures e.to in r.value.order[x + 1..]
    {
      assert e.to in V;
      assert LevelBelow(E, e.to, |waves|);
      var j :| 0 <= j < |waves| && Level(E, e.to, j);
      assert IsWave(E, V, waves[j], j);
      assert IsWalk(E, [e.from, e.to]);
      forall i | 0 <= i < |waves| && e.from in waves[i] ensures i < j {
        assert IsWave(E, V, waves[i], i);
        LevelRises(E, [e.from, e.to], i, j);
      }
      LaterWaveLaterInOrder(waves, x, j, e.to);
    }
  }

  /** What depth-first delivery of `seeds` hands to the pipes: see `Delivery.Dispatch` and `ScheduleIrrelevant`. */
  ghost predicate DeliveredBy(net: Net, p: PipelineDef, plan: ExecutionPlan, seeds: seq<Item>, log: multiset<Item>) {
    var rank, top := WaveRank(p), |plan.waves|;
    Ranked(net, rank, top) && log == Owed(net, rank, top, seeds)
  }

  /** For every pipeline with a plan, delivering depth-first, under any schedule, or pipe by pipe in plan
      order gives every pipe the same multiset of batches. */
  lemma DeliveryFollowsPlan(p: PipelineDef, r: Result<ExecutionPlan, PlanError>, net: Net, seeds: seq<Item>)
    ensures EdgesClosed(p) && PlanOutcome(PipeIds(p), EdgeArcs(p.edges), r) && r.Ok? && net.edges == p.edges
      && (forall s :: s in seeds ==> s.pipe in PipeIds(p))
      ==> DeliveredBy(net, p, r.value, seeds, EvaluateInOrder(net, r.value.order, seeds))
  {
    if EdgesClosed(p) && PlanOutcome(PipeIds(p), EdgeArcs(p.edges), r) && r.Ok? && net.edges == p.edges
      && (forall s :: s in seeds ==> s.pipe in PipeIds(p)) {
      ArcsOfEdges(p);
      PlanRanks(p, r, net);
      PlanOrderIsTopological(p, r, net);
      PlannedNodes(PipeIds(p), EdgeArcs(p.edges), r);
      PlanOrderMembers(ArcSet(EdgeArcs(p.edges)), Elems(PipeIds(p)), r.value);
      PlanOrderAgrees(net, WaveRank(p), |r.value.waves|, r.value.order, seeds);
    }
  }
}
