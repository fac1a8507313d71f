/**
 * What edits of a workflow do to its plan: when an added pipeline makes a cycle,
 * that the waves of all other pipelines stay, and which edits undo each other.
 */
module EditedPlans {
  import opened Wrappers
  import opened Sequences
  import opened Graphs
  import opened Definitions
  import opened Plan
  import opened PlanProperties
  import opened GraphEdits
  import opened WorkflowEdits

  ghost function Arcs(w: WorkflowDef): set<Arc> {
    ArcSet(DependencyArcs(w.dependencies))
  }

  /** What `planWorkflow` returns or throws. */
  ghost predicate WorkflowPlan(w: WorkflowDef, r: Result<ExecutionPlan, PlanError>) {
    PlanOutcome(PipelineIds(w), DependencyArcs(w.dependencies), r)
  }

  ghost function Others(wires: seq<Wire>): set<Id> {
    set i | 0 <= i < |wires| :: wires[i].other
  }

  /** A document whose ids are distinct and are all its dependencies name. */
  ghost predicate Legal(w: WorkflowDef) {
    Closed(w) && Distinct(PipelineIds(w))
  }

  /** The ids an addition can join. */
  ghost function Known(w: WorkflowDef, input: AddPipelineInput): set<Id> {
    (set id | id in PipelineIds(w)) + {input.pipeline.id}
  }

  /** The document is legal, and no two edges an addition can make share a key (see `ApartIff`). */
  ghost predicate Ready(w: WorkflowDef, input: AddPipelineInput) {
    Legal(w) && Apart(Known(w, input))
  }

  lemma ArcsJoin(a: seq<DependencyDef>, b: seq<DependencyDef>)
    ensures ArcSet(DependencyArcs(a + b)) == ArcSet(DependencyArcs(a)) + ArcSet(DependencyArcs(b))
  {
    assert DependencyArcs(a + b) == DependencyArcs(a) + DependencyArcs(b);
  }

  lemma AddedArcs(input: AddPipelineInput)
    ensures ArcSet(DependencyArcs(Added(input)))
         == Wired({}, input.pipeline.id, Others(input.dependsOn), Others(input.feeds))
  {
    var id, deps := input.pipeline.id, Added(input);
    var W := Wired({}, id, Others(input.dependsOn), Others(input.feeds));
    forall e
      ensures e in ArcSet(DependencyArcs(deps)) <==> e in W
    {
      ArcOf(deps, e);
      if d :| d in deps && Arc(d.from, d.to) == e {
        var i :| 0 <= i < |deps| && deps[i] == d;
        if i < |input.dependsOn| {
          assert input.dependsOn[i].other in Others(input.dependsOn);
        } else {
          assert input.feeds[i - |input.dependsOn|].other in Others(input.feeds);
        }
      }
      if o :| o in Others(input.dependsOn) && e == Arc(o, id) {
        var i :| 0 <= i < |input.dependsOn| && input.dependsOn[i].other == o;
        assert deps[i] in deps;
      }
      if o :| o in Others(input.feeds) && e == Arc(id, o) {
        var i :| 0 <= i < |input.feeds| && input.feeds[i].other == o;
        assert deps[|input.dependsOn| + i] in deps;
      }
    }
  }

  lemma AddedBetween(w: WorkflowDef, input: AddPipelineInput)
    requires Closed(w) && AddPipeline(w, input).Ok?
    ensures Between(w.dependencies, Known(w, input)) && Between(Added(input), Known(w, input))
    ensures Between(NotInto(w.dependencies, input.pipeline.id), Known(w, input))
  {
    hide Added, PipelineIds, Deduped, ReplaceFirst, FirstUnknown;
    PipelineIdsAdd(w, input);
    AddedKnown(w, input);
    NotIntoIs(w.dependencies, input.pipeline.id);
  }

  lemma BetweenJoins(a: seq<DependencyDef>, b: seq<DependencyDef>, ids: set<Id>)
    requires Between(a, ids) && Between(b, ids)
    ensures Between(a + b, ids) && (Apart(ids) ==> OneEdgePerKey(a + b))
  {
  }

  /** The arcs between other pipelines. */
  ghost function Elsewhere(E: set<Arc>, id: Id): set<Arc> {
    set e | e in E && e.from != id && e.to != id
  }

  /** What waits for the pipeline afterwards: what it is asked to feed, and what it fed before. */
  ghost function Fed(w: WorkflowDef, input: AddPipelineInput): set<Id> {
    Others(input.feeds) + (set e | e in Arcs(w) && e.from == input.pipeline.id && e.to != input.pipeline.id :: e.to)
  }

  lemma KeptArcs(w: WorkflowDef, id: Id)
    ensures forall e :: e in ArcSet(DependencyArcs(NotInto(w.dependencies, id))) <==> e in Arcs(w) && e.to != id
  {
    NotIntoIs(w.dependencies, id);
    forall e
      ensures e in ArcSet(DependencyArcs(NotInto(w.dependencies, id))) <==> e in Arcs(w) && e.to != id
    {
      ArcOf(w.dependencies, e);
      ArcOf(NotInto(w.dependencies, id), e);
    }
  }

  lemma NothingInto(w: WorkflowDef, id: Id)
    requires Closed(w) && id !in PipelineIds(w)
    ensures forall e :: e in Arcs(w) ==> e.from != id && e.to != id
  {
    forall e | e in Arcs(w)
      ensures e.from != id && e.to != id
    {
      ArcOf(w.dependencies, e);
    }
  }

  /** A pipeline added or replaced is wired in among the others: it waits for what is asked, and feeds what is
      asked and what it fed before. */
  lemma AddedArcsAre(w: WorkflowDef, input: AddPipelineInput)
    requires Ready(w, input) && AddPipeline(w, input).Ok?
    ensures var id := input.pipeline.id;
            && Arcs(AddPipeline(w, input).value)
               == Wired(Elsewhere(Arcs(w), id), id, Others(input.dependsOn), Fed(w, input))
            && Untouched(Elsewhere(Arcs(w), id), id)
  {
    var id := input.pipeline.id;
    var kept := if id in PipelineIds(w) then NotInto(w.dependencies, id) else w.dependencies;
    AddedBetween(w, input);
    BetweenJoins(kept, Added(input), Known(w, input));
    DedupedKeepsEdges(kept + Added(input), Deduped(kept + Added(input)));
    ArcsJoin(kept, Added(input));
    AddedArcs(input);
    KeptArcs(w, id);
    if id !in PipelineIds(w) {
      NothingInto(w, id);
    }
    SplitAt(Arcs(w), ArcSet(DependencyArcs(kept)), id, Others(input.dependsOn), Others(input.feeds));
  }

  lemma SplitAt(E: set<Arc>, kept: set<Arc>, id: Id, sources: set<Id>, targets: set<Id>)
    requires forall e :: e in kept <==> e in E && e.to != id
    ensures kept + Wired({}, id, sources, targets)
         == Wired(Elsewhere(E, id), id, sources, targets + (set e | e in E && e.from == id && e.to != id :: e.to))
  {
    var fed := set e | e in E && e.from == id && e.to != id :: e.to;
    forall e
      ensures e in kept <==> e in Elsewhere(E, id) || (e.from == id && e.to in fed)
    {
      if e.from == id && e.to in fed {
        var o :| o in E && o.from == id && o.to != id && o.to == e.to;
        assert o == e;
      }
    }
  }

  /** An addition or a replacement makes no cycle exactly when there is none among the other pipelines, it names
      itself at neither end, and nothing it feeds, as asked or from before, leads back to what it waits for. */
  lemma AddAcyclicIff(w: WorkflowDef, input: AddPipelineInput)
    requires Ready(w, input)
    ensures AddPipeline(w, input).Ok? ==>
      var others := Elsewhere(Arcs(w), input.pipeline.id);
      (Acyclic(Arcs(AddPipeline(w, input).value)) <==>
        && Acyclic(others)
        && input.pipeline.id !in Others(input.dependsOn) && input.pipeline.id !in Others(input.feeds)
        && forall d, f :: d in Others(input.dependsOn) && f in Fed(w, input) ==> !Reachable(others, f, d))
  {
    if AddPipeline(w, input).Ok? {
      AddedArcsAre(w, input);
      WiredAcyclicIff(Elsewhere(Arcs(w), input.pipeline.id), input.pipeline.id, Others(input.dependsOn), Fed(w, input));
    }
  }

  /** Replacing can close a cycle while feeding nothing: what the pipeline fed before still waits for it. */
  lemma ReplaceClosesCycle(w: WorkflowDef, input: AddPipelineInput, d: Id)
    requires Ready(w, input) && AddPipeline(w, input).Ok?
    requires d in Others(input.dependsOn) && Arc(input.pipeline.id, d) in Arcs(w)
    ensures !Acyclic(Arcs(AddPipeline(w, input).value))
  {
    var others := Elsewhere(Arcs(w), input.pipeline.id);
    AddAcyclicIff(w, input);
    assert IsWalk(others, [d]);
    assert Reachable(others, d, d);
  }

  /** A pipeline not there before leaves what the others wait for as it was. */
  lemma FreshArcs(w: WorkflowDef, input: AddPipelineInput)
    requires Ready(w, input) && AddPipeline(w, input).Ok?
    requires input.pipeline.id !in PipelineIds(w)
    ensures Arcs(AddPipeline(w, input).value)
         == Wired(Arcs(w), input.pipeline.id, Others(input.dependsOn), Others(input.feeds))
    ensures Untouched(Arcs(w), input.pipeline.id)
  {
    AddedArcsAre(w, input);
    NothingInto(w, input.pipeline.id);
    assert Elsewhere(Arcs(w), input.pipeline.id) == Arcs(w);
    assert Fed(w, input) == Others(input.feeds);
  }

  lemma ClosedEdgesKnown(w: WorkflowDef)
    requires Closed(w)
    ensures SourcesKnown(PipelineIds(w), DependencyArcs(w.dependencies))
    ensures TargetsKnown(PipelineIds(w), DependencyArcs(w.dependencies))
  {
    forall e | e in DependencyArcs(w.dependencies)
      ensures e.from in PipelineIds(w) && e.to in PipelineIds(w)
    {
      assert e in ArcSet(DependencyArcs(w.dependencies));
      ArcOf(w.dependencies, e);
    }
  }

  ghost predicate InWave(plan: ExecutionPlan, n: Id, i: nat) {
    i < |plan.waves| && n in plan.waves[i]
  }

  /** The wave of a pipeline, from the document's dependencies alone. */
  lemma WaveFromLevel(w: WorkflowDef, r: Result<ExecutionPlan, PlanError>, n: Id, i: nat)
    requires Closed(w) && WorkflowPlan(w, r) && r.Ok? && n in PipelineIds(w)
    ensures InWave(r.value, n, i) <==>
      WalkEndsAt(Arcs(w), n, i) && forall k :: k > i ==> !WalkEndsAt(Arcs(w), n, k)
  {
    ClosedEdgesKnown(w);
    WaveIsLongestPath(PipelineIds(w), DependencyArcs(w.dependencies), r, n, i);
  }

  /** The edited document plans if the old one did, and every pipeline of both keeps its wave. */
  ghost predicate WavesKept(w: WorkflowDef, v: WorkflowDef) {
    forall r, s :: WorkflowPlan(w, r) && r.Ok? && WorkflowPlan(v, s) ==> s.Ok? && SameWaves(w, v, r.value, s.value)
  }

  ghost predicate SameWaves(w: WorkflowDef, v: WorkflowDef, p: ExecutionPlan, q: ExecutionPlan) {
    forall n, i: nat :: n in PipelineIds(w) && n in PipelineIds(v) ==> (InWave(p, n, i) <==> InWave(q, n, i))
  }

  lemma PlansIffAcyclic(w: WorkflowDef, r: Result<ExecutionPlan, PlanError>)
    requires Closed(w) && WorkflowPlan(w, r)
    ensures r.Ok? <==> Distinct(PipelineIds(w)) && Acyclic(Arcs(w))
  {
    ClosedEdgesKnown(w);
    PlansExactlyAcyclicGraphs(PipelineIds(w), DependencyArcs(w.dependencies), r);
  }

  lemma SinkKeepsWaves(w: WorkflowDef, v: WorkflowDef, p: Id)
    requires Closed(w) && Closed(v) && Distinct(PipelineIds(v))
    requires Acyclic(Arcs(w)) <==> Acyclic(Arcs(v))
    requires forall n, k: nat :: n != p ==> (WalkEndsAt(Arcs(v), n, k) <==> WalkEndsAt(Arcs(w), n, k))
    requires p !in PipelineIds(w) || p !in PipelineIds(v)
    ensures WavesKept(w, v)
  {
    hide WorkflowPlan, Arcs, PipelineIds, Closed, WalkEndsAt, Acyclic, InWave;
    forall r, s | WorkflowPlan(w, r) && r.Ok? && WorkflowPlan(v, s)
      ensures s.Ok? && SameWaves(w, v, r.value, s.value)
    {
      PlansIffAcyclic(w, r);
      PlansIffAcyclic(v, s);
      forall n, i: nat | n in PipelineIds(w) && n in PipelineIds(v)
        ensures InWave(r.value, n, i) <==> InWave(s.value, n, i)
      {
        WaveFromLevel(w, r, n, i);
        WaveFromLevel(v, s, n, i);
      }
    }
  }

  /** Removing a pipeline moves no other to another wave. */
  lemma RemoveKeepsWaves(w: WorkflowDef, id: Id)
    ensures Legal(w) && RemovePipeline(w, id).Ok? ==>
      WavesKept(w, RemovePipeline(w, id).value) && (Acyclic(Arcs(w)) <==> Acyclic(Arcs(RemovePipeline(w, id).value)))
  {
    if Legal(w) && RemovePipeline(w, id).Ok? {
      var v := RemovePipeline(w, id).value;
      RemoveKeepsLegal(w, id);
      RemovedIds(w, id);
      DependentsAre(w.dependencies, id);
      NotIntoIs(w.dependencies, id);
      forall e
        ensures e in Arcs(v) <==> e in Arcs(w) && e.to != id
        ensures e in Arcs(w) ==> e.from != id
      {
        ArcOf(w.dependencies, e);
        ArcOf(v.dependencies, e);
      }
      SinkAside(Arcs(v), Arcs(w), id);
      SinkKeepsWaves(w, v, id);
    }
  }

  /** A new pipeline that feeds nothing, itself included, moves no other to another wave. */
  lemma AddKeepsWaves(w: WorkflowDef, input: AddPipelineInput)
    requires Ready(w, input) && input.pipeline.id !in PipelineIds(w)
    requires input.feeds == [] && input.pipeline.id !in Others(input.dependsOn)
    ensures AddPipeline(w, input).Ok? ==>
      WavesKept(w, AddPipeline(w, input).value) && (Acyclic(Arcs(w)) <==> Acyclic(Arcs(AddPipeline(w, input).value)))
  {
    if AddPipeline(w, input).Ok? {
      var v := AddPipeline(w, input).value;
      AddKeepsLegal(w, input);
      FreshArcs(w, input);
      assert Others(input.feeds) == {};
      SinkAside(Arcs(w), Arcs(v), input.pipeline.id);
      SinkKeepsWaves(w, v, input.pipeline.id);
    }
  }

  // ---- Adding and removing again ----

  lemma {:induction false} NotIntoJoin(a: seq<DependencyDef>, b: seq<DependencyDef>, id: Id)
    ensures NotInto(a + b, id) == NotInto(a, id) + NotInto(b, id)
    decreases |b|
  {
    if |b| == 0 {
      assert a + b == a;
    } else {
      assert (a + b)[..|a + b| - 1] == a + b[..|b| - 1];
      NotIntoJoin(a, b[..|b| - 1], id);
    }
  }

  lemma {:induction false} NotIntoAll(deps: seq<DependencyDef>, id: Id)
    ensures (forall d :: d in deps ==> d.to != id) ==> NotInto(deps, id) == deps
    ensures (forall d :: d in deps ==> d.to == id) ==> NotInto(deps, id) == []
    decreases |deps|
  {
    if |deps| > 0 {
      NotIntoAll(deps[..|deps| - 1], id);
      assert deps == deps[..|deps| - 1] + [deps[|deps| - 1]];
    }
  }

  /** Keys of `b` that `a` does not have come after all of `a`'s. */
  lemma {:induction false} KeysAfter(a: seq<DependencyDef>, b: seq<DependencyDef>)
    requires forall d, e :: d in a && e in b ==> EdgeKey(d) != EdgeKey(e)
    ensures FirstKeys(a + b) == FirstKeys(a) + FirstKeys(b)
    ensures forall key :: LastFor(a + b, key) == if LastFor(b, key).Some? then LastFor(b, key) else LastFor(a, key)
    decreases |b|
  {
    if |b| == 0 {
      assert a + b == a;
    } else {
      var front, last := b[..|b| - 1], b[|b| - 1];
      assert (a + b)[..|a + b| - 1] == a + front;
      KeysAfter(a, front);
      KeysCovered(a);
      LastIsGiven(a, EdgeKey(last));
      assert last in b;
    }
  }

  lemma DedupedJoin(a: seq<DependencyDef>, b: seq<DependencyDef>)
    requires forall d, e :: d in a && e in b ==> EdgeKey(d) != EdgeKey(e)
    ensures Deduped(a + b) == Deduped(a) + Deduped(b)
  {
    KeysAfter(a, b);
    KeysCovered(a);
    KeysCovered(b);
    var out := Deduped(a) + Deduped(b);
    forall i | 0 <= i < |out|
      ensures out[i] == Deduped(a + b)[i]
    {
      var key := FirstKeys(a + b)[i];
      if i < |FirstKeys(a)| {
        assert key in FirstKeys(a);
        LastIsGiven(a, key);
        LastIsGiven(b, key);
      }
    }
  }

  lemma {:induction false} OthersAll(pipelines: seq<PipelineDef>, id: Id)
    requires forall p :: p in pipelines ==> p.id != id
    ensures OtherPipelines(pipelines, id) == pipelines
    decreases |pipelines|
  {
    if |pipelines| > 0 {
      OthersAll(pipelines[..|pipelines| - 1], id);
      assert pipelines == pipelines[..|pipelines| - 1] + [pipelines[|pipelines| - 1]];
    }
  }

  /** Adding a pipeline that feeds nothing and removing it again leaves the pipelines and the dependencies, one per
      edge. */
  lemma AddThenRemove(w: WorkflowDef, input: AddPipelineInput)
    requires Ready(w, input) && input.pipeline.id !in PipelineIds(w) && |w.pipelines| > 0
    requires input.feeds == [] && input.pipeline.id !in Others(input.dependsOn)
    ensures var added := AddPipeline(w, input);
            added.Ok? ==> (RemovePipeline(added.value, input.pipeline.id)
                           == Ok(w.(version := w.version + 2, dependencies := Deduped(w.dependencies))))
  {
    hide Closed, Deduped, NotInto, Dependents, Apart, Added, Others, OtherPipelines, Distinct;
    if AddPipeline(w, input).Ok? {
      var id, v := input.pipeline.id, AddPipeline(w, input).value;
      assert v.pipelines == w.pipelines + [input.pipeline];
      assert v.dependencies == Deduped(w.dependencies + Added(input));
      PipelineIdsAdd(w, input);
      assert id in PipelineIds(v);
      OthersAfterAdd(w, input.pipeline);
      AddedDepsGo(w, input);
    }
  }

  lemma OthersAfterAdd(w: WorkflowDef, p: PipelineDef)
    requires p.id !in PipelineIds(w)
    ensures OtherPipelines(w.pipelines + [p], p.id) == w.pipelines
  {
    assert (w.pipelines + [p])[..|w.pipelines|] == w.pipelines;
    forall q | q in w.pipelines
      ensures q.id != p.id
    {
      IdsMembers(w, p.id);
    }
    OthersAll(w.pipelines, p.id);
  }

  lemma AddedDepsGo(w: WorkflowDef, input: AddPipelineInput)
    requires Ready(w, input) && AddPipeline(w, input).Ok? && input.pipeline.id !in PipelineIds(w)
    requires input.feeds == [] && input.pipeline.id !in Others(input.dependsOn)
    ensures var out := Deduped(w.dependencies + Added(input));
            && |Dependents(out, input.pipeline.id)| == 0
            && NotInto(out, input.pipeline.id) == Deduped(w.dependencies)
  {
    var id, added := input.pipeline.id, Added(input);
    forall d | d in added
      ensures d.to == id && d.from != id
    {
      var i :| 0 <= i < |added| && added[i] == d;
      assert input.dependsOn[i].other in Others(input.dependsOn);
    }
    AddedBetween(w, input);
    forall d, e | d in w.dependencies && e in added
      ensures EdgeKey(d) != EdgeKey(e)
    {
      assert d.to in PipelineIds(w);
    }
    DedupedJoin(w.dependencies, added);
    DedupedGiven(w.dependencies);
    DedupedGiven(added);
    var out := Deduped(w.dependencies) + Deduped(added);
    DependentsAre(out, id);
    NotIntoJoin(Deduped(w.dependencies), Deduped(added), id);
    NotIntoAll(Deduped(w.dependencies), id);
    NotIntoAll(Deduped(added), id);
  }

  // ---- Replacing twice ----

  /** No dependency but the last one for its edge counts. */
  lemma {:induction false} LastAfterFilter(deps: seq<DependencyDef>, ids: set<Id>, id: Id, d: DependencyDef)
    requires Apart(ids) && Between(deps, ids) && d.from in ids && d.to in ids
    ensures LastFor(NotInto(deps, id), EdgeKey(d)) == if d.to == id then None else LastFor(deps, EdgeKey(d))
    decreases |deps|
  {
    if |deps| > 0 {
      var front, last := deps[..|deps| - 1], deps[|deps| - 1];
      assert last in deps && forall e :: e in front ==> e in deps;
      LastAfterFilter(front, ids, id, d);
      if last.to != id {
        assert (NotInto(front, id) + [last])[..|NotInto(front, id)|] == NotInto(front, id);
      }
    }
  }

  lemma {:induction false} LastOfJoin(a: seq<DependencyDef>, b: seq<DependencyDef>, key: string)
    ensures LastFor(a + b, key) == if LastFor(b, key).Some? then LastFor(b, key) else LastFor(a, key)
    decreases |b|
  {
    if |b| == 0 {
      assert a + b == a;
    } else {
      assert (a + b)[..|a + b| - 1] == a + b[..|b| - 1];
      LastOfJoin(a, b[..|b| - 1], key);
    }
  }

  /** Merging what is left after dropping the pipeline's own wiring with the same wiring again changes no edge. */
  lemma RewiredSame(deps: seq<DependencyDef>, added: seq<DependencyDef>, ids: set<Id>, id: Id, d: DependencyDef)
    requires Apart(ids) && Between(deps, ids) && Between(added, ids) && d.from in ids && d.to in ids
    ensures var first := Deduped(NotInto(deps, id) + added);
            LastFor(NotInto(first, id) + added, EdgeKey(d)) == LastFor(first, EdgeKey(d))
  {
    var merged := NotInto(deps, id) + added;
    var first := Deduped(merged);
    StaysBetween(deps, added, ids, id);
    DedupedKeepsEdges(merged, first);
    LastOfJoin(NotInto(deps, id), added, EdgeKey(d));
    LastOfJoin(NotInto(first, id), added, EdgeKey(d));
    LastAfterFilter(deps, ids, id, d);
    LastAfterFilter(first, ids, id, d);
  }

  lemma StaysBetween(deps: seq<DependencyDef>, added: seq<DependencyDef>, ids: set<Id>, id: Id)
    requires Between(deps, ids) && Between(added, ids)
    ensures Between(Deduped(NotInto(deps, id) + added), ids)
  {
    NotIntoIs(deps, id);
    DedupedGiven(NotInto(deps, id) + added);
  }

  lemma {:induction false} ReplaceAgain(pipelines: seq<PipelineDef>, p: PipelineDef)
    ensures ReplaceFirst(ReplaceFirst(pipelines, p), p) == ReplaceFirst(pipelines, p)
    decreases |pipelines|
  {
    if |pipelines| > 0 && pipelines[0].id != p.id {
      ReplaceAgain(pipelines[1..], p);
      assert ([pipelines[0]] + ReplaceFirst(pipelines[1..], p))[1..] == ReplaceFirst(pipelines[1..], p);
    }
  }

  /** Giving the same replacement again changes no pipeline and no edge's dependency. */
  lemma ReplaceTwice(w: WorkflowDef, input: AddPipelineInput)
    requires Ready(w, input) && input.replace && input.pipeline.id in PipelineIds(w)
    ensures AddPipeline(w, input).Ok? ==>
              var once := AddPipeline(w, input).value;
              && AddPipeline(once, input).Ok?
              && AddPipeline(once, input).value.pipelines == once.pipelines
              && forall d :: d in AddPipeline(once, input).value.dependencies <==> d in once.dependencies
  {
    if AddPipeline(w, input).Ok? {
      hide Deduped, NotInto, Added, Distinct, Apart, Between, AddPipeline, PipelineIds, ReplaceFirst;
      var once := AddPipeline(w, input).value;
      Replaced(w, input);
      Replaced(once, input);
      ReplaceAgain(w.pipelines, input.pipeline);
      AddedBetween(w, input);
      forall d
        ensures d in AddPipeline(once, input).value.dependencies <==> d in once.dependencies
      {
        SameEntry(w.dependencies, Added(input), Known(w, input), input.pipeline.id, d);
      }
    }
  }

  /** What a replace gives; it is refused only for unknown ends, which it does not change. */
  lemma Replaced(w: WorkflowDef, input: AddPipelineInput)
    requires input.replace && input.pipeline.id in PipelineIds(w) && AddPipeline(w, input).Ok?
    ensures var v := AddPipeline(w, input).value;
            && v.pipelines == ReplaceFirst(w.pipelines, input.pipeline)
            && v.dependencies == Deduped(NotInto(w.dependencies, input.pipeline.id) + Added(input))
            && PipelineIds(v) == PipelineIds(w)
            && AddPipeline(v, input).Ok?
  {
    hide Deduped, NotInto, Added, FirstUnknown;
    PipelineIdsAdd(w, input);
  }

  lemma SameEntry(deps: seq<DependencyDef>, added: seq<DependencyDef>, ids: set<Id>, id: Id, d: DependencyDef)
    requires Apart(ids) && Between(deps, ids) && Between(added, ids)
    ensures var once := Deduped(NotInto(deps, id) + added);
            d in Deduped(NotInto(once, id) + added) <==> d in once
  {
    var merged := NotInto(deps, id) + added;
    var once := Deduped(merged);
    var again := NotInto(once, id) + added;
    StaysBetween(deps, added, ids, id);
    StaysBetween(once, added, ids, id);
    DedupedKeepsEdges(merged, once);
    DedupedKeepsEdges(again, Deduped(again));
    if d.from in ids && d.to in ids {
      RewiredSame(deps, added, ids, id, d);
    }
  }

  // ---- What an addition wires ----

  /** What an edge has after an addition: the last thing asked for it, else what it had unless that was replaced. */
  function Rewired(w: WorkflowDef, input: AddPipelineInput, d: DependencyDef): Option<DependencyDef> {
    var asked := LastFor(Added(input), EdgeKey(d));
    if asked.Some? then asked
    else if input.pipeline.id in PipelineIds(w) && d.to == input.pipeline.id then None
    else LastFor(w.dependencies, EdgeKey(d))
  }

  lemma AddWires(w: WorkflowDef, input: AddPipelineInput, d: DependencyDef)
    requires Ready(w, input) && d.from in Known(w, input) && d.to in Known(w, input)
    ensures var r := AddPipeline(w, input);
            r.Ok? ==> LastFor(r.value.dependencies, EdgeKey(d)) == Rewired(w, input, d)
  {
    if AddPipeline(w, input).Ok? {
      AddedBetween(w, input);
      hide Added, Deduped, PipelineIds, FirstUnknown, Apart;
      var id := input.pipeline.id;
      var kept := if id in PipelineIds(w) then NotInto(w.dependencies, id) else w.dependencies;
      DedupedKeepsEdges(kept + Added(input), Deduped(kept + Added(input)));
      LastOfJoin(kept, Added(input), EdgeKey(d));
      LastAfterFilter(w.dependencies, Known(w, input), id, d);
    }
  }

  /** The dependency asked for by a wire: on success unless it says otherwise, and with its gate unless that is
      empty. */
  predicate AsAsked(wire: Wire, d: DependencyDef) {
    && (if wire.on.Some? then d.on == wire.on.value else d.on == "success")
    && (if wire.gate.Some? && wire.gate.value != "" then d.gate == wire.gate else d.gate == None)
  }

  predicate SameEnds(d: DependencyDef, e: DependencyDef) {
    d.from == e.from && d.to == e.to
  }

  lemma {:induction false} LastAt(deps: seq<DependencyDef>, ids: set<Id>, i: nat)
    requires Apart(ids) && Between(deps, ids) && i < |deps|
    requires forall j :: i < j < |deps| ==> !SameEnds(deps[i], deps[j])
    ensures LastFor(deps, EdgeKey(deps[i])) == Some(deps[i])
    decreases |deps|
  {
    if i < |deps| - 1 {
      var front, last := deps[..|deps| - 1], deps[|deps| - 1];
      assert last in deps && deps[i] in deps && forall d :: d in front ==> d in deps;
      LastAt(front, ids, i);
    }
  }

  /** The last dependency given for its ends is the one an edited document has between them. */
  lemma OnlyOne(deps: seq<DependencyDef>, ids: set<Id>, i: nat)
    requires Apart(ids) && Between(deps, ids) && i < |deps|
    requires forall j :: i < j < |deps| ==> !SameEnds(deps[i], deps[j])
    ensures deps[i] in Deduped(deps) && forall d :: d in Deduped(deps) && SameEnds(deps[i], d) ==> d == deps[i]
  {
    LastAt(deps, ids, i);
    DedupedKeepsEdges(deps, Deduped(deps));
    forall d | d in Deduped(deps) && SameEnds(deps[i], d)
      ensures d == deps[i]
    {
      assert EdgeKey(d) == EdgeKey(deps[i]);
    }
  }

  /** Each edge asked for is in the document as its last wire asks, and in no other form. */
  lemma FeedsAsAsked(w: WorkflowDef, input: AddPipelineInput, i: nat)
    requires Ready(w, input) && i < |input.feeds|
    requires forall j :: i < j < |input.feeds| ==> input.feeds[j].other != input.feeds[i].other
    ensures AddPipeline(w, input).Ok? ==>
              var v := AddPipeline(w, input).value;
              && (exists d :: d in v.dependencies && d.from == input.pipeline.id && d.to == input.feeds[i].other)
              && forall d :: d in v.dependencies && d.from == input.pipeline.id && d.to == input.feeds[i].other ==>
                   AsAsked(input.feeds[i], d)
  {
    if AddPipeline(w, input).Ok? {
      AskedLast(w, input, |input.dependsOn| + i);
    }
  }

  lemma DependsAsAsked(w: WorkflowDef, input: AddPipelineInput, i: nat)
    requires Ready(w, input) && i < |input.dependsOn|
    requires forall j :: i < j < |input.dependsOn| ==> input.dependsOn[j].other != input.dependsOn[i].other
    requires input.dependsOn[i].other != input.pipeline.id
    ensures AddPipeline(w, input).Ok? ==>
              var v := AddPipeline(w, input).value;
              && (exists d :: d in v.dependencies && d.from == input.dependsOn[i].other && d.to == input.pipeline.id)
              && forall d :: d in v.dependencies && d.from == input.dependsOn[i].other && d.to == input.pipeline.id ==>
                   AsAsked(input.dependsOn[i], d)
  {
    if AddPipeline(w, input).Ok? {
      AskedLast(w, input, i);
    }
  }

  function Kept(w: WorkflowDef, input: AddPipelineInput): seq<DependencyDef> {
    if input.pipeline.id in PipelineIds(w) then NotInto(w.dependencies, input.pipeline.id) else w.dependencies
  }

  lemma DependenciesAre(w: WorkflowDef, input: AddPipelineInput)
    requires Ready(w, input) && AddPipeline(w, input).Ok?
    ensures AddPipeline(w, input).value.dependencies == Deduped(Kept(w, input) + Added(input))
    ensures Apart(Known(w, input)) && Between(Kept(w, input) + Added(input), Known(w, input))
  {
    hide Added, Deduped, Apart, PipelineIds, FirstUnknown, ReplaceFirst;
    AddedBetween(w, input);
    BetweenJoins(Kept(w, input), Added(input), Known(w, input));
  }

  lemma AskedLast(w: WorkflowDef, input: AddPipelineInput, i: nat)
    requires Ready(w, input) && AddPipeline(w, input).Ok? && i < |Added(input)|
    requires forall j :: i < j < |Added(input)| ==> !SameEnds(Added(input)[i], Added(input)[j])
    ensures var v, d := AddPipeline(w, input).value, Added(input)[i];
            d in v.dependencies && forall e :: e in v.dependencies && SameEnds(d, e) ==> e == d
  {
    hide Added, Deduped, Apart, Between, Known, Kept, Ready, AddPipeline;
    DependenciesAre(w, input);
    var kept, added := Kept(w, input), Added(input);
    forall j | |kept| + i < j < |kept + added|
      ensures !SameEnds((kept + added)[|kept| + i], (kept + added)[j])
    {
      assert (kept + added)[j] == added[j - |kept|];
    }
    OnlyOne(kept + added, Known(w, input), |kept| + i);
  }
}
