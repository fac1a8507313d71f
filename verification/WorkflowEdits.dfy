/**
 * Structural edits of a saved workflow (apps/workflow-server/src/workflow-mutation.ts):
 * adding, replacing and removing one pipeline with the dependencies around it.
 */
module WorkflowEdits {
  import opened Wrappers
  import opened Sequences
  import opened Graphs
  import opened Definitions
  import opened Plan
  import opened PlanProperties
  import opened GraphEdits

  /** One end of a dependency to create; the other end is the edited pipeline. */
  datatype Wire = Wire(other: Id, on: Option<string>, gate: Option<string>)

  datatype AddPipelineInput = AddPipelineInput(pipeline: PipelineDef, dependsOn: seq<Wire>, feeds: seq<Wire>,
                                               replace: bool)

  datatype MutationError =
    | AlreadyThere
    | UnknownDependency(from: Id)
    | UnknownFeed(to: Id)
    | NoSuchPipeline
    | OnlyPipeline
    | DependedOn(dependents: seq<Id>)

  // ---- One dependency per edge ----

  /** The map key of a dependency: its ends with a NUL between. */
  function EdgeKey(d: DependencyDef): string {
    d.from + "\0" + d.to
  }

  /** No two edges between these ids have the same key. */
  ghost predicate Apart(ids: set<Id>) {
    forall d: DependencyDef, e: DependencyDef ::
      d.from in ids && d.to in ids && e.from in ids && e.to in ids && EdgeKey(d) == EdgeKey(e)
      ==> d.from == e.from && d.to == e.to
  }

  /** Every end of a dependency is one of these ids. */
  ghost predicate Between(deps: seq<DependencyDef>, ids: set<Id>) {
    forall d :: d in deps ==> d.from in ids && d.to in ids
  }

  /** Dependencies of different edges have different keys. */
  ghost predicate OneEdgePerKey(deps: seq<DependencyDef>) {
    forall d, e :: d in deps && e in deps && EdgeKey(d) == EdgeKey(e) ==> d.from == e.from && d.to == e.to
  }

  /** The dependency a key ends up with: the last one given for it. */
  function LastFor(deps: seq<DependencyDef>, key: string): Option<DependencyDef>
    decreases |deps|
  {
    if |deps| == 0 then None
    else if EdgeKey(deps[|deps| - 1]) == key then Some(deps[|deps| - 1])
    else LastFor(deps[..|deps| - 1], key)
  }

  /** The keys in order of first mention. */
  function FirstKeys(deps: seq<DependencyDef>): seq<string>
    decreases |deps|
  {
    if |deps| == 0 then []
    else
      var front, key := FirstKeys(deps[..|deps| - 1]), EdgeKey(deps[|deps| - 1]);
      if key in front then front else front + [key]
  }

  /** One entry per key, at the place of its first mention, with its last value. */
  predicate IsDeduped(deps: seq<DependencyDef>, out: seq<DependencyDef>) {
    && |out| == |FirstKeys(deps)|
    && (forall i :: 0 <= i < |out| ==> EdgeKey(out[i]) == FirstKeys(deps)[i])
    && (forall i :: 0 <= i < |out| ==> LastFor(deps, FirstKeys(deps)[i]) == Some(out[i]))
  }

  lemma {:induction false} KeysCovered(deps: seq<DependencyDef>)
    ensures Distinct(FirstKeys(deps))
    ensures forall key :: key in FirstKeys(deps) <==> LastFor(deps, key).Some?
    decreases |deps|
  {
    if |deps| > 0 {
      KeysCovered(deps[..|deps| - 1]);
    }
  }

  lemma {:induction false} LastIsGiven(deps: seq<DependencyDef>, key: string)
    ensures LastFor(deps, key).Some? ==> LastFor(deps, key).value in deps && EdgeKey(LastFor(deps, key).value) == key
    ensures forall d :: d in deps && EdgeKey(d) == key ==> LastFor(deps, key).Some?
    decreases |deps|
  {
    if |deps| > 0 {
      LastIsGiven(deps[..|deps| - 1], key);
      assert deps == deps[..|deps| - 1] + [deps[|deps| - 1]];
    }
  }

  function Deduped(deps: seq<DependencyDef>): (out: seq<DependencyDef>)
    ensures IsDeduped(deps, out)
  {
    KeysCovered(deps);
    var keys := FirstKeys(deps);
    var out := seq(|keys|, i requires 0 <= i < |keys| && LastFor(deps, keys[i]).Some? => LastFor(deps, keys[i]).value);
    assert forall i :: 0 <= i < |out| ==> EdgeKey(out[i]) == keys[i] by {
      forall i | 0 <= i < |out|
        ensures EdgeKey(out[i]) == keys[i]
      {
        LastIsGiven(deps, keys[i]);
      }
    }
    out
  }

  /** A map that keeps its keys in order of insertion, as a JavaScript Map does. */
  method DedupeDependencies(deps: seq<DependencyDef>) returns (out: seq<DependencyDef>)
    ensures out == Deduped(deps)
  {
    var keys: seq<string> := [];
    var byEdge: map<string, DependencyDef> := map[];
    for i := 0 to |deps|
      invariant keys == FirstKeys(deps[..i])
      invariant forall key :: key in byEdge <==> LastFor(deps[..i], key).Some?
      invariant forall key :: key in byEdge ==> LastFor(deps[..i], key) == Some(byEdge[key])
    {
      KeysCovered(deps[..i]);
      assert deps[..i + 1][..i] == deps[..i];
      var key := EdgeKey(deps[i]);
      if key !in byEdge {
        keys := keys + [key];
      }
      byEdge := byEdge[key := deps[i]];
    }
    assert deps[..|deps|] == deps;
    KeysCovered(deps);
    out := seq(|keys|, i requires 0 <= i < |keys| && forall k :: k in keys ==> k in byEdge => byEdge[keys[i]]);
  }

  /** Where the keys of two edges meet, one's source continues the other's, past a NUL, by what the other's target
      begins with. */
  lemma KeyOverlaps(d: DependencyDef, e: DependencyDef) returns (m: string)
    requires EdgeKey(d) == EdgeKey(e) && |d.from| <= |e.from| && (d.from != e.from || d.to != e.to)
    ensures e.from == d.from + "\0" + m && d.to == m + "\0" + e.to
  {
    var k := EdgeKey(d);
    assert k[..|d.from|] == d.from && k[|d.from| + 1..] == d.to;
    assert k[..|e.from|] == e.from && k[|e.from|] == '\0' && k[|e.from| + 1..] == e.to;
    assert |d.from| < |e.from|;
    m := k[|d.from| + 1..|e.from|];
    assert e.from == k[..|d.from|] + [k[|d.from|]] + m;
    assert d.to == m + [k[|e.from|]] + k[|e.from| + 1..];
  }

  /** Two edges between some ids can share a key exactly when `u`, `t`, `u + NUL + m` and `m + NUL + t` are among
      them. */
  lemma ApartIff(ids: set<Id>)
    ensures Apart(ids) <==>
      !exists u, t, m: string :: u in ids && t in ids && u + "\0" + m in ids && m + "\0" + t in ids
  {
    if u, t, m: string :| u in ids && t in ids && u + "\0" + m in ids && m + "\0" + t in ids {
      var d, e := DependencyDef(u + "\0" + m, t, "success", None), DependencyDef(u, m + "\0" + t, "success", None);
      assert EdgeKey(d) == u + "\0" + m + "\0" + t == EdgeKey(e);
      assert |d.from| != |e.from|;
    }
    if d: DependencyDef, e: DependencyDef :|
       d.from in ids && d.to in ids && e.from in ids && e.to in ids && EdgeKey(d) == EdgeKey(e)
       && (d.from != e.from || d.to != e.to) {
      if |d.from| <= |e.from| {
        var m := KeyOverlaps(d, e);
      } else {
        var m := KeyOverlaps(e, d);
      }
    }
  }

  /** Merging keeps exactly the last dependency of every key, and the same edges exactly when no two of them share
      one. */
  lemma DedupedKeepsEdges(deps: seq<DependencyDef>, out: seq<DependencyDef>)
    requires IsDeduped(deps, out)
    ensures forall key :: LastFor(out, key) == LastFor(deps, key)
    ensures forall d :: d in out <==> LastFor(deps, EdgeKey(d)) == Some(d)
    ensures ArcSet(DependencyArcs(out)) == ArcSet(DependencyArcs(deps)) <==> OneEdgePerKey(deps)
  {
    KeysCovered(deps);
    forall d
      ensures d in out <==> LastFor(deps, EdgeKey(d)) == Some(d)
    {
      LastIsGiven(deps, EdgeKey(d));
    }
    forall key
      ensures LastFor(out, key) == LastFor(deps, key)
    {
      LastIsGiven(out, key);
      LastIsGiven(deps, key);
    }
    if OneEdgePerKey(deps) {
      SameArcs(deps, out);
    } else {
      var d, e :| d in deps && e in deps && EdgeKey(d) == EdgeKey(e) && (d.from != e.from || d.to != e.to);
      LastIsGiven(deps, EdgeKey(d));
      var last := LastFor(deps, EdgeKey(d)).value;
      EdgeLost(deps, out, if last.from == d.from && last.to == d.to then e else d, last);
    }
  }

  /** An edge whose key ends up with another edge's dependency is gone. */
  lemma EdgeLost(deps: seq<DependencyDef>, out: seq<DependencyDef>, d: DependencyDef, last: DependencyDef)
    requires forall d :: d in out <==> LastFor(deps, EdgeKey(d)) == Some(d)
    requires d in deps && LastFor(deps, EdgeKey(d)) == Some(last) && (d.from != last.from || d.to != last.to)
    ensures ArcSet(DependencyArcs(out)) != ArcSet(DependencyArcs(deps))
  {
    var e := Arc(d.from, d.to);
    ArcOf(deps, e);
    ArcOf(out, e);
    assert forall o: DependencyDef :: Arc(o.from, o.to) == e ==> EdgeKey(o) == EdgeKey(d);
  }

  lemma SameArcs(deps: seq<DependencyDef>, out: seq<DependencyDef>)
    requires OneEdgePerKey(deps)
    requires forall d :: d in out <==> LastFor(deps, EdgeKey(d)) == Some(d)
    ensures ArcSet(DependencyArcs(out)) == ArcSet(DependencyArcs(deps))
  {
    forall e
      ensures e in ArcSet(DependencyArcs(out)) <==> e in ArcSet(DependencyArcs(deps))
    {
      ArcOf(out, e);
      ArcOf(deps, e);
      if d :| d in out && Arc(d.from, d.to) == e {
        LastIsGiven(deps, EdgeKey(d));
        assert d in deps;
      }
      if d :| d in deps && Arc(d.from, d.to) == e {
        LastIsGiven(deps, EdgeKey(d));
        var last := LastFor(deps, EdgeKey(d)).value;
        assert last in deps;
        assert last in out;
      }
    }
  }

  lemma ArcOf(deps: seq<DependencyDef>, e: Arc)
    ensures e in ArcSet(DependencyArcs(deps)) <==> exists d :: d in deps && Arc(d.from, d.to) == e
  {
    var arcs := DependencyArcs(deps);
    if e in arcs {
      var i :| 0 <= i < |arcs| && arcs[i] == e;
      assert deps[i] in deps;
    }
    if d :| d in deps && Arc(d.from, d.to) == e {
      var i :| 0 <= i < |deps| && deps[i] == d;
      assert arcs[i] == e;
    }
  }

  // ---- Adding a pipeline ----

  function FirstUnknown(wires: seq<Wire>, known: seq<Id>): Option<Id>
  {
    if |wires| == 0 then None
    else if wires[0].other !in known then Some(wires[0].other)
    else FirstUnknown(wires[1..], known)
  }

  function Gate(wire: Wire): Option<string> {
    if wire.gate == Some("") then None else wire.gate
  }

  function On(wire: Wire): string {
    if wire.on.Some? then wire.on.value else "success"
  }

  /** The dependencies asked for: those the pipeline waits on, then those that wait on it. */
  function Added(input: AddPipelineInput): (deps: seq<DependencyDef>)
    ensures |deps| == |input.dependsOn| + |input.feeds|
  {
    var id := input.pipeline.id;
    seq(|input.dependsOn|, i requires 0 <= i < |input.dependsOn| =>
      DependencyDef(input.dependsOn[i].other, id, On(input.dependsOn[i]), Gate(input.dependsOn[i])))
    + seq(|input.feeds|, i requires 0 <= i < |input.feeds| =>
      DependencyDef(id, input.feeds[i].other, On(input.feeds[i]), Gate(input.feeds[i])))
  }

  function NotInto(deps: seq<DependencyDef>, id: Id): seq<DependencyDef>
    decreases |deps|
  {
    if |deps| == 0 then []
    else
      var front := NotInto(deps[..|deps| - 1], id);
      if deps[|deps| - 1].to != id then front + [deps[|deps| - 1]] else front
  }

  function ReplaceFirst(pipelines: seq<PipelineDef>, p: PipelineDef): (out: seq<PipelineDef>)
    ensures |out| == |pipelines|
    ensures forall i :: 0 <= i < |out| ==> out[i].id == pipelines[i].id
  {
    if |pipelines| == 0 then []
    else if pipelines[0].id == p.id then [p] + pipelines[1..]
    else [pipelines[0]] + ReplaceFirst(pipelines[1..], p)
  }

  function AddPipeline(w: WorkflowDef, input: AddPipelineInput): Result<WorkflowDef, MutationError> {
    var id := input.pipeline.id;
    var present := id in PipelineIds(w);
    var known := PipelineIds(w) + [id];
    if present && !input.replace then Err(AlreadyThere)
    else if FirstUnknown(input.dependsOn, known).Some? then
      Err(UnknownDependency(FirstUnknown(input.dependsOn, known).value))
    else if FirstUnknown(input.feeds, known).Some? then
      Err(UnknownFeed(FirstUnknown(input.feeds, known).value))
    else
      var kept := if present then NotInto(w.dependencies, id) else w.dependencies;
      Ok(w.(version := w.version + 1,
            pipelines := if present then ReplaceFirst(w.pipelines, input.pipeline) else w.pipelines + [input.pipeline],
            dependencies := Deduped(kept + Added(input))))
  }

  // ---- Removing a pipeline ----

  function Dependents(deps: seq<DependencyDef>, id: Id): seq<Id>
    decreases |deps|
  {
    if |deps| == 0 then []
    else
      Dependents(deps[..|deps| - 1], id) + if deps[|deps| - 1].from == id then [deps[|deps| - 1].to] else []
  }

  function OtherPipelines(pipelines: seq<PipelineDef>, id: Id): seq<PipelineDef>
    decreases |pipelines|
  {
    if |pipelines| == 0 then []
    else
      var front := OtherPipelines(pipelines[..|pipelines| - 1], id);
      if pipelines[|pipelines| - 1].id != id then front + [pipelines[|pipelines| - 1]] else front
  }

  function RemovePipeline(w: WorkflowDef, id: Id): Result<WorkflowDef, MutationError> {
    if id !in PipelineIds(w) then Err(NoSuchPipeline)
    else if |w.pipelines| == 1 then Err(OnlyPipeline)
    else if |Dependents(w.dependencies, id)| > 0 then Err(DependedOn(Dependents(w.dependencies, id)))
    else
      Ok(w.(version := w.version + 1,
            pipelines := OtherPipelines(w.pipelines, id),
            dependencies := NotInto(w.dependencies, id)))
  }

  // ---- Ids stay distinct and dependencies closed ----

  ghost predicate Closed(w: WorkflowDef) {
    forall d :: d in w.dependencies ==> d.from in PipelineIds(w) && d.to in PipelineIds(w)
  }

  lemma {:induction false} AllKnown(wires: seq<Wire>, known: seq<Id>)
    ensures FirstUnknown(wires, known).None? <==> forall i :: 0 <= i < |wires| ==> wires[i].other in known
    decreases |wires|
  {
    if |wires| > 0 {
      AllKnown(wires[1..], known);
      assert forall i :: 0 < i < |wires| ==> wires[i] == wires[1..][i - 1];
    }
  }

  lemma {:induction false} NotIntoIs(deps: seq<DependencyDef>, id: Id)
    ensures forall d :: d in NotInto(deps, id) <==> d in deps && d.to != id
    decreases |deps|
  {
    if |deps| > 0 {
      NotIntoIs(deps[..|deps| - 1], id);
      assert deps == deps[..|deps| - 1] + [deps[|deps| - 1]];
    }
  }

  lemma DedupedGiven(deps: seq<DependencyDef>)
    ensures forall d :: d in Deduped(deps) ==> d in deps
  {
    DedupedKeepsEdges(deps, Deduped(deps));
    forall d | d in Deduped(deps)
      ensures d in deps
    {
      LastIsGiven(deps, EdgeKey(d));
    }
  }

  lemma PipelineIdsAdd(w: WorkflowDef, input: AddPipelineInput)
    requires AddPipeline(w, input).Ok?
    ensures var id, ids := input.pipeline.id, PipelineIds(AddPipeline(w, input).value);
            ids == if id in PipelineIds(w) then PipelineIds(w) else PipelineIds(w) + [id]
  {
  }

  lemma AddedKnown(w: WorkflowDef, input: AddPipelineInput)
    requires AddPipeline(w, input).Ok?
    ensures var ids := PipelineIds(AddPipeline(w, input).value);
            forall d :: d in Added(input) ==> d.from in ids && d.to in ids
  {
    hide Deduped, NotInto, ReplaceFirst, FirstUnknown, PipelineIds, Gate, On;
    var known := PipelineIds(w) + [input.pipeline.id];
    AllKnown(input.dependsOn, known);
    AllKnown(input.feeds, known);
    PipelineIdsAdd(w, input);
  }

  /** Adding keeps ids distinct and every dependency between pipelines of the document. */
  lemma AddKeepsLegal(w: WorkflowDef, input: AddPipelineInput)
    ensures AddPipeline(w, input).Ok? && Distinct(PipelineIds(w)) ==> Distinct(PipelineIds(AddPipeline(w, input).value))
    ensures AddPipeline(w, input).Ok? && Closed(w) ==> Closed(AddPipeline(w, input).value)
  {
    if AddPipeline(w, input).Ok? {
      PipelineIdsAdd(w, input);
      AddedKnown(w, input);
      var id := input.pipeline.id;
      NotIntoIs(w.dependencies, id);
      DedupedGiven(NotInto(w.dependencies, id) + Added(input));
      DedupedGiven(w.dependencies + Added(input));
    }
  }

  lemma {:induction false} OthersAre(pipelines: seq<PipelineDef>, id: Id)
    ensures forall p :: p in OtherPipelines(pipelines, id) <==> p in pipelines && p.id != id
    decreases |pipelines|
  {
    if |pipelines| > 0 {
      OthersAre(pipelines[..|pipelines| - 1], id);
      assert pipelines == pipelines[..|pipelines| - 1] + [pipelines[|pipelines| - 1]];
    }
  }

  lemma {:induction false} OthersDistinct(pipelines: seq<PipelineDef>, id: Id)
    requires DistinctPipelines(pipelines)
    ensures DistinctPipelines(OtherPipelines(pipelines, id))
    decreases |pipelines|
  {
    if |pipelines| > 0 {
      var front, last := pipelines[..|pipelines| - 1], pipelines[|pipelines| - 1];
      OthersDistinct(front, id);
      OthersAre(front, id);
      forall p | p in OtherPipelines(front, id)
        ensures p.id != last.id
      {
        assert p in front;
      }
    }
  }

  lemma {:induction false} DependentsAre(deps: seq<DependencyDef>, id: Id)
    ensures |Dependents(deps, id)| == 0 <==> forall d :: d in deps ==> d.from != id
    decreases |deps|
  {
    if |deps| > 0 {
      DependentsAre(deps[..|deps| - 1], id);
      assert deps == deps[..|deps| - 1] + [deps[|deps| - 1]];
    }
  }

  lemma IdsMembers(w: WorkflowDef, id: Id)
    ensures id in PipelineIds(w) <==> exists p :: p in w.pipelines && p.id == id
    ensures Distinct(PipelineIds(w)) <==> DistinctPipelines(w.pipelines)
  {
    if p :| p in w.pipelines && p.id == id {
      var i :| 0 <= i < |w.pipelines| && w.pipelines[i] == p;
      assert PipelineIds(w)[i] == id;
    }
    if id in PipelineIds(w) {
      var i :| 0 <= i < |w.pipelines| && PipelineIds(w)[i] == id;
      assert w.pipelines[i] in w.pipelines;
    }
    assert forall i :: 0 <= i < |w.pipelines| ==> PipelineIds(w)[i] == w.pipelines[i].id;
  }

  lemma RemovedIds(w: WorkflowDef, id: Id)
    requires RemovePipeline(w, id).Ok?
    ensures forall n :: n in PipelineIds(RemovePipeline(w, id).value) <==> n in PipelineIds(w) && n != id
  {
    OthersAre(w.pipelines, id);
    forall n
      ensures n in PipelineIds(RemovePipeline(w, id).value) <==> n in PipelineIds(w) && n != id
    {
      IdsMembers(w, n);
      IdsMembers(RemovePipeline(w, id).value, n);
    }
  }

  /** Removing keeps ids distinct and every remaining dependency between remaining pipelines. */
  lemma RemoveKeepsLegal(w: WorkflowDef, id: Id)
    ensures RemovePipeline(w, id).Ok? && Distinct(PipelineIds(w)) ==> Distinct(PipelineIds(RemovePipeline(w, id).value))
    ensures RemovePipeline(w, id).Ok? && Closed(w) ==> Closed(RemovePipeline(w, id).value)
  {
    if RemovePipeline(w, id).Ok? {
      var v := RemovePipeline(w, id).value;
      RemovedIds(w, id);
      IdsMembers(w, id);
      IdsMembers(v, id);
      NotIntoIs(w.dependencies, id);
      DependentsAre(w.dependencies, id);
      if Distinct(PipelineIds(w)) {
        OthersDistinct(w.pipelines, id);
      }
    }
  }

  // ---- When an edit is refused, and what it leaves alone ----

  /** An addition is refused exactly for an id taken without `replace`, or an end that is not in the document. */
  lemma AddOkIff(w: WorkflowDef, input: AddPipelineInput)
    ensures var known := PipelineIds(w) + [input.pipeline.id];
            AddPipeline(w, input).Ok? <==>
              && (input.pipeline.id in PipelineIds(w) ==> input.replace)
              && (forall i :: 0 <= i < |input.dependsOn| ==> input.dependsOn[i].other in known)
              && (forall i :: 0 <= i < |input.feeds| ==> input.feeds[i].other in known)
  {
    var known := PipelineIds(w) + [input.pipeline.id];
    AllKnown(input.dependsOn, known);
    AllKnown(input.feeds, known);
  }

  /** What an addition is refused with: the id that is taken, or the first end that is not known, of those it is to
      wait for before those that are to wait for it. */
  lemma AddRefusedWith(w: WorkflowDef, input: AddPipelineInput, i: nat)
    ensures var known := PipelineIds(w) + [input.pipeline.id];
            var taken := input.pipeline.id in PipelineIds(w) && !input.replace;
            && (taken ==> AddPipeline(w, input) == Err(AlreadyThere))
            && (!taken && FirstStranger(input.dependsOn, known, i) ==>
                  AddPipeline(w, input) == Err(UnknownDependency(input.dependsOn[i].other)))
            && (!taken && FirstUnknown(input.dependsOn, known) == None && FirstStranger(input.feeds, known, i) ==>
                  AddPipeline(w, input) == Err(UnknownFeed(input.feeds[i].other)))
  {
    var known := PipelineIds(w) + [input.pipeline.id];
    if FirstStranger(input.dependsOn, known, i) {
      FirstUnknownIs(input.dependsOn, known, i);
    }
    if FirstStranger(input.feeds, known, i) {
      FirstUnknownIs(input.feeds, known, i);
    }
  }

  /** The `i`-th end is not known, and all before it are. */
  predicate FirstStranger(wires: seq<Wire>, known: seq<Id>, i: nat) {
    i < |wires| && wires[i].other !in known && forall j :: 0 <= j < i ==> wires[j].other in known
  }

  lemma {:induction false} FirstUnknownIs(wires: seq<Wire>, known: seq<Id>, i: nat)
    requires FirstStranger(wires, known, i)
    ensures FirstUnknown(wires, known) == Some(wires[i].other)
    decreases |wires|
  {
    if i > 0 {
      assert FirstStranger(wires[1..], known, i - 1);
      FirstUnknownIs(wires[1..], known, i - 1);
    }
  }

  /** A removal is refused exactly for a pipeline that is not there, is the only one, or is depended on. */
  lemma RemoveOkIff(w: WorkflowDef, id: Id)
    ensures RemovePipeline(w, id).Ok? <==>
      && id in PipelineIds(w) && |w.pipelines| != 1
      && forall d :: d in w.dependencies ==> d.from != id
  {
    DependentsAre(w.dependencies, id);
  }

  /** What a removal is refused with; the pipelines that depend on it are all named. */
  lemma RemoveRefusedWith(w: WorkflowDef, id: Id)
    ensures var r := RemovePipeline(w, id);
            && (id !in PipelineIds(w) ==> r == Err(NoSuchPipeline))
            && (id in PipelineIds(w) && |w.pipelines| == 1 ==> r == Err(OnlyPipeline))
            && (r.Err? && r.error.DependedOn? ==>
                  forall t :: t in r.error.dependents <==> exists d :: d in w.dependencies && d.from == id && d.to == t)
  {
    DependentsMembers(w.dependencies, id);
  }

  lemma {:induction false} DependentsMembers(deps: seq<DependencyDef>, id: Id)
    ensures forall t :: t in Dependents(deps, id) <==> exists d :: d in deps && d.from == id && d.to == t
    decreases |deps|
  {
    if |deps| > 0 {
      var front, last := deps[..|deps| - 1], deps[|deps| - 1];
      DependentsMembers(front, id);
      assert deps == front + [last] && last in deps;
      forall t
        ensures t in Dependents(deps, id) <==> exists d :: d in deps && d.from == id && d.to == t
      {
        if d :| d in deps && d.from == id && d.to == t {
          assert d in front || d == last;
        }
      }
    }
  }

  lemma {:induction false} ReplaceFirstMembers(pipelines: seq<PipelineDef>, p: PipelineDef)
    requires DistinctPipelines(pipelines)
    ensures forall q :: q in ReplaceFirst(pipelines, p) && q.id != p.id <==> q in pipelines && q.id != p.id
    ensures (exists q :: q in pipelines && q.id == p.id) ==> p in ReplaceFirst(pipelines, p)
    decreases |pipelines|
  {
    if |pipelines| > 0 {
      var first, rest := pipelines[0], pipelines[1..];
      assert pipelines == [first] + rest;
      ReplaceFirstMembers(rest, p);
      assert first.id == p.id ==> forall q :: q in rest ==> q.id != p.id;
    }
  }

  /** Adding puts the pipeline in, and touches no other pipeline and nothing else of the document but its
      dependencies. */
  lemma AddLeavesPipelines(w: WorkflowDef, input: AddPipelineInput)
    requires DistinctPipelines(w.pipelines)
    ensures AddPipeline(w, input).Ok? ==>
              var v := AddPipeline(w, input).value;
              && input.pipeline in v.pipelines
              && (forall q: PipelineDef :: q.id != input.pipeline.id ==> (q in v.pipelines <==> q in w.pipelines))
              && v == w.(version := w.version + 1, pipelines := v.pipelines, dependencies := v.dependencies)
  {
    if AddPipeline(w, input).Ok? {
      hide Deduped, NotInto, Added, FirstUnknown;
      ReplaceFirstMembers(w.pipelines, input.pipeline);
      IdsMembers(w, input.pipeline.id);
      var v := AddPipeline(w, input).value;
      if input.pipeline.id !in PipelineIds(w) {
        assert v.pipelines[|w.pipelines|] == input.pipeline;
      }
    }
  }

  /** Removing takes out that pipeline and the dependencies into it, and nothing else. */
  lemma RemoveLeavesRest(w: WorkflowDef, id: Id)
    ensures RemovePipeline(w, id).Ok? ==>
              var v := RemovePipeline(w, id).value;
              && (forall q :: q in v.pipelines <==> q in w.pipelines && q.id != id)
              && (forall d :: d in v.dependencies <==> d in w.dependencies && d.to != id)
              && v == w.(version := w.version + 1, pipelines := v.pipelines, dependencies := v.dependencies)
  {
    OthersAre(w.pipelines, id);
    NotIntoIs(w.dependencies, id);
  }
}
