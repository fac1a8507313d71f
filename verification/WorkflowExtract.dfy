/**
 * Moving a pipeline into a workflow of its own (apps/workflow-server/src/workflow-extract.ts):
 * the old document calls the new one. Plans stay, and so does what can be reached by references.
 */
module WorkflowExtract {
  import opened Wrappers
  import opened Graphs
  import opened Plan
  import opened PlanProperties
  import opened Strings
  import opened Definitions
  import opened WorkflowGraph
  import opened GraphEdits

  datatype ExtractInput = ExtractInput(
    pipelineId: Id,
    newWorkflowId: string,
    newWorkflowName: Option<string>,
    purpose: Option<string>,
    tags: Option<seq<string>>,
    replaceWithSub: bool,
    pinVersion: bool)

  datatype ExtractError = PipelineNotFound | NewIdRequired | NewIdIsSource

  datatype Extraction = Extraction(source: WorkflowDef, extracted: WorkflowDef)

  // ---- Strings ----

  /** `value?.trim() || otherwise`. */
  function TrimmedOr(value: Option<string>, otherwise: string): string {
    if value.Some? && Trim(value.value) != "" then Trim(value.value) else otherwise
  }

  /** A string that JavaScript counts as true. */
  predicate Given(value: Option<string>) {
    value.Some? && value.value != ""
  }

  // ---- The two documents ----

  function FindPipeline(pipelines: seq<PipelineDef>, id: Id): (found: Option<PipelineDef>)
    ensures found.Some? ==> found.value in pipelines && found.value.id == id
    ensures found.None? ==> forall p :: p in pipelines ==> p.id != id
  {
    if |pipelines| == 0 then None
    else if pipelines[0].id == id then Some(pipelines[0])
    else FindPipeline(pipelines[1..], id)
  }

  function Purpose(input: ExtractInput, p: PipelineDef): string {
    TrimmedOr(input.purpose, TrimmedOr(p.task, if p.name != "" then p.name else "Reusable: " + p.id))
  }

  function Extracted(source: WorkflowDef, input: ExtractInput, p: PipelineDef): WorkflowDef {
    var purpose := Purpose(input, p);
    WorkflowDef(
      Trim(input.newWorkflowId),
      TrimmedOr(input.newWorkflowName, p.name),
      purpose,
      if input.tags.Some? then input.tags.value else source.tags,
      1,
      source.origin,
      [p.(id := "main", task := if Given(p.task) then p.task else Some(purpose))],
      [],
      [source.id])
  }

  /** The pipeline that stays behind: the run's payload, passed to the new workflow. */
  function Caller(input: ExtractInput, p: PipelineDef): PipelineDef {
    var newId := Trim(input.newWorkflowId);
    PipelineDef(
      p.id, p.name, if Given(p.task) then p.task else Some("Call " + newId),
      [PipeDef("start", Source, "source.triggerPayload", None, None, Some(1)),
       PipeDef("call", Transform, SUB_WORKFLOW_PIPE_TYPE, Some(newId),
               if input.pinVersion then Some(1) else None, Some(1))],
      [EdgeDef("start", "call", None, None)])
  }

  function Substituted(pipelines: seq<PipelineDef>, id: Id, substitute: PipelineDef): (out: seq<PipelineDef>)
    ensures |out| == |pipelines|
    ensures forall i :: 0 <= i < |out| ==> out[i] == if pipelines[i].id == id then substitute else pipelines[i]
  {
    seq(|pipelines|, i requires 0 <= i < |pipelines| => if pipelines[i].id == id then substitute else pipelines[i])
  }

  function ExtractPipeline(source: WorkflowDef, input: ExtractInput): Result<Extraction, ExtractError> {
    match FindPipeline(source.pipelines, input.pipelineId)
    case None => Err(PipelineNotFound)
    case Some(p) =>
      var newId := Trim(input.newWorkflowId);
      if newId == "" then Err(NewIdRequired)
      else if newId == source.id then Err(NewIdIsSource)
      else
        var pipelines :=
          if input.replaceWithSub then Substituted(source.pipelines, p.id, Caller(input, p)) else source.pipelines;
        Ok(Extraction(source.(version := source.version + 1, pipelines := pipelines), Extracted(source, input, p)))
  }

  // ---- The plan stays ----

  /** `r` is what `planWorkflow` returns or throws for the document. */
  ghost predicate PlansAs(w: WorkflowDef, r: Result<ExecutionPlan, PlanError>) {
    PlanOutcome(PipelineIds(w), DependencyArcs(w.dependencies), r)
  }

  /** Whatever `planWorkflow` made of the document before, waves or an error, it makes of it after. */
  lemma ExtractKeepsPlan(source: WorkflowDef, input: ExtractInput, r: Result<ExecutionPlan, PlanError>)
    ensures ExtractPipeline(source, input).Ok? ==>
              (PlansAs(ExtractPipeline(source, input).value.source, r) <==> PlansAs(source, r))
  {
    if ExtractPipeline(source, input).Ok? {
      var kept := ExtractPipeline(source, input).value.source;
      assert PipelineIds(kept) == PipelineIds(source);
    }
  }

  /** Extraction is refused exactly for a pipeline that is not there, and an id that is blank or the document's own. */
  lemma ExtractOkIff(source: WorkflowDef, input: ExtractInput)
    ensures ExtractPipeline(source, input).Ok? <==>
      && (exists p :: p in source.pipelines && p.id == input.pipelineId)
      && Trim(input.newWorkflowId) != "" && Trim(input.newWorkflowId) != source.id
  {
  }

  /** The new document always says what it is for, in its purpose and in its pipeline's task. */
  lemma ExtractedHasPurpose(source: WorkflowDef, input: ExtractInput)
    ensures ExtractPipeline(source, input).Ok? ==>
              var x := ExtractPipeline(source, input).value.extracted;
              x.purpose != "" && |x.pipelines| == 1 && Given(x.pipelines[0].task)
  {
    if ExtractPipeline(source, input).Ok? {
      var p := FindPipeline(source.pipelines, input.pipelineId).value;
      assert |"Reusable: " + p.id| > 0;
      assert Purpose(input, p) != "";
    }
  }

  // ---- What is moved ----

  /** `r` is what `planExecution` returns or throws for the pipeline. */
  ghost predicate RunsAs(p: PipelineDef, r: Result<ExecutionPlan, PlanError>) {
    PlanOutcome(PipeIds(p), EdgeArcs(p.edges), r)
  }

  /** The moved pipeline is the first of its id, with the same pipes and edges and so the same plan; it is no more
      trusted than where it came from, and only that document may call it. */
  lemma MovesThePipeline(source: WorkflowDef, input: ExtractInput, i: nat)
    requires i < |source.pipelines| && source.pipelines[i].id == input.pipelineId
    requires forall j :: 0 <= j < i ==> source.pipelines[j].id != input.pipelineId
    ensures ExtractPipeline(source, input).Ok? ==>
              var p, x := source.pipelines[i], ExtractPipeline(source, input).value.extracted;
              && x.id == Trim(input.newWorkflowId) && x.origin == source.origin && x.allowFrom == [source.id]
              && |x.pipelines| == 1 && x.pipelines[0].pipes == p.pipes && x.pipelines[0].edges == p.edges
              && x.dependencies == [] && x.version == 1
              && x.tags == (if input.tags.Some? then input.tags.value else source.tags)
              && forall r :: RunsAs(x.pipelines[0], r) <==> RunsAs(p, r)
  {
    FirstFound(source.pipelines, input.pipelineId, i);
  }

  predicate Blank(value: Option<string>) {
    value.None? || Trim(value.value) == ""
  }

  /** The new document says what it is for in the words given, else those of the pipeline's task, else by the
      pipeline's name; it is called as asked, else like the pipeline. */
  lemma NamesTheDocument(source: WorkflowDef, input: ExtractInput)
    ensures ExtractPipeline(source, input).Ok? ==>
              var p := FindPipeline(source.pipelines, input.pipelineId).value;
              var x := ExtractPipeline(source, input).value.extracted;
              && (!Blank(input.purpose) ==> x.purpose == Trim(input.purpose.value))
              && (Blank(input.purpose) && !Blank(p.task) ==> x.purpose == Trim(p.task.value))
              && (Blank(input.purpose) && Blank(p.task) && p.name != "" ==> x.purpose == p.name)
              && x.name == (if Blank(input.newWorkflowName) then p.name else Trim(input.newWorkflowName.value))
  {
  }

  lemma {:induction false} FirstFound(pipelines: seq<PipelineDef>, id: Id, i: nat)
    requires i < |pipelines| && pipelines[i].id == id && forall j :: 0 <= j < i ==> pipelines[j].id != id
    ensures FindPipeline(pipelines, id) == Some(pipelines[i])
    decreases |pipelines|
  {
    if i > 0 {
      FirstFound(pipelines[1..], id, i - 1);
    }
  }

  /** The old document keeps its other pipelines; in the place of the moved one, if it is replaced, stands one that
      hands the run's payload to the new document, at its first version if that is pinned. It always has a plan. */
  lemma LeavesACaller(source: WorkflowDef, input: ExtractInput, i: nat)
    requires i < |source.pipelines|
    ensures ExtractPipeline(source, input).Ok? ==>
              var left := ExtractPipeline(source, input).value.source;
              && left == source.(version := source.version + 1, pipelines := left.pipelines)
              && |left.pipelines| == |source.pipelines|
              && var q := left.pipelines[i];
                 if !input.replaceWithSub || source.pipelines[i].id != input.pipelineId then q == source.pipelines[i]
                 else
                   && q.id == input.pipelineId && |q.pipes| == 2
                   && EdgeArcs(q.edges) == [Arc(q.pipes[0].id, q.pipes[1].id)]
                   && q.pipes[0].role.Source?
                   && PipeTargets(q.pipes[1]) == {Trim(input.newWorkflowId)}
                   && q.pipes[1].workflowVersion == (if input.pinVersion then Some(1) else None)
                   && forall r :: RunsAs(q, r) ==> r.Ok?
  {
    if ExtractPipeline(source, input).Ok? && input.replaceWithSub && source.pipelines[i].id == input.pipelineId {
      var p := FindPipeline(source.pipelines, input.pipelineId).value;
      var q := Caller(input, p);
      assert "start"[0] != "call"[0];
      assert EdgeArcs(q.edges) == [Arc("start", "call")];
      assert PipeIds(q) == ["start", "call"];
      OneArcPlans(q, "start", "call");
    }
  }

  lemma OneArcPlans(p: PipelineDef, a: Id, b: Id)
    requires a != b && PipeIds(p) == [a, b] && EdgeArcs(p.edges) == [Arc(a, b)]
    ensures forall r :: RunsAs(p, r) ==> r.Ok?
  {
    var E := ArcSet(EdgeArcs(p.edges));
    assert E == {Arc(a, b)};
    forall w | IsWalk(E, w) && |w| > 1
      ensures w[0] != w[|w| - 1]
    {
      assert Arc(w[0], w[1]) in E && Arc(w[|w| - 2], w[|w| - 1]) in E;
    }
    forall r | RunsAs(p, r)
      ensures r.Ok?
    {
      PlansExactlyAcyclicGraphs(PipeIds(p), EdgeArcs(p.edges), r);
    }
  }

  // ---- References ----

  lemma {:induction false} TargetsOf(pipelines: seq<PipelineDef>, t: Id)
    ensures t in Targets(pipelines) <==> exists p :: p in pipelines && t in PipelineTargets(p.pipes)
    decreases |pipelines|
  {
    if |pipelines| > 0 {
      TargetsOf(pipelines[..|pipelines| - 1], t);
      assert pipelines == pipelines[..|pipelines| - 1] + [pipelines[|pipelines| - 1]];
    }
  }

  lemma CallerTargets(input: ExtractInput, p: PipelineDef)
    requires Trim(input.newWorkflowId) != ""
    ensures PipelineTargets(Caller(input, p).pipes) == {Trim(input.newWorkflowId)}
  {
    var pipes := Caller(input, p).pipes;
    assert pipes[..1] == [pipes[0]] && [pipes[0]][..0] == [];
    assert PipelineTargets([]) == {};
    assert PipelineTargets([pipes[0]]) == {};
  }

  lemma ExtractedTargets(source: WorkflowDef, input: ExtractInput)
    requires ExtractPipeline(source, input).Ok?
    ensures var p := FindPipeline(source.pipelines, input.pipelineId).value;
            Targets(ExtractPipeline(source, input).value.extracted.pipelines) == PipelineTargets(p.pipes)
  {
    var pipelines := ExtractPipeline(source, input).value.extracted.pipelines;
    assert pipelines[..0] == [];
    assert Targets([]) == {};
  }

  /** A pipeline other than the substituted one is in both lists. */
  lemma SubstitutedMembers(pipelines: seq<PipelineDef>, p: PipelineDef, caller: PipelineDef)
    requires DistinctPipelines(pipelines) && p in pipelines && caller.id == p.id
    ensures forall q :: q in Substituted(pipelines, p.id, caller) <==> (q in pipelines && q != p) || q == caller
  {
    var out := Substituted(pipelines, p.id, caller);
    var i :| 0 <= i < |pipelines| && pipelines[i] == p;
    assert out[i] == caller;
    forall q
      ensures q in out <==> (q in pipelines && q != p) || q == caller
    {
      if q in out {
        var j :| 0 <= j < |out| && out[j] == q;
        assert pipelines[j] in pipelines;
      }
      if q in pipelines && q != p {
        var j :| 0 <= j < |pipelines| && pipelines[j] == q;
        assert out[j] == q;
      }
    }
  }

  lemma SubstitutedTargets(pipelines: seq<PipelineDef>, p: PipelineDef, caller: PipelineDef, t: Id)
    requires DistinctPipelines(pipelines) && p in pipelines && caller.id == p.id
    ensures t in Targets(Substituted(pipelines, p.id, caller)) ==>
              t in Targets(pipelines) || t in PipelineTargets(caller.pipes)
    ensures t in PipelineTargets(caller.pipes) ==> t in Targets(Substituted(pipelines, p.id, caller))
    ensures t in PipelineTargets(p.pipes) ==> t in Targets(pipelines)
    ensures t in Targets(pipelines) ==>
              t in Targets(Substituted(pipelines, p.id, caller)) || t in PipelineTargets(p.pipes)
  {
    hide Targets, PipelineTargets, DistinctPipelines;
    var out := Substituted(pipelines, p.id, caller);
    SubstitutedMembers(pipelines, p, caller);
    TargetsOf(pipelines, t);
    TargetsOf(out, t);
  }

  /** What the two documents refer to, between them, is what the old one did and the new workflow. */
  lemma SplitTargets(source: WorkflowDef, input: ExtractInput)
    requires ExtractPipeline(source, input).Ok? && input.replaceWithSub && DistinctPipelines(source.pipelines)
    ensures var x := ExtractPipeline(source, input).value;
            var newId := x.extracted.id;
            && newId in Targets(x.source.pipelines)
            && Targets(x.extracted.pipelines) <= Targets(source.pipelines)
            && Targets(x.source.pipelines) <= Targets(source.pipelines) + {newId}
            && Targets(source.pipelines) <= Targets(x.source.pipelines) + Targets(x.extracted.pipelines)
  {
    hide Targets, PipelineTargets, DistinctPipelines, Trim;
    var x := ExtractPipeline(source, input).value;
    var p := FindPipeline(source.pipelines, input.pipelineId).value;
    CallerTargets(input, p);
    ExtractedTargets(source, input);
    forall t
      ensures t in Targets(x.source.pipelines) ==> t in Targets(source.pipelines) + {x.extracted.id}
      ensures t == x.extracted.id ==> t in Targets(x.source.pipelines)
      ensures t in PipelineTargets(p.pipes) ==> t in Targets(source.pipelines)
      ensures t in Targets(source.pipelines) ==> t in Targets(x.source.pipelines) + PipelineTargets(p.pipes)
    {
      SubstitutedTargets(source.pipelines, p, Caller(input, p), t);
    }
  }

  // ---- A detour through a new node ----

  /**
   * `F` is `E` with a new node `n`, entered from `users` and perhaps from `s`. It leads to `targets`, where
   * `s` led before and may no longer lead itself.
   */
  ghost predicate Detour(E: set<Arc>, F: set<Arc>, s: Id, n: Id, targets: set<Id>, users: set<Id>) {
    && s != n && Untouched(E, n)
    && (forall a, b :: a != s && a != n && b != n ==> (Arc(a, b) in F <==> Arc(a, b) in E))
    && (forall b :: b != n && Arc(s, b) in F ==> Arc(s, b) in E)
    && (forall b :: Arc(s, b) in E ==> Arc(s, b) in F || (Arc(s, n) in F && Arc(n, b) in F))
    && (forall b :: Arc(n, b) in F <==> b in targets)
    && (forall b :: b in targets && b != n ==> Arc(s, b) in E)
    && (forall a :: a in users ==> Arc(a, n) in F)
    && (forall a :: Arc(a, n) in F && a != n ==> a in users || a == s)
    && (n in targets ==> Arc(s, n) in F)
  }

  lemma LastStep(E: set<Arc>, w: seq<Id>)
    requires IsWalk(E, w) && |w| > 1
    ensures IsWalk(E, w[..|w| - 1]) && Arc(w[|w| - 2], w[|w| - 1]) in E
  {
    SubWalk(E, w, 0, |w| - 1);
    assert w[0..|w| - 1] == w[..|w| - 1];
  }

  lemma ReachStep(E: set<Arc>, s: Id, a: Id, b: Id)
    requires Reachable(E, s, a) && Arc(a, b) in E
    ensures Reachable(E, s, b)
  {
    var w :| IsWalk(E, w) && w[0] == s && w[|w| - 1] == a;
    WalkGrows(E, w, b);
  }

  /** What is reached in the new graph was reached in the old one, the new node aside. */
  lemma {:induction false} DetourReaches(E: set<Arc>, F: set<Arc>, s: Id, n: Id, targets: set<Id>, users: set<Id>,
                                         w: seq<Id>)
    requires Detour(E, F, s, n, targets, users) && IsWalk(F, w) && w[0] == s && w[|w| - 1] != n
    ensures Reachable(E, s, w[|w| - 1])
    decreases |w|
  {
    if |w| == 1 {
      assert IsWalk(E, w);
    } else {
      var a, b := w[|w| - 2], w[|w| - 1];
      LastStep(F, w);
      if a == n {
        assert IsWalk(E, [s, b]);
      } else {
        DetourReaches(E, F, s, n, targets, users, w[..|w| - 1]);
        ReachStep(E, s, a, b);
      }
    }
  }

  /** Every old walk has a new one between the same ends. */
  lemma {:induction false} DetourWalk(E: set<Arc>, F: set<Arc>, s: Id, n: Id, targets: set<Id>, users: set<Id>,
                                      w: seq<Id>)
    returns (v: seq<Id>)
    requires Detour(E, F, s, n, targets, users) && IsWalk(E, w)
    ensures IsWalk(F, v) && v[0] == w[0] && v[|v| - 1] == w[|w| - 1] && |v| >= |w|
    decreases |w|
  {
    if |w| == 1 {
      v := w;
    } else {
      var a, b := w[|w| - 2], w[|w| - 1];
      LastStep(E, w);
      var u := DetourWalk(E, F, s, n, targets, users, w[..|w| - 1]);
      if Arc(a, b) in F {
        WalkGrows(F, u, b);
        v := u + [b];
      } else {
        WalkGrows(F, u, n);
        WalkGrows(F, u + [n], b);
        v := u + [n] + [b];
      }
    }
  }

  lemma DetourKeepsReach(E: set<Arc>, F: set<Arc>, s: Id, n: Id, targets: set<Id>, users: set<Id>, a: Id, b: Id)
    requires Detour(E, F, s, n, targets, users)
    ensures Reachable(E, a, b) ==> Reachable(F, a, b)
    ensures Reachable(F, s, b) && b != n ==> Reachable(E, s, b)
  {
    if Reachable(E, a, b) {
      var w :| IsWalk(E, w) && w[0] == a && w[|w| - 1] == b;
      var v := DetourWalk(E, F, s, n, targets, users, w);
    }
    if Reachable(F, s, b) && b != n {
      var w :| IsWalk(F, w) && w[0] == s && w[|w| - 1] == b;
      DetourReaches(E, F, s, n, targets, users, w);
    }
  }

  /** Something the new node leads to leads back to it. */
  ghost predicate ComesBack(E: set<Arc>, n: Id, targets: set<Id>, users: set<Id>) {
    n in targets || exists t, a :: t in targets && a in users && Reachable(E, t, a)
  }

  lemma DetourStep(E: set<Arc>, F: set<Arc>, s: Id, n: Id, targets: set<Id>, users: set<Id>, a: Id, b: Id)
    requires Detour(E, F, s, n, targets, users) && Arc(a, b) in F
    ensures a != n && b != n ==> Arc(a, b) in E
    ensures a == n ==> b in targets && (b != n ==> Arc(s, b) in E)
    ensures b == n && a != n ==> a in users || a == s
  {
  }

  /** Between leaving the new node and coming back, a walk uses old arcs only. */
  lemma AwayAndBack(E: set<Arc>, F: set<Arc>, s: Id, n: Id, targets: set<Id>, users: set<Id>, v: seq<Id>, k: nat)
    requires Detour(E, F, s, n, targets, users) && IsWalk(F, v) && 1 < k < |v| && v[0] == n == v[k]
    requires forall i :: 0 < i < k ==> v[i] != n
    ensures v[1] in targets && Arc(s, v[1]) in E && (v[k - 1] in users || v[k - 1] == s)
    ensures Reachable(E, v[1], v[k - 1])
  {
    hide Detour;
    var u := v[1..k];
    DetourStep(E, F, s, n, targets, users, v[0], v[1]);
    DetourStep(E, F, s, n, targets, users, v[k - 1], v[k]);
    forall i | 0 < i < |u| ensures Arc(u[i - 1], u[i]) in E {
      assert u[i - 1] == v[i] && u[i] == v[i + 1];
      DetourStep(E, F, s, n, targets, users, v[i], v[i + 1]);
    }
    assert IsWalk(E, u) && u[0] == v[1] && u[|u| - 1] == v[k - 1];
  }

  lemma ArcThere(E: set<Arc>, s: Id, t: Id)
    requires Arc(s, t) in E
    ensures Reachable(E, s, t)
  {
    assert IsWalk(E, [s, t]);
  }

  /** An arc whose end leads back closes a cycle. */
  lemma BackAgain(E: set<Arc>, start: Id, s: Id, t: Id)
    requires Reachable(E, start, s) && Arc(s, t) in E && Reachable(E, t, s)
    ensures CycleReachable(E, start)
  {
    var w :| IsWalk(E, w) && w[0] == t && w[|w| - 1] == s;
    JoinWalks(E, [s, t], w);
    assert ClosedWalk(E, [s, t] + w[1..]);
  }

  /** A walk that leaves the new node and comes back makes a cycle of the kind described, or an old one. */
  lemma RoundTrip(E: set<Arc>, F: set<Arc>, s: Id, n: Id, targets: set<Id>, users: set<Id>, v: seq<Id>)
    requires Detour(E, F, s, n, targets, users) && ClosedWalk(F, v) && v[0] == n
    ensures CycleReachable(E, s) || ComesBack(E, n, targets, users)
  {
    var k := FirstReturn(v, n, |v| - 1);
    if k == 1 {
      assert Arc(v[0], v[1]) in F;
    } else {
      AwayAndBack(E, F, s, n, targets, users, v, k);
      hide Detour, IsWalk;
      if v[k - 1] !in users {
        assert Reachable(E, s, s) by {
          SelfReach(E, s);
        }
        BackAgain(E, s, s, v[1]);
      }
    }
  }

  lemma SelfReach(E: set<Arc>, s: Id)
    ensures Reachable(E, s, s)
  {
    assert IsWalk(E, [s]);
  }

  lemma DetourAddsOnly(E: set<Arc>, F: set<Arc>, s: Id, n: Id, targets: set<Id>, users: set<Id>)
    requires Detour(E, F, s, n, targets, users) && CycleReachable(F, s)
    ensures CycleReachable(E, s) || ComesBack(E, n, targets, users)
  {
    var c :| ClosedWalk(F, c) && Reachable(F, s, c[0]);
    if i :| 0 <= i < |c| && c[i] == n {
      var v := RotateTo(F, c, i);
      RoundTrip(E, F, s, n, targets, users, v);
    } else {
      forall i | 0 < i < |c| ensures Arc(c[i - 1], c[i]) in E {
        assert Arc(c[i - 1], c[i]) in F;
      }
      DetourKeepsReach(E, F, s, n, targets, users, s, c[0]);
      assert ClosedWalk(E, c);
    }
  }

  lemma DetourAdds(E: set<Arc>, F: set<Arc>, s: Id, n: Id, targets: set<Id>, users: set<Id>)
    requires Detour(E, F, s, n, targets, users) && (CycleReachable(E, s) || ComesBack(E, n, targets, users))
    ensures CycleReachable(F, s)
  {
    if CycleReachable(E, s) {
      var c :| ClosedWalk(E, c) && Reachable(E, s, c[0]);
      DetourKeepsReach(E, F, s, n, targets, users, s, c[0]);
      var v := DetourWalk(E, F, s, n, targets, users, c);
      assert ClosedWalk(F, v);
    } else if n in targets {
      ArcThere(F, s, n);
      SelfReach(F, n);
      BackAgain(F, s, n, n);
    } else {
      var t, a :| t in targets && a in users && Reachable(E, t, a);
      ThroughUser(E, F, s, n, targets, users, t, a);
    }
  }

  lemma ThroughUser(E: set<Arc>, F: set<Arc>, s: Id, n: Id, targets: set<Id>, users: set<Id>, t: Id, a: Id)
    requires Detour(E, F, s, n, targets, users) && t in targets && t != n && a in users && Reachable(E, t, a)
    ensures CycleReachable(F, s)
  {
    assert Arc(s, t) in E && Arc(n, t) in F && Arc(a, n) in F;
    DetourKeepsReach(E, F, s, n, targets, users, t, a);
    ArcThere(E, s, t);
    DetourKeepsReach(E, F, s, n, targets, users, s, t);
    hide Detour;
    ReachOn(F, s, t, a);
    ReachStep(F, s, a, n);
    ReachStep(F, t, a, n);
    BackAgain(F, s, n, t);
  }

  lemma ReachOn(E: set<Arc>, a: Id, b: Id, c: Id)
    requires Reachable(E, a, b) && Reachable(E, b, c)
    ensures Reachable(E, a, c)
  {
    var u :| IsWalk(E, u) && u[0] == a && u[|u| - 1] == b;
    var v :| IsWalk(E, v) && v[0] == b && v[|v| - 1] == c;
    JoinWalks(E, u, v);
    assert IsWalk(E, u + v[1..]);
  }

  // ---- References between the workflows of a library ----

  function AfterExtract(library: Library, x: Extraction): Library {
    library[x.source.id := x.source][x.extracted.id := x.extracted]
  }

  /** The library with whatever it held under the new id left out. */
  function LeavingOut(library: Library, id: Id): Library {
    library - {id}
  }

  /** The workflows the moved pipeline calls. */
  ghost function Called(library: Library, x: Extraction): set<Id> {
    set t | t in Targets(x.extracted.pipelines) && t in AfterExtract(library, x)
  }

  /** The workflows that refer to the new id already. */
  ghost function UsersOf(library: Library, id: Id): set<Id> {
    set a | a in library && a != id && id in Targets(library[a].pipelines)
  }

  lemma ExtractDetours(library: Library, source: WorkflowDef, input: ExtractInput)
    requires source.id in library && library[source.id] == source && DistinctPipelines(source.pipelines)
    requires ExtractPipeline(source, input).Ok?
    ensures var x := ExtractPipeline(source, input).value;
            Detour(ReferenceArcs(LeavingOut(library, x.extracted.id)), ReferenceArcs(AfterExtract(library, x)),
                   source.id, x.extracted.id, Called(library, x), UsersOf(library, x.extracted.id))
  {
    hide Targets, PipelineTargets, DistinctPipelines, Trim, ExtractPipeline, ReferenceArcs;
    var x := ExtractPipeline(source, input).value;
    var s, n := source.id, x.extracted.id;
    var L, M := LeavingOut(library, n), AfterExtract(library, x);
    NewIds(source, input);
    TargetsDivided(source, input);
    forall a, b
      ensures Arc(a, b) in ReferenceArcs(L) <==> a in L && b in L && b in Targets(L[a].pipelines)
      ensures Arc(a, b) in ReferenceArcs(M) <==> a in M && b in M && b in Targets(M[a].pipelines)
    {
      References(L, a, b);
      References(M, a, b);
    }
  }

  lemma References(library: Library, a: Id, b: Id)
    ensures Arc(a, b) in ReferenceArcs(library) <==> a in library && b in library && b in Targets(library[a].pipelines)
  {
  }

  lemma NewIds(source: WorkflowDef, input: ExtractInput)
    requires ExtractPipeline(source, input).Ok?
    ensures ExtractPipeline(source, input).value.source.id == source.id
    ensures ExtractPipeline(source, input).value.extracted.id != source.id
  {
  }

  /** `SplitTargets`, whether or not the old document is left calling the new one. */
  lemma TargetsDivided(source: WorkflowDef, input: ExtractInput)
    requires ExtractPipeline(source, input).Ok? && DistinctPipelines(source.pipelines)
    ensures var x := ExtractPipeline(source, input).value;
            var newId := x.extracted.id;
            && Targets(x.extracted.pipelines) <= Targets(source.pipelines)
            && Targets(x.source.pipelines) <= Targets(source.pipelines) + {newId}
            && (newId in Targets(source.pipelines) ==> newId in Targets(x.source.pipelines))
            && (Targets(source.pipelines) <= Targets(x.source.pipelines)
                || (newId in Targets(x.source.pipelines)
                    && Targets(source.pipelines) <= Targets(x.source.pipelines) + Targets(x.extracted.pipelines)))
  {
    hide Targets, PipelineTargets, DistinctPipelines;
    if input.replaceWithSub {
      SplitTargets(source, input);
    } else {
      var p := FindPipeline(source.pipelines, input.pipelineId).value;
      ExtractedTargets(source, input);
      forall t | t in PipelineTargets(p.pipes)
        ensures t in Targets(source.pipelines)
      {
        TargetsOf(source.pipelines, t);
      }
    }
  }

  /**
   * Whether or not a caller is left behind, extraction leaves a reference cycle exactly where there was one, or
   * where the moved pipeline calls the new id, or something that leads to a workflow already referring to it.
   */
  lemma ExtractCyclesIff(library: Library, source: WorkflowDef, input: ExtractInput)
    requires source.id in library && library[source.id] == source && DistinctPipelines(source.pipelines)
    ensures var r := ExtractPipeline(source, input);
            r.Ok? ==>
              var id := r.value.extracted.id;
              var before := ReferenceArcs(LeavingOut(library, id));
              (CycleReachable(ReferenceArcs(AfterExtract(library, r.value)), source.id) <==>
                || CycleReachable(before, source.id)
                || ComesBack(before, id, Called(library, r.value), UsersOf(library, id)))
  {
    var r := ExtractPipeline(source, input);
    if r.Ok? {
      hide Detour, ExtractPipeline, DistinctPipelines, CycleReachable, ComesBack;
      var x := r.value;
      var E, F := ReferenceArcs(LeavingOut(library, x.extracted.id)), ReferenceArcs(AfterExtract(library, x));
      ExtractDetours(library, source, input);
      if CycleReachable(F, source.id) {
        DetourAddsOnly(E, F, source.id, x.extracted.id, Called(library, x), UsersOf(library, x.extracted.id));
      } else if CycleReachable(E, source.id)
                || ComesBack(E, x.extracted.id, Called(library, x), UsersOf(library, x.extracted.id)) {
        DetourAdds(E, F, source.id, x.extracted.id, Called(library, x), UsersOf(library, x.extracted.id));
      }
    }
  }

  /** Every workflow that could be reached still can, and no other but the new one. */
  lemma ExtractKeepsReach(library: Library, source: WorkflowDef, input: ExtractInput)
    requires source.id in library && library[source.id] == source && DistinctPipelines(source.pipelines)
    ensures var r := ExtractPipeline(source, input);
            r.Ok? ==>
              var E := ReferenceArcs(LeavingOut(library, r.value.extracted.id));
              var F := ReferenceArcs(AfterExtract(library, r.value));
              && (forall b :: Reachable(E, source.id, b) ==> Reachable(F, source.id, b))
              && (forall b :: Reachable(F, source.id, b) ==> b == r.value.extracted.id || Reachable(E, source.id, b))
  {
    var r := ExtractPipeline(source, input);
    if r.Ok? {
      hide Detour, ExtractPipeline, DistinctPipelines, Reachable;
      var x := r.value;
      var E, F := ReferenceArcs(LeavingOut(library, x.extracted.id)), ReferenceArcs(AfterExtract(library, x));
      ExtractDetours(library, source, input);
      forall b
        ensures Reachable(E, source.id, b) ==> Reachable(F, source.id, b)
        ensures Reachable(F, source.id, b) ==> b == x.extracted.id || Reachable(E, source.id, b)
      {
        DetourKeepsReach(E, F, source.id, x.extracted.id, Called(library, x), UsersOf(library, x.extracted.id),
                         source.id, b);
      }
    }
  }

  // ---- An id nothing refers to ----

  /** No workflow that can be reached from `start` refers to `id`. */
  ghost predicate Unused(library: Library, start: Id, id: Id) {
    forall a :: a in library && Reachable(ReferenceArcs(library), start, a) ==> id !in Targets(library[a].pipelines)
  }

  lemma ArcLeavingOut(library: Library, start: Id, id: Id, a: Id, b: Id)
    requires Unused(library, start, id) && Reachable(ReferenceArcs(library), start, a) && a != id
    requires Arc(a, b) in ReferenceArcs(library)
    ensures Arc(a, b) in ReferenceArcs(LeavingOut(library, id)) && b != id && b in library
    ensures Reachable(ReferenceArcs(library), start, b)
  {
    hide Targets, ReferenceArcs, Reachable;
    References(library, a, b);
    References(LeavingOut(library, id), a, b);
    ReachStep(ReferenceArcs(library), start, a, b);
  }

  /** Then leaving it out takes no walk from there away. */
  lemma {:induction false} WalkLeavingOut(library: Library, start: Id, id: Id, w: seq<Id>)
    requires Unused(library, start, id) && start in library && start != id
    requires |w| > 0 && IsWalk(ReferenceArcs(library), w)
    requires Reachable(ReferenceArcs(library), start, w[0]) && w[0] != id && w[0] in library
    ensures IsWalk(ReferenceArcs(LeavingOut(library, id)), w) && Reachable(ReferenceArcs(library), start, w[|w| - 1])
    ensures w[|w| - 1] != id && w[|w| - 1] in library
    decreases |w|
  {
    hide IsWalk, ReferenceArcs, Unused, Reachable;
    if |w| == 1 {
      OneNode(ReferenceArcs(LeavingOut(library, id)), w[0]);
      assert w == [w[0]];
    } else {
      var front, a, b := w[..|w| - 1], w[|w| - 2], w[|w| - 1];
      LastStep(ReferenceArcs(library), w);
      WalkLeavingOut(library, start, id, front);
      ArcLeavingOut(library, start, id, a, b);
      WalkGrows(ReferenceArcs(LeavingOut(library, id)), front, b);
      assert front + [b] == w;
    }
  }

  lemma OneNode(E: set<Arc>, a: Id)
    ensures IsWalk(E, [a])
  {
  }

  lemma FewerArcs(library: Library, id: Id)
    ensures ReferenceArcs(LeavingOut(library, id)) <= ReferenceArcs(library)
  {
  }

  lemma SameLeavingOut(library: Library, start: Id, id: Id)
    requires Unused(library, start, id) && start in library && start != id
    ensures var E, L := ReferenceArcs(LeavingOut(library, id)), ReferenceArcs(library);
            && (CycleReachable(E, start) <==> CycleReachable(L, start))
            && (forall b :: Reachable(E, start, b) <==> Reachable(L, start, b))
  {
    var E, L := ReferenceArcs(LeavingOut(library, id)), ReferenceArcs(library);
    hide ReferenceArcs, Unused;
    FewerArcs(library, id);
    assert IsWalk(L, [start]);
    assert Reachable(L, start, start);
    forall b
      ensures Reachable(E, start, b) ==> Reachable(L, start, b)
      ensures Reachable(L, start, b) ==> Reachable(E, start, b) && b != id && b in library
    {
      if Reachable(E, start, b) {
        var w :| IsWalk(E, w) && w[0] == start && w[|w| - 1] == b;
        MoreArcs(E, L, w);
      }
      if Reachable(L, start, b) {
        var w :| IsWalk(L, w) && w[0] == start && w[|w| - 1] == b;
        WalkLeavingOut(library, start, id, w);
      }
    }
    if CycleReachable(E, start) {
      var c :| ClosedWalk(E, c) && Reachable(E, start, c[0]);
      MoreArcs(E, L, c);
      assert ClosedWalk(L, c);
    }
    if CycleReachable(L, start) {
      var c :| ClosedWalk(L, c) && Reachable(L, start, c[0]);
      WalkLeavingOut(library, start, id, c);
      assert ClosedWalk(E, c);
    }
  }

  /** Nothing the moved pipeline calls comes back to an id that no reachable workflow refers to. */
  lemma NothingComesBack(library: Library, source: WorkflowDef, input: ExtractInput)
    requires source.id in library && library[source.id] == source && DistinctPipelines(source.pipelines)
    requires ExtractPipeline(source, input).Ok?
    requires Unused(library, source.id, ExtractPipeline(source, input).value.extracted.id)
    ensures var x := ExtractPipeline(source, input).value;
            !ComesBack(ReferenceArcs(LeavingOut(library, x.extracted.id)), x.extracted.id, Called(library, x),
                       UsersOf(library, x.extracted.id))
  {
    hide Targets, PipelineTargets, DistinctPipelines, Trim, ExtractPipeline, ReferenceArcs;
    var x := ExtractPipeline(source, input).value;
    var id := x.extracted.id;
    var E, L := ReferenceArcs(LeavingOut(library, id)), ReferenceArcs(library);
    NewIds(source, input);
    TargetsDivided(source, input);
    FewerArcs(library, id);
    assert IsWalk(L, [source.id]);
    assert Reachable(L, source.id, source.id);
    forall t, a | t in Called(library, x) && a in UsersOf(library, id)
      ensures !Reachable(E, t, a)
    {
      if Reachable(E, t, a) {
        var w :| IsWalk(E, w) && w[0] == t && w[|w| - 1] == a;
        MoreArcs(E, L, w);
        References(library, source.id, t);
        JoinWalks(L, [source.id, t], w);
      }
    }
  }

  /**
   * With an id no reachable workflow uses, extraction makes no reference cycle and
   * removes none, and every workflow that could be reached still can.
   */
  lemma ExtractKeepsReferences(library: Library, source: WorkflowDef, input: ExtractInput)
    requires source.id in library && library[source.id] == source && DistinctPipelines(source.pipelines)
    ensures var r := ExtractPipeline(source, input);
            r.Ok? && Unused(library, source.id, r.value.extracted.id) ==>
              var E, F := ReferenceArcs(library), ReferenceArcs(AfterExtract(library, r.value));
              && (CycleReachable(F, source.id) <==> CycleReachable(E, source.id))
              && (forall b :: Reachable(E, source.id, b) ==> Reachable(F, source.id, b))
              && (forall b :: Reachable(F, source.id, b) ==> b == r.value.extracted.id || Reachable(E, source.id, b))
  {
    var r := ExtractPipeline(source, input);
    if r.Ok? && Unused(library, source.id, r.value.extracted.id) {
      NewIds(source, input);
      hide ExtractPipeline, Unused, DistinctPipelines, CycleReachable, Reachable, ComesBack;
      ExtractCyclesIff(library, source, input);
      ExtractKeepsReach(library, source, input);
      NothingComesBack(library, source, input);
      SameLeavingOut(library, source.id, r.value.extracted.id);
    }
  }
}
