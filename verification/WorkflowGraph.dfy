/** Detection of circular sub-workflow references: a depth-first search with a
    stack of workflows in progress and a set of workflows known to be safe. */
module WorkflowGraph {
  import opened Wrappers
  import opened Sequences
  import opened Graphs
  import opened Definitions

  const SUB_WORKFLOW_PIPE_TYPE := "workflow.sub"

  /** The workflow a pipe dispatches, if it is a `workflow.sub` pipe that names one. */
  function PipeTargets(pipe: PipeDef): set<Id> {
    if pipe.kind == SUB_WORKFLOW_PIPE_TYPE && pipe.workflowId.Some? && |pipe.workflowId.value| > 0
    then {pipe.workflowId.value} else {}
  }

  function PipelineTargets(pipes: seq<PipeDef>): set<Id> {
    if pipes == [] then {} else PipelineTargets(pipes[..|pipes| - 1]) + PipeTargets(pipes[|pipes| - 1])
  }

  /** Every workflow some `workflow.sub` pipe of the pipelines names. */
  function Targets(pipelines: seq<PipelineDef>): set<Id> {
    if pipelines == [] then {}
    else Targets(pipelines[..|pipelines| - 1]) + PipelineTargets(pipelines[|pipelines| - 1].pipes)
  }

  /** The distinct workflow ids referenced, in order of first mention. */
  method ReferencedWorkflowIds(w: WorkflowDef) returns (ids: seq<Id>)
    ensures forall t :: t in ids <==> t in Targets(w.pipelines)
    ensures Distinct(ids)
  {
    ids := [];
    for i := 0 to |w.pipelines|
      invariant forall t :: t in ids <==> t in Targets(w.pipelines[..i])
      invariant Distinct(ids)
    {
      var pipes := w.pipelines[i].pipes;
      ghost var before := Targets(w.pipelines[..i]);
      for j := 0 to |pipes|
        invariant forall t :: t in ids <==> t in before || t in PipelineTargets(pipes[..j])
        invariant Distinct(ids)
      {
        assert pipes[..j + 1][..j] == pipes[..j];
        if pipes[j].kind == SUB_WORKFLOW_PIPE_TYPE && pipes[j].workflowId.Some? {
          var target := pipes[j].workflowId.value;
          if |target| > 0 && target !in ids { ids := ids + [target]; }
        }
      }
      assert pipes[..|pipes|] == pipes;
      assert w.pipelines[..i + 1][..i] == w.pipelines[..i];
    }
    assert w.pipelines[..|w.pipelines|] == w.pipelines;
  }

  function IndexOf(s: seq<Id>, id: Id): (i: nat)
    requires id in s
    ensures i < |s| && s[i] == id && id !in s[..i]
  {
    if s[0] == id then 0 else 1 + IndexOf(s[1..], id)
  }

  type Library = map<Id, WorkflowDef>

  /** `lookup(id)` gives a document that calls itself `id`. */
  ghost predicate Stable(library: Library) {
    forall id :: id in library ==> library[id].id == id
  }

  /** References between workflows the library knows. */
  ghost function ReferenceArcs(library: Library): set<Arc> {
    set a, b | a in library && b in library && b in Targets(library[a].pipelines) :: Arc(a, b)
  }

  /** The documents the search sees: the root as given, everything else as stored. */
  function Seen(root: WorkflowDef, library: Library): Library {
    library[root.id := root]
  }

  /** A reference cycle through known workflows can be reached from `start`. */
  ghost predicate CycleReachable(E: set<Arc>, start: Id) {
    exists c :: ClosedWalk(E, c) && Reachable(E, start, c[0])
  }

  /** `S` is closed under references and no cycle passes through it. */
  ghost predicate Safe(E: set<Arc>, S: set<Id>) {
    && (forall a, b :: a in S && Arc(a, b) in E ==> b in S)
    && (forall c :: ClosedWalk(E, c) ==> c[0] !in S)
  }

  lemma {:induction false} ClosedSetHoldsWalk(E: set<Arc>, S: set<Id>, w: seq<Id>, i: nat, j: nat)
    requires forall a, b :: a in S && Arc(a, b) in E ==> b in S
    requires IsWalk(E, w) && i <= j < |w| && w[i] in S
    ensures w[j] in S
    decreases j
  {
    if i < j {
      ClosedSetHoldsWalk(E, S, w, i, j - 1);
      assert Arc(w[j - 1], w[j]) in E;
    }
  }

  /** A workflow all of whose known targets are safe is safe itself. */
  lemma SafeGrows(E: set<Arc>, S: set<Id>, n: Id)
    requires Safe(E, S) && n !in S
    requires forall b :: Arc(n, b) in E ==> b in S
    ensures Safe(E, S + {n})
  {
    forall c | ClosedWalk(E, c) ensures c[0] !in S + {n} {
      if c[0] == n {
        assert Arc(c[0], c[1]) in E;
        ClosedSetHoldsWalk(E, S, c, 1, |c| - 1);
      }
    }
  }

  lemma SafeMeansNoCycleReachable(E: set<Arc>, S: set<Id>, start: Id)
    requires Safe(E, S) && start in S
    ensures !CycleReachable(E, start)
  {
    forall c | ClosedWalk(E, c) && Reachable(E, start, c[0]) ensures false {
      var w :| IsWalk(E, w) && w[0] == start && w[|w| - 1] == c[0];
      ClosedSetHoldsWalk(E, S, w, 0, |w| - 1);
    }
  }

  lemma WalkGrows(E: set<Arc>, w: seq<Id>, n: Id)
    requires IsWalk(E, w) && Arc(w[|w| - 1], n) in E
    ensures IsWalk(E, w + [n])
  {
    var u := w + [n];
    forall i | 0 < i < |u| ensures Arc(u[i - 1], u[i]) in E {
      assert i < |w| ==> u[i] == w[i];
    }
  }

  /** A closed walk of reference edges that can be reached from `start`. */
  ghost predicate RealCycle(E: set<Arc>, start: Id, path: seq<Id>) {
    ClosedWalk(E, path) && Reachable(E, start, path[0])
  }

  /** An edge from the top of the stack back into it closes a real cycle. */
  lemma BackEdge(E: set<Arc>, stack: seq<Id>, i: nat)
    requires IsWalk(E, stack) && i < |stack|
    requires Arc(stack[|stack| - 1], stack[i]) in E
    ensures RealCycle(E, stack[0], stack[i..] + [stack[i]])
  {
    SubWalk(E, stack, i, |stack|);
    assert stack[i..|stack|] == stack[i..];
    WalkGrows(E, stack[i..], stack[i]);
    SubWalk(E, stack, 0, i + 1);
    var prefix := stack[0..i + 1];
    assert prefix[0] == stack[0] && prefix[i] == stack[i];
  }

  class CycleSearch {
    const root: WorkflowDef
    const library: Library
    var safe: set<Id>
    var stack: seq<Id>

    constructor (root: WorkflowDef, library: Library)
      ensures this.root == root && this.library == library
      ensures safe == {} && stack == []
    {
      this.root, this.library := root, library;
      safe, stack := {}, [];
    }

    ghost function Arcs(): set<Arc> {
      ReferenceArcs(Seen(root, library))
    }

    /** A walk of distinct known workflows from the root, none of them done. */
    ghost predicate InProgress(s: seq<Id>, done: set<Id>) {
      && (s != [] ==> IsWalk(Arcs(), s) && s[0] == root.id)
      && Distinct(s)
      && (forall x :: x in s ==> x in Seen(root, library) && x !in done)
    }

    ghost predicate Valid()
      reads this
    {
      Stable(library) && Safe(Arcs(), safe) && InProgress(stack, safe)
    }

    /** `id` may be visited next: it is the root, or the last workflow on the stack references it. */
    ghost predicate Next(s: seq<Id>, id: Id) {
      && id in Seen(root, library)
      && id !in s
      && if s == [] then id == root.id else Arc(s[|s| - 1], id) in Arcs()
    }

    lemma Push(s: seq<Id>, done: set<Id>, id: Id)
      requires InProgress(s, done) && Next(s, id) && id !in done
      ensures InProgress(s + [id], done)
      ensures |s| < |Seen(root, library)|
    {
      if s != [] {
        WalkGrows(Arcs(), s, id);
      }
      DistinctWithin(s + [id], Seen(root, library).Keys);
    }

    lemma Pop(s: seq<Id>, id: Id, done: set<Id>)
      requires InProgress(s + [id], done)
      ensures InProgress(s, done + {id}) && id !in done
    {
      var t := s + [id];
      assert t[|s|] == id;
      assert forall i :: 0 <= i < |s| ==> s[i] == t[i];
      if s != [] {
        SubWalk(Arcs(), t, 0, |s|);
        assert t[0..|s|] == s;
      }
    }

    lemma OutArcs(w: WorkflowDef)
      requires w.id in Seen(root, library) && Seen(root, library)[w.id] == w
      ensures forall t :: Arc(w.id, t) in Arcs() <==> t in Targets(w.pipelines) && t in Seen(root, library)
    {
    }

    /** Throws (`Err`) with a real cycle, or leaves the workflow safe. The check for the
        workflow's own id on the stack, made before it is pushed, never fires. */
    method Visit(w: WorkflowDef) returns (r: Result<(), seq<Id>>)
      requires Valid() && Next(stack, w.id) && Seen(root, library)[w.id] == w
      modifies this
      ensures stack == old(stack) && old(safe) <= safe
      ensures r.Ok? ==> Valid() && w.id in safe
      ensures r.Err? ==> RealCycle(Arcs(), root.id, r.error)
      decreases |Seen(root, library)| - |stack|, 0
    {
      if w.id in safe { return Ok(()); }
      if w.id in stack { assert false; }
      Push(stack, safe, w.id);
      OutArcs(w);
      hide ReferenceArcs, Targets, InProgress, Safe, RealCycle;
      ghost var stack0 := stack;
      stack := stack + [w.id];
      var targets := ReferencedWorkflowIds(w);
      for i := 0 to |targets|
        invariant Valid() && stack == stack0 + [w.id] && old(safe) <= safe
        invariant forall k :: 0 <= k < i && targets[k] in Seen(root, library) ==> targets[k] in safe
      {
        var result := Follow(w, targets[i]);
        if result.Err? {
          stack := stack[..|stack| - 1];
          return result;
        }
      }
      stack := stack[..|stack| - 1];
      Pop(stack0, w.id, safe);
      SafeGrows(Arcs(), safe, w.id);
      safe := safe + {w.id};
      r := Ok(());
    }

    /** One turn of the loop of `Visit`: a target already on the stack closes a cycle, a known one is visited. */
    method Follow(w: WorkflowDef, target: Id) returns (r: Result<(), seq<Id>>)
      requires Valid() && stack != [] && stack[|stack| - 1] == w.id && Seen(root, library)[w.id] == w
      requires target in Targets(w.pipelines)
      modifies this
      ensures stack == old(stack) && old(safe) <= safe
      ensures r.Ok? ==> Valid() && (target in Seen(root, library) ==> target in safe)
      ensures r.Err? ==> RealCycle(Arcs(), root.id, r.error)
      decreases |Seen(root, library)| - |stack|, 1
    {
      OutArcs(w);
      hide ReferenceArcs, Targets;
      if target in stack {
        var c := IndexOf(stack, target);
        BackEdge(Arcs(), stack, c);
        return Err(stack[c..] + [target]);
      }
      if target in library {
        assert target != root.id;
        r := Visit(library[target]);
      } else {
        r := Ok(());
      }
    }

    /** Throws exactly when a cycle of known references can be reached from the root. */
    method AssertNoWorkflowCycles() returns (r: Result<(), seq<Id>>)
      requires Stable(library) && safe == {} && stack == []
      modifies this
      ensures r.Err? <==> CycleReachable(Arcs(), root.id)
      ensures r.Err? ==> RealCycle(Arcs(), root.id, r.error)
    {
      r := Visit(root);
      if r.Ok? {
        SafeMeansNoCycleReachable(Arcs(), safe, root.id);
      }
    }
  }
}
