/** Workflow documents: workflow > pipeline > pipe, with the fields the modelled code reads. */
module Definitions {
  import opened Wrappers
  import opened Graphs

  datatype Role = Trigger | Source | Transform | Sink

  /** `workflowId` is `config['workflowId']` when that is a string. */
  datatype PipeDef = PipeDef(id: Id, role: Role, kind: string, workflowId: Option<Id>,
                             workflowVersion: Option<nat>, concurrency: Option<nat>)

  /** A JSON value as contracts see it. `Num` carries a finite number; `NotFinite` is NaN or an infinity. */
  datatype Value = Undefined | Null | Bool(b: bool) | Num(n: real) | NotFinite | Str(s: string) | Other(tag: nat)

  datatype OnError = Reject | ToNull | ToDefault

  datatype UnknownFields = Drop | Passthrough | Fail

  /** `default` is `coerce?.default`. */
  datatype FieldDef = FieldDef(name: string, sqlType: string, nullable: bool, default: Option<Value>, onError: OnError)

  datatype ContractDef = ContractDef(fields: seq<FieldDef>, unknownFields: UnknownFields)

  datatype EdgeDef = EdgeDef(from: Id, to: Id, fromPort: Option<string>, contract: Option<ContractDef>)

  datatype PipelineDef = PipelineDef(id: Id, name: string, task: Option<string>, pipes: seq<PipeDef>,
                                     edges: seq<EdgeDef>)

  datatype DependencyDef = DependencyDef(from: Id, to: Id, on: string, gate: Option<string>)

  datatype Origin = Authored | Imported

  datatype WorkflowDef = WorkflowDef(id: Id, name: string, purpose: string, tags: seq<string>, version: int,
                                     origin: Origin, pipelines: seq<PipelineDef>,
                                     dependencies: seq<DependencyDef>, allowFrom: seq<Id>)

  function PipelineIds(w: WorkflowDef): (ids: seq<Id>)
    ensures |ids| == |w.pipelines|
  {
    seq(|w.pipelines|, i requires 0 <= i < |w.pipelines| => w.pipelines[i].id)
  }

  predicate DistinctPipelines(pipelines: seq<PipelineDef>) {
    forall i, j :: 0 <= i < j < |pipelines| ==> pipelines[i].id != pipelines[j].id
  }

  function DependencyArcs(deps: seq<DependencyDef>): (arcs: seq<Arc>)
    ensures |arcs| == |deps|
  {
    seq(|deps|, i requires 0 <= i < |deps| => Arc(deps[i].from, deps[i].to))
  }

  function PipeIds(p: PipelineDef): (ids: seq<Id>)
    ensures |ids| == |p.pipes|
  {
    seq(|p.pipes|, i requires 0 <= i < |p.pipes| => p.pipes[i].id)
  }

  function EdgeArcs(edges: seq<EdgeDef>): (arcs: seq<Arc>)
    ensures |arcs| == |edges|
  {
    seq(|edges|, i requires 0 <= i < |edges| => Arc(edges[i].from, edges[i].to))
  }
}
