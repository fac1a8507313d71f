/** The topological planner: Kahn's algorithm in waves. */
module Plan {
  import opened Wrappers
  import opened Sequences
  import opened Graphs
  import opened Sorting

  datatype ExecutionPlan = ExecutionPlan(waves: seq<seq<Id>>, order: seq<Id>)

  /** The two ways `topoPlan` throws: an edge leaves an id it was not given, or a cycle. */
  datatype PlanError = UnknownSource | Cycle

  function Flatten(waves: seq<seq<Id>>): seq<Id> {
    if waves == [] then [] else Flatten(waves[..|waves| - 1]) + waves[|waves| - 1]
  }

  ghost function Elems(s: seq<Id>): set<Id> {
    set n | n in s
  }

  lemma ElemsAppend(s: seq<Id>, j: nat)
    requires j < |s|
    ensures s[..j + 1] == s[..j] + [s[j]]
    ensures Elems(s[..j + 1]) == Elems(s[..j]) + {s[j]}
  {
  }

  ghost function ArcSet(edges: seq<Arc>): set<Arc> {
    set e | e in edges
  }

  /** The keys of the indegree map: the ids, and every id an edge points at. */
  ghost function Nodes(ids: seq<Id>, edges: seq<Arc>): set<Id> {
    Elems(ids) + (set e | e in edges :: e.to)
  }

  ghost predicate SourcesKnown(ids: seq<Id>, edges: seq<Arc>) {
    forall e :: e in edges ==> e.from in ids
  }

  /** The nodes with a longest incoming walk, that is, not downstream of a cycle. */
  ghost function Settled(E: set<Arc>, V: set<Id>): set<Id> {
    set n | n in V && exists k: nat :: !WalkEndsAt(E, n, k)
  }

  // ---- what a plan is ----

  /** Wave `i` holds, in sorted order, exactly the nodes of `V` whose longest incoming walk has `i` arcs. */
  ghost predicate IsWave(E: set<Arc>, V: set<Id>, wave: seq<Id>, i: nat) {
    && wave != []
    && StrictlySorted(wave)
    && forall n :: n in wave <==> n in V && Level(E, n, i)
  }

  ghost predicate LevelBelow(E: set<Arc>, n: Id, w: nat) {
    exists i :: 0 <= i < w && Level(E, n, i)
  }

  ghost predicate AreWaves(E: set<Arc>, V: set<Id>, waves: seq<seq<Id>>) {
    forall i :: 0 <= i < |waves| ==> IsWave(E, V, waves[i], i)
  }

  lemma WavesAppend(E: set<Arc>, V: set<Id>, waves: seq<seq<Id>>, wave: seq<Id>)
    requires AreWaves(E, V, waves) && IsWave(E, V, wave, |waves|)
    ensures AreWaves(E, V, waves + [wave]) && Flatten(waves + [wave]) == Flatten(waves) + wave
  {
    assert (waves + [wave])[..|waves|] == waves;
    forall i | 0 <= i < |waves + [wave]| ensures IsWave(E, V, (waves + [wave])[i], i) {
      assert i < |waves| ==> (waves + [wave])[i] == waves[i];
    }
  }

  ghost predicate IsPlan(E: set<Arc>, V: set<Id>, plan: ExecutionPlan) {
    && AreWaves(E, V, plan.waves)
    && (forall n :: n in V ==> LevelBelow(E, n, |plan.waves|))
    && plan.order == Flatten(plan.waves)
  }

  /** What `topoPlan` returns or throws, for every list of ids and edges. */
  ghost predicate PlanOutcome(ids: seq<Id>, edges: seq<Arc>, r: Result<ExecutionPlan, PlanError>) {
    var E, V := ArcSet(edges), Nodes(ids, edges);
    if !SourcesKnown(ids, edges) then r == Err(UnknownSource)
    else if |Settled(E, V)| != |ids| then r == Err(Cycle)
    else r.Ok? && IsPlan(E, Settled(E, V), r.value)
  }

  // ---- counting incoming edges ----

  /** Edges into `n` whose source is not done yet, with multiplicity. */
  ghost function InCount(edges: seq<Arc>, n: Id, done: seq<Id>): nat {
    if edges == [] then 0 else
      var e := edges[|edges| - 1];
      InCount(edges[..|edges| - 1], n, done) + if e.to == n && e.from !in done then 1 else 0
  }

  /** Where the edges leaving `id` go, in edge order. */
  ghost function OutList(edges: seq<Arc>, id: Id): seq<Id> {
    if edges == [] then [] else
      var e := edges[|edges| - 1];
      OutList(edges[..|edges| - 1], id) + if e.from == id then [e.to] else []
  }

  ghost function Occurrences(s: seq<Id>, n: Id): nat {
    multiset(s)[n]
  }

  lemma {:induction false} InCountZero(edges: seq<Arc>, n: Id, done: seq<Id>)
    ensures InCount(edges, n, done) == 0 <==> forall p :: Arc(p, n) in ArcSet(edges) ==> p in done
  {
    if edges != [] {
      var front := edges[..|edges| - 1];
      assert edges == front + [edges[|edges| - 1]];
      InCountZero(front, n, done);
    }
  }

  lemma {:induction false} InCountDone(edges: seq<Arc>, n: Id, done: seq<Id>, id: Id)
    requires id !in done
    ensures InCount(edges, n, done) == InCount(edges, n, done + [id]) + Occurrences(OutList(edges, id), n)
  {
    if edges != [] {
      InCountDone(edges[..|edges| - 1], n, done, id);
    }
  }

  lemma {:induction false} OutListMembers(edges: seq<Arc>, id: Id)
    ensures forall t :: t in OutList(edges, id) <==> Arc(id, t) in ArcSet(edges)
  {
    if edges != [] {
      var front := edges[..|edges| - 1];
      assert edges == front + [edges[|edges| - 1]];
      OutListMembers(front, id);
      assert forall e :: e in edges <==> e in front || e == edges[|edges| - 1];
    }
  }

  // ---- the algorithm ----

  /** Every id with indegree 0 and no downstream; `keys` is the insertion order of the indegree map. */
  method InitMaps(ids: seq<Id>) returns (keys: seq<Id>, indegree: map<Id, nat>, downstream: map<Id, seq<Id>>)
    ensures Distinct(keys)
    ensures forall n :: n in keys <==> n in indegree
    ensures indegree.Keys == downstream.Keys == Elems(ids)
    ensures forall n :: n in indegree ==> indegree[n] == 0 && downstream[n] == []
  {
    keys, indegree, downstream := [], map[], map[];
    for i := 0 to |ids|
      invariant Distinct(keys)
      invariant forall n :: n in keys <==> n in indegree
      invariant indegree.Keys == downstream.Keys == Elems(ids[..i])
      invariant forall n :: n in indegree ==> indegree[n] == 0 && downstream[n] == []
    {
      ElemsAppend(ids, i);
      if ids[i] !in indegree { keys := keys + [ids[i]]; }
      indegree := indegree[ids[i] := 0];
      downstream := downstream[ids[i] := []];
    }
    assert ids[..|ids|] == ids;
  }

  /** The two maps after the edges `edges` have been added. */
  ghost predicate MapsFor(ids: seq<Id>, edges: seq<Arc>, keys: seq<Id>, indegree: map<Id, nat>,
                          downstream: map<Id, seq<Id>>) {
    && Distinct(keys)
    && (forall n :: n in keys <==> n in indegree)
    && indegree.Keys == Nodes(ids, edges)
    && (forall n :: n in indegree ==> indegree[n] == InCount(edges, n, []))
    && downstream.Keys == Elems(ids)
    && (forall id :: id in downstream ==> downstream[id] == OutList(edges, id))
  }

  method BuildMaps(ids: seq<Id>, edges: seq<Arc>)
    returns (ok: bool, keys: seq<Id>, indegree: map<Id, nat>, downstream: map<Id, seq<Id>>)
    ensures ok <==> SourcesKnown(ids, edges)
    ensures ok ==> MapsFor(ids, edges, keys, indegree, downstream)
  {
    keys, indegree, downstream := InitMaps(ids);
    for i := 0 to |edges|
      invariant SourcesKnown(ids, edges[..i])
      invariant MapsFor(ids, edges[..i], keys, indegree, downstream)
    {
      var e := edges[i];
      assert edges[..i + 1] == edges[..i] + [e];
      ok := e.from in downstream;
      if !ok {
        assert e in edges;
        return;
      }
      keys, indegree, downstream := AddEdge(ids, edges[..i], e, keys, indegree, downstream);
    }
    assert edges[..|edges|] == edges;
    ok := true;
  }

  lemma NodesAppend(ids: seq<Id>, edges: seq<Arc>, e: Arc)
    ensures Nodes(ids, edges + [e]) == Nodes(ids, edges) + {e.to}
  {
    forall x | x in edges ensures x in edges + [e] {}
    assert e in edges + [e];
  }

  lemma {:induction false} FreshTarget(ids: seq<Id>, edges: seq<Arc>, n: Id)
    requires n !in Nodes(ids, edges)
    ensures InCount(edges, n, []) == 0
  {
    if edges != [] {
      var front := edges[..|edges| - 1];
      assert edges == front + [edges[|edges| - 1]];
      NodesAppend(ids, front, edges[|edges| - 1]);
      FreshTarget(ids, front, n);
    }
  }

  lemma CountsAppend(edges: seq<Arc>, e: Arc, n: Id)
    ensures InCount(edges + [e], n, []) == InCount(edges, n, []) + if e.to == n then 1 else 0
    ensures OutList(edges + [e], n) == OutList(edges, n) + if e.from == n then [e.to] else []
  {
    assert (edges + [e])[..|edges|] == edges;
  }

  /** The maps after one more edge. */
  method AddEdge(ids: seq<Id>, ghost edges: seq<Arc>, e: Arc, keys0: seq<Id>, indegree0: map<Id, nat>,
                 downstream0: map<Id, seq<Id>>)
    returns (keys: seq<Id>, indegree: map<Id, nat>, downstream: map<Id, seq<Id>>)
    requires MapsFor(ids, edges, keys0, indegree0, downstream0) && e.from in downstream0
    ensures MapsFor(ids, edges + [e], keys, indegree, downstream)
  {
    keys := if e.to in indegree0 then keys0 else keys0 + [e.to];
    indegree := indegree0[e.to := (if e.to in indegree0 then indegree0[e.to] else 0) + 1];
    downstream := downstream0[e.from := downstream0[e.from] + [e.to]];
    NodesAppend(ids, edges, e);
    if e.to !in indegree0 {
      FreshTarget(ids, edges, e.to);
    }
    forall n
      ensures InCount(edges + [e], n, []) == InCount(edges, n, []) + if e.to == n then 1 else 0
      ensures OutList(edges + [e], n) == OutList(edges, n) + if e.from == n then [e.to] else []
    {
      CountsAppend(edges, e, n);
    }
  }

  /** The sorted ids of indegree 0. */
  method InitialReady(keys: seq<Id>, indegree: map<Id, nat>) returns (ready: seq<Id>)
    requires Distinct(keys) && forall n :: n in keys <==> n in indegree
    ensures StrictlySorted(ready)
    ensures forall n :: n in ready <==> n in indegree && indegree[n] == 0
  {
    ready := [];
    for i := 0 to |keys|
      invariant Distinct(ready)
      invariant forall n :: n in ready <==> n in keys[..i] && n in indegree && indegree[n] == 0
    {
      assert keys[..i + 1] == keys[..i] + [keys[i]];
      assert keys[i] in keys;
      if indegree[keys[i]] == 0 { ready := ready + [keys[i]]; }
    }
    assert keys[..|keys|] == keys;
    ready := Sort(ready);
  }

  /** Peel off waves until nothing is ready. */
  method PeelWaves(ids: seq<Id>, edges: seq<Arc>, downstream: map<Id, seq<Id>>, ghost V: set<Id>,
                   ready0: seq<Id>, indegree0: map<Id, nat>)
    returns (waves: seq<seq<Id>>, order: seq<Id>, settled: nat)
    requires SourcesKnown(ids, edges) && V == Nodes(ids, edges)
    requires downstream.Keys == Elems(ids)
    requires forall id :: id in downstream ==> downstream[id] == OutList(edges, id)
    requires CountsAfter(edges, V, indegree0, []) && IsReady(edges, V, [], ready0)
    ensures IsReady(edges, V, order, []) && DoneUpTo(ArcSet(edges), V, order, |waves|)
    ensures AreWaves(ArcSet(edges), V, waves) && order == Flatten(waves) && settled == |order|
  {
    ghost var E := ArcSet(edges);
    var ready, indegree := ready0, indegree0;
    waves, order, settled := [], [], 0;
    forall n | n in V ensures WalkEndsAt(E, n, 0) { WalkZero(E, n); }
    while |ready| > 0
      invariant IsReady(edges, V, order, ready)
      invariant DoneUpTo(E, V, order, |waves|)
      invariant CountsAfter(edges, V, indegree, order)
      invariant AreWaves(E, V, waves) && order == Flatten(waves)
      invariant settled == |order| <= |V|
      decreases |V| - |order|
    {
      ghost var done, wave := order, ready;
      WaveIsLevel(edges, ids, V, done, wave, |waves|);
      WavesAppend(E, V, waves, wave);
      var next;
      indegree, order, settled, next := RunWave(ids, edges, downstream, V, ready, indegree, order, settled);
      NextIsReady(edges, V, done, wave, next);
      waves, ready := waves + [ready], Sort(next);
    }
  }

  method TopoPlan(ids: seq<Id>, edges: seq<Arc>) returns (r: Result<ExecutionPlan, PlanError>)
    ensures PlanOutcome(ids, edges, r)
  {
    var ok, keys, indegree, downstream := BuildMaps(ids, edges);
    if !ok { return Err(UnknownSource); }
    ghost var V := Nodes(ids, edges);
    var ready := InitialReady(keys, indegree);
    var waves, order, settled := PeelWaves(ids, edges, downstream, V, ready, indegree);
    SettledIsDone(edges, ids, V, order, |waves|);
    if settled != |ids| { return Err(Cycle); }
    CoveredByWaves(ArcSet(edges), V, order, waves);
    r := Ok(ExecutionPlan(waves, order));
  }

  /** The ready list: every node not done all of whose predecessors are. */
  ghost predicate IsReady(edges: seq<Arc>, V: set<Id>, done: seq<Id>, ready: seq<Id>) {
    && Distinct(done)
    && StrictlySorted(ready)
    && (forall n :: n in ready <==> n in V && n !in done && InCount(edges, n, done) == 0)
    && (forall n :: n in done ==> n in V && InCount(edges, n, done) == 0)
  }

  /** After `w` waves exactly the nodes no walk of `w` arcs ends at are done. */
  ghost predicate DoneUpTo(E: set<Arc>, V: set<Id>, done: seq<Id>, w: nat) {
    (forall n :: n in V ==> (n in done <==> !WalkEndsAt(E, n, w)))
  }

  /** Decrement the indegree of each target, collecting those that reach 0. */
  method Release(outs: seq<Id>, indegree0: map<Id, nat>, next0: seq<Id>)
    returns (indegree: map<Id, nat>, next: seq<Id>)
    requires forall n :: n in outs ==> n in indegree0
    requires forall n :: n in indegree0 ==> Occurrences(outs, n) <= indegree0[n]
    requires Distinct(next0) && forall n :: n in next0 ==> n in indegree0 && indegree0[n] == 0
    ensures indegree.Keys == indegree0.Keys
    ensures forall n :: n in indegree ==> indegree[n] == indegree0[n] - Occurrences(outs, n)
    ensures Distinct(next)
    ensures forall n :: n in next <==> n in next0 || (n in indegree && indegree0[n] > 0 && indegree[n] == 0)
  {
    indegree, next := indegree0, next0;
    for k := 0 to |outs|
      invariant indegree.Keys == indegree0.Keys
      invariant forall n :: n in indegree ==> indegree[n] == indegree0[n] - Occurrences(outs[..k], n)
      invariant Distinct(next)
      invariant forall n :: n in next <==> n in next0 || (n in indegree && indegree0[n] > 0 && indegree[n] == 0)
    {
      var to := outs[k];
      assert outs[..k + 1] == outs[..k] + [to];
      assert outs == outs[..k] + [to] + outs[k + 1..];
      assert to in outs;
      var deg := indegree[to] - 1;
      indegree := indegree[to := deg];
      if deg == 0 { next := next + [to]; }
    }
    assert outs[..|outs|] == outs;
  }

  ghost predicate CountsAfter(edges: seq<Arc>, V: set<Id>, indegree: map<Id, nat>, done: seq<Id>) {
    indegree.Keys == V && forall n :: n in V ==> indegree[n] == InCount(edges, n, done)
  }

  /** `next` holds the nodes whose last incoming edge was released since `done`. */
  ghost predicate Released(edges: seq<Arc>, V: set<Id>, done: seq<Id>, done': seq<Id>, next: seq<Id>) {
    && Distinct(next)
    && forall n :: n in next <==> n in V && InCount(edges, n, done') == 0 && InCount(edges, n, done) > 0
  }

  lemma OutsAreKnown(ids: seq<Id>, edges: seq<Arc>, id: Id)
    requires SourcesKnown(ids, edges)
    ensures forall n :: n in OutList(edges, id) ==> n in Nodes(ids, edges)
    ensures id !in ids ==> OutList(edges, id) == []
  {
    OutListMembers(edges, id);
    forall n | n in OutList(edges, id) ensures n in Nodes(ids, edges) && id in ids {
      assert Arc(id, n) in edges;
      assert Arc(id, n).to in Nodes(ids, edges);
    }
    assert OutList(edges, id) != [] ==> OutList(edges, id)[0] in OutList(edges, id);
  }

  lemma ReleaseBounded(edges: seq<Arc>, V: set<Id>, indegree: map<Id, nat>, done: seq<Id>, id: Id)
    requires CountsAfter(edges, V, indegree, done) && id !in done
    ensures forall n :: n in indegree ==> Occurrences(OutList(edges, id), n) <= indegree[n]
  {
    forall n | n in indegree { InCountDone(edges, n, done, id); }
  }

  /** Releasing what `id` feeds is exactly marking `id` done. */
  lemma ReleaseFits(edges: seq<Arc>, V: set<Id>, indegree: map<Id, nat>, done: seq<Id>, id: Id,
                    indegree': map<Id, nat>)
    requires CountsAfter(edges, V, indegree, done) && id !in done && indegree'.Keys == V
    requires forall n :: n in indegree' ==> indegree'[n] == indegree[n] - Occurrences(OutList(edges, id), n)
    ensures CountsAfter(edges, V, indegree', done + [id])
  {
    forall n | n in V ensures indegree'[n] == InCount(edges, n, done + [id]) {
      InCountDone(edges, n, done, id);
    }
  }

  lemma ReleasedStep(edges: seq<Arc>, V: set<Id>, done: seq<Id>, before: seq<Id>, indegree: map<Id, nat>,
                     next: seq<Id>, id: Id, indegree': map<Id, nat>, next': seq<Id>)
    requires (forall p :: p in done ==> p in before) && CountsAfter(edges, V, indegree, before)
    requires Released(edges, V, done, before, next)
    requires CountsAfter(edges, V, indegree', before + [id]) && Distinct(next')
    requires forall n :: n in next' <==> n in next || (n in V && indegree[n] > 0 && indegree'[n] == 0)
    ensures Released(edges, V, done, before + [id], next')
  {
    forall n
      ensures InCount(edges, n, before) <= InCount(edges, n, done)
      ensures InCount(edges, n, before + [id]) <= InCount(edges, n, before)
    {
      InCountMonotone(edges, n, done, before);
      InCountMonotone(edges, n, before, before + [id]);
    }
  }

  /** One pass over a ready list, releasing everything downstream of it. */
  method RunWave(ids: seq<Id>, edges: seq<Arc>, downstream: map<Id, seq<Id>>, ghost V: set<Id>,
                 ready: seq<Id>, indegree0: map<Id, nat>, order0: seq<Id>, settled0: nat)
    returns (indegree: map<Id, nat>, order: seq<Id>, settled: nat, next: seq<Id>)
    requires SourcesKnown(ids, edges) && V == Nodes(ids, edges)
    requires downstream.Keys == Elems(ids)
    requires forall id :: id in downstream ==> downstream[id] == OutList(edges, id)
    requires CountsAfter(edges, V, indegree0, order0) && settled0 == |order0|
    requires Distinct(ready) && forall n :: n in ready ==> n !in order0
    ensures order == order0 + ready && settled == |order|
    ensures CountsAfter(edges, V, indegree, order)
    ensures Released(edges, V, order0, order, next)
  {
    indegree, order, settled, next := indegree0, order0, settled0, [];
    for j := 0 to |ready|
      invariant order == order0 + ready[..j] && settled == |order|
      invariant CountsAfter(edges, V, indegree, order)
      invariant Released(edges, V, order0, order, next)
    {
      var id := ready[j];
      ghost var before, was, had := order, indegree, next;
      NotYet(order0, ready, j);
      OutsAreKnown(ids, edges, id);
      ReleaseBounded(edges, V, indegree, order, id);
      var outs := if id in downstream then downstream[id] else [];
      order, settled := order + [id], settled + 1;
      indegree, next := Release(outs, indegree, next);
      ReleaseFits(edges, V, was, before, id, indegree);
      ReleasedStep(edges, V, order0, before, was, had, id, indegree, next);
    }
    assert ready[..|ready|] == ready;
  }

  lemma NotYet(order0: seq<Id>, ready: seq<Id>, j: nat)
    requires Distinct(ready) && (forall n :: n in ready ==> n !in order0) && j < |ready|
    ensures ready[j] !in order0 + ready[..j]
    ensures order0 + ready[..j + 1] == order0 + ready[..j] + [ready[j]]
  {
    assert ready[j] in ready;
  }

  lemma {:induction false} InCountMonotone(edges: seq<Arc>, n: Id, small: seq<Id>, big: seq<Id>)
    requires forall p :: p in small ==> p in big
    ensures InCount(edges, n, big) <= InCount(edges, n, small)
  {
    if edges != [] {
      InCountMonotone(edges[..|edges| - 1], n, small, big);
    }
  }

  lemma NextIsReady(edges: seq<Arc>, V: set<Id>, done: seq<Id>, ready: seq<Id>, next: seq<Id>)
    requires IsReady(edges, V, done, ready)
    requires Released(edges, V, done, done + ready, next)
    ensures IsReady(edges, V, done + ready, Sort(next))
    ensures |done + ready| <= |V|
  {
    var done' := done + ready;
    SortedIsDistinct(ready);
    forall n ensures InCount(edges, n, done') <= InCount(edges, n, done) {
      InCountMonotone(edges, n, done, done');
    }
    forall i, j | 0 <= i < j < |done'| ensures done'[i] != done'[j] {
      assert done'[i] in done || done'[i] in ready;
    }
    DistinctWithin(done', V);
  }

  lemma WaveIsLevel(edges: seq<Arc>, ids: seq<Id>, V: set<Id>, done: seq<Id>, ready: seq<Id>, w: nat)
    requires SourcesKnown(ids, edges) && V == Nodes(ids, edges)
    requires IsReady(edges, V, done, ready) && DoneUpTo(ArcSet(edges), V, done, w) && ready != []
    ensures IsWave(ArcSet(edges), V, ready, w)
    ensures DoneUpTo(ArcSet(edges), V, done + ready, w + 1)
    ensures Distinct(ready) && forall n :: n in ready ==> n !in done
  {
    var E := ArcSet(edges);
    SortedIsDistinct(ready);
    forall n | n in V
      ensures !WalkEndsAt(E, n, w + 1) <==> InCount(edges, n, done) == 0
    {
      InCountZero(edges, n, done);
      StepBack(E, n, w);
      forall p | Arc(p, n) in E ensures p in V {}
    }
  }

  lemma SettledIsDone(edges: seq<Arc>, ids: seq<Id>, V: set<Id>, done: seq<Id>, w: nat)
    requires SourcesKnown(ids, edges) && V == Nodes(ids, edges)
    requires IsReady(edges, V, done, []) && DoneUpTo(ArcSet(edges), V, done, w)
    ensures Elems(done) == Settled(ArcSet(edges), V)
    ensures |done| == |Settled(ArcSet(edges), V)|
  {
    var E := ArcSet(edges);
    var R := V - Elems(done);
    forall n | n in R ensures HasPredecessorIn(E, R, n) {
      assert n !in [];
      InCountZero(edges, n, done);
      var p :| Arc(p, n) in E && p !in done;
      assert p in V;
    }
    forall n | n in R, k: nat ensures WalkEndsAt(E, n, k) {
      BackClosedWalks(E, R, n, k);
    }
    DistinctWithin(done, Elems(done));
  }

  /** Every node done after `w` waves has a level below `w`. */
  lemma {:induction false} BoundedHasLevel(E: set<Arc>, n: Id, w: nat)
    requires !WalkEndsAt(E, n, w)
    ensures LevelBelow(E, n, w)
  {
    WalkZero(E, n);
    if WalkEndsAt(E, n, w - 1) {
      assert Level(E, n, w - 1);
    } else {
      BoundedHasLevel(E, n, w - 1);
    }
  }

  lemma WaveWithinDone(E: set<Arc>, V: set<Id>, done: seq<Id>, wave: seq<Id>, i: nat, w: nat)
    requires DoneUpTo(E, V, done, w) && i < w && IsWave(E, V, wave, i)
    requires forall n :: n in done ==> n in V
    ensures IsWave(E, Elems(done), wave, i)
  {
    forall n | n in V && Level(E, n, i) ensures n in done {
      if WalkEndsAt(E, n, w) { ShorterWalk(E, n, i + 1, w); }
    }
  }

  lemma CoveredByWaves(E: set<Arc>, V: set<Id>, done: seq<Id>, waves: seq<seq<Id>>)
    requires forall n :: n in done ==> n in V
    requires DoneUpTo(E, V, done, |waves|)
    requires AreWaves(E, V, waves)
    ensures IsPlan(E, Elems(done), ExecutionPlan(waves, Flatten(waves)))
  {
    forall n | n in done ensures LevelBelow(E, n, |waves|) {
      BoundedHasLevel(E, n, |waves|);
    }
    forall i | 0 <= i < |waves| ensures IsWave(E, Elems(done), waves[i], i) {
      WaveWithinDone(E, V, done, waves[i], i, |waves|);
    }
  }
}
