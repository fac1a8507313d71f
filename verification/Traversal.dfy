/**
 * One batch's way through a pipeline as it runs (packages/workflow-engine/src/runtime/executor.ts):
 * a pipe's operation, then its ported batches one after another, the edges of one port at once.
 * A promise that rejects stops nobody else: what was started goes on.
 */
module Traversal {
  import opened Wrappers
  import opened Graphs
  import opened Definitions
  import opened Contracts
  import opened Routing

  /** Where one edge's delivery stands: before, in and after the pipe's operation, and how its promise was
      settled. An edge whose contract turns every record away only announces that. */
  datatype Stage = Announcing | Queued | Running | Sending | Ended | Skipped | Failed

  /**
   * `strays` counts operations of this pipe that passed their deadline and still run;
   * `groups` holds, for each ported batch sent so far, the deliveries along its edges.
   */
  datatype Task = Task(item: Item, stage: Stage, strays: nat, groups: seq<Group>)

  datatype Group = Group(branches: seq<Task>)

  function Fresh(item: Item): Task {
    Task(item, Queued, 0, [])
  }

  function Announced(item: Item): Task {
    Task(item, Announcing, 0, [])
  }

  /** A source routes what it read; it has no operation of its own. */
  function Root(item: Item): Task {
    Task(item, Sending, 0, [])
  }

  predicate Settled(t: Task) {
    t.stage.Ended? || t.stage.Skipped? || t.stage.Failed?
  }

  predicate Fine(t: Task) {
    t.stage.Ended? || t.stage.Skipped?
  }

  // ---- what a delivery sends ----

  function Port(net: Net, item: Item): string {
    DefaultOutputPort(net.declared(item.pipe))
  }

  /** The ported batches of a delivery, in the order they are sent. */
  function Ports(net: Net, item: Item): seq<Ported> {
    NormalizePortedBatches(net.work(item), Port(net, item))
  }

  /** The deliveries along the edges of the `k`-th of them. */
  ghost function Branches(net: Net, item: Item, k: nat): seq<Item>
    requires k < |Ports(net, item)|
  {
    SendAlong(net, item.pipe, Ports(net, item)[k], Port(net, item), |net.edges|)
  }

  /** One ported batch as turned away, whole, along the first `n` edges. */
  ghost function TurnedAlong(net: Net, from: Id, item: Ported, port: string, n: nat): seq<Item>
    requires n <= |net.edges|
  {
    if n == 0 then [] else
      var e := net.edges[n - 1];
      TurnedAlong(net, from, item, port, n - 1)
      + if e.from == from && EdgeMatchesPort(e, item.port, port)
           && item.batch.records != [] && Carry(net, e, item.batch) == []
        then [Item(e.to, item.batch)] else []
  }

  ghost function Turned(net: Net, item: Item, k: nat): seq<Item>
    requires k < |Ports(net, item)|
  {
    TurnedAlong(net, item.pipe, Ports(net, item)[k], Port(net, item), |net.edges|)
  }

  /** The edge leaves the pipe by the port the batch is meant for, and its contract accepts none of its records. */
  ghost predicate TurnsAway(net: Net, from: Id, e: EdgeDef, place: Place, x: Item) {
    && e.from == from && x == Item(e.to, place.batch)
    && (exists p :: Means(net.declared(from), place.named, p) && Means(net.declared(from), e.fromPort, p))
    && place.batch.records != [] && e.contract.Some?
    && forall r :: r in place.batch.records ==> !Accepts(net.cv, e.contract.value, r)
  }

  lemma NothingCarriedIff(net: Net, e: EdgeDef, b: Batch)
    ensures b.records != [] && Carry(net, e, b) == []
       <==> b.records != [] && e.contract.Some? && forall r :: r in b.records ==> !Accepts(net.cv, e.contract.value, r)
  {
    if e.contract.Some? {
      var c := e.contract.value;
      CarryAccounts(net, e, b);
      ContractConserves(net.cv, c, b.records);
      var kept := Kept(net.cv, c, b.records);
      assert |multiset(b.records)| == |kept| + |Rejected(net.cv, c, b.records)|;
      forall r
        ensures r in kept <==> r in b.records && Accepts(net.cv, c, r)
      {
        ContractSorts(net.cv, c, b.records, r);
      }
      assert kept != [] ==> kept[0] in kept;
    }
  }

  lemma TurnedStep(net: Net, from: Id, item: Ported, n: nat, x: Item)
    requires n < |net.edges|
    ensures var port, e := DefaultOutputPort(net.declared(from)), net.edges[n];
            multiset(TurnedAlong(net, from, item, port, n + 1))[x]
            == multiset(TurnedAlong(net, from, item, port, n))[x]
               + if TurnsAway(net, from, e, Place(Some(item.port), item.batch), x) then 1 else 0
  {
    hide Carry, EdgeMatchesPort, DefaultOutputPort, Means;
    MatchesIff(net, from, net.edges[n], item.port);
    NothingCarriedIff(net, net.edges[n], item.batch);
  }

  ghost function TurningEdges(net: Net, from: Id, place: Place, x: Item, n: nat): set<nat>
    requires n <= |net.edges|
  {
    set i: nat | i < n && TurnsAway(net, from, net.edges[i], place, x)
  }

  lemma NothingTurned(net: Net, from: Id, item: Ported, port: string)
    ensures TurnedAlong(net, from, item, port, 0) == []
  {
  }

  /** The announcements of a ported batch: one for every such edge. */
  lemma {:induction false} TurnedExactly(net: Net, from: Id, item: Ported, n: nat, x: Item)
    requires n <= |net.edges|
    ensures multiset(TurnedAlong(net, from, item, DefaultOutputPort(net.declared(from)), n))[x]
         == |TurningEdges(net, from, Place(Some(item.port), item.batch), x, n)|
  {
    hide TurnsAway, TurnedAlong, DefaultOutputPort, TurningEdges;
    var place := Place(Some(item.port), item.batch);
    if n == 0 {
      NothingTurned(net, from, item, DefaultOutputPort(net.declared(from)));
      NoneTurned(net, from, place, x);
    } else {
      TurnedExactly(net, from, item, n - 1, x);
      TurnedStep(net, from, item, n - 1, x);
      OneMoreTurned(net, from, place, x, n - 1);
    }
  }

  lemma NoneTurned(net: Net, from: Id, place: Place, x: Item)
    ensures TurningEdges(net, from, place, x, 0) == {}
  {
  }

  lemma OneMoreTurned(net: Net, from: Id, place: Place, x: Item, n: nat)
    requires n < |net.edges|
    ensures |TurningEdges(net, from, place, x, n + 1)|
         == |TurningEdges(net, from, place, x, n)| + if TurnsAway(net, from, net.edges[n], place, x) then 1 else 0
  {
    hide TurnsAway;
    var before := TurningEdges(net, from, place, x, n);
    assert TurningEdges(net, from, place, x, n + 1)
      == if TurnsAway(net, from, net.edges[n], place, x) then before + {n} else before;
    assert n !in before;
  }

  function AllFresh(items: seq<Item>): (tasks: seq<Task>)
    ensures |tasks| == |items| && forall i :: 0 <= i < |items| ==> tasks[i] == Fresh(items[i])
  {
    seq(|items|, i requires 0 <= i < |items| => Fresh(items[i]))
  }

  function AllAnnounced(items: seq<Item>): (tasks: seq<Task>)
    ensures |tasks| == |items| && forall i :: 0 <= i < |items| ==> tasks[i] == Announced(items[i])
  {
    seq(|items|, i requires 0 <= i < |items| => Announced(items[i]))
  }

  /** What `send` starts for the `k`-th ported batch. */
  ghost function FreshTasks(net: Net, item: Item, k: nat): seq<Task>
    requires k < |Ports(net, item)|
  {
    AllFresh(Branches(net, item, k)) + AllAnnounced(Turned(net, item, k))
  }

  lemma FreshTasksAre(net: Net, item: Item, k: nat)
    requires k < |Ports(net, item)|
    ensures |FreshTasks(net, item, k)| == |Branches(net, item, k)| + |Turned(net, item, k)|
    ensures forall i :: 0 <= i < |Branches(net, item, k)| ==>
              FreshTasks(net, item, k)[i] == Fresh(Branches(net, item, k)[i])
    ensures forall i :: |Branches(net, item, k)| <= i < |FreshTasks(net, item, k)| ==>
              FreshTasks(net, item, k)[i] == Announced(Turned(net, item, k)[i - |Branches(net, item, k)|])
  {
    hide Branches, Turned, Ports;
  }

  predicate AllFine(groups: seq<Group>) {
    forall g, i :: 0 <= g < |groups| && 0 <= i < |groups[g].branches| ==> Fine(groups[g].branches[i])
  }

  predicate AnyFailed(groups: seq<Group>) {
    exists g, i :: 0 <= g < |groups| && 0 <= i < |groups[g].branches| && groups[g].branches[i].stage.Failed?
  }

  // ---- steps ----

  /** Running and over: an operation past its deadline rejects, is retried or skipped, and runs on all the same. */
  ghost predicate OperationMoves(deadline: Id -> bool, t: Task, u: Task) {
    && t.stage.Running? && u.item == t.item && u.groups == t.groups
    && (u.strays == t.strays || (deadline(t.item.pipe) && u.strays == t.strays + 1))
    && (u.stage.Sending? || u.stage.Failed? || u.stage.Skipped? || u.stage.Running?)
  }

  /** Sending: the next ported batch once all before have arrived; a rejection as soon as one is seen. */
  ghost predicate SendingMoves(net: Net, t: Task, u: Task) {
    && t.stage.Sending?
    && (|| (AllFine(t.groups) && |t.groups| < |Ports(net, t.item)|
            && u == t.(groups := t.groups + [Group(FreshTasks(net, t.item, |t.groups|))]))
        || ((AnyFailed(t.groups) || AllFine(t.groups)) && u == t.(stage := Failed))
        || (AllFine(t.groups) && |t.groups| == |Ports(net, t.item)| && u == t.(stage := Ended)))
  }

  ghost predicate OwnMove(net: Net, deadline: Id -> bool, t: Task, u: Task) {
    || (t.stage.Announcing? && (u == t.(stage := Ended) || u == t.(stage := Failed)))
    || (t.stage.Queued? && (u == t.(stage := Running) || u == t.(stage := Failed)))
    || OperationMoves(deadline, t, u)
    || SendingMoves(net, t, u)
    || (t.strays > 0 && u == t.(strays := t.strays - 1))
  }

  function WithBranch(t: Task, g: nat, i: nat, v: Task): Task
    requires g < |t.groups| && i < |t.groups[g].branches|
  {
    t.(groups := t.groups[g := Group(t.groups[g].branches[i := v])])
  }

  /** One step somewhere in the traversal, below a settled promise as well as above one. */
  ghost predicate Moves(net: Net, deadline: Id -> bool, t: Task, u: Task)
    decreases t
  {
    || OwnMove(net, deadline, t, u)
    || exists g, i, v :: 0 <= g < |t.groups| && 0 <= i < |t.groups[g].branches|
         && Moves(net, deadline, t.groups[g].branches[i], v) && u == WithBranch(t, g, i, v)
  }

  ghost predicate IsPath(net: Net, deadline: Id -> bool, p: seq<Task>) {
    |p| > 0 && forall i {:trigger p[i]} :: 0 < i < |p| ==> Moves(net, deadline, p[i - 1], p[i])
  }

  /** `u` can come of `t`. */
  ghost predicate Leads(net: Net, deadline: Id -> bool, t: Task, u: Task) {
    exists p :: IsPath(net, deadline, p) && p[0] == t && p[|p| - 1] == u
  }

  // ---- what is still to come ----

  /** An operation of a pipe that writes still runs. */
  ghost predicate Writing(writes: Id -> bool, t: Task) {
    || (writes(t.item.pipe) && (t.stage.Running? || t.strays > 0))
    || exists g, i :: 0 <= g < |t.groups| && 0 <= i < |t.groups[g].branches| && Writing(writes, t.groups[g].branches[i])
  }

  // ---- paths ----

  lemma LeadsSelf(net: Net, deadline: Id -> bool, t: Task)
    ensures Leads(net, deadline, t, t)
  {
    assert IsPath(net, deadline, [t]);
  }

  lemma LeadsOn(net: Net, deadline: Id -> bool, t: Task, u: Task, v: Task)
    requires Leads(net, deadline, t, u) && Leads(net, deadline, u, v)
    ensures Leads(net, deadline, t, v)
  {
    hide Moves;
    var p :| IsPath(net, deadline, p) && p[0] == t && p[|p| - 1] == u;
    var q :| IsPath(net, deadline, q) && q[0] == u && q[|q| - 1] == v;
    var r := p + q[1..];
    forall i | 0 < i < |r|
      ensures Moves(net, deadline, r[i - 1], r[i])
    {
      if i >= |p| {
        assert r[i] == q[i - |p| + 1] && r[i - 1] == q[i - |p|];
      }
    }
    assert IsPath(net, deadline, r);
  }

  lemma LeadsByMove(net: Net, deadline: Id -> bool, t: Task, u: Task, v: Task)
    requires Leads(net, deadline, t, u) && Moves(net, deadline, u, v)
    ensures Leads(net, deadline, t, v)
  {
    hide Moves;
    assert IsPath(net, deadline, [u, v]);
    LeadsOn(net, deadline, t, u, v);
  }

  /** What a branch can do it can do inside the traversal. */
  lemma {:induction false} BranchLeads(net: Net, deadline: Id -> bool, t: Task, g: nat, i: nat, p: seq<Task>)
    requires g < |t.groups| && i < |t.groups[g].branches|
    requires IsPath(net, deadline, p) && p[0] == t.groups[g].branches[i]
    ensures Leads(net, deadline, t, WithBranch(t, g, i, p[|p| - 1]))
    decreases |p|
  {
    hide Moves;
    if |p| == 1 {
      WithBranchSame(t, g, i);
      LeadsSelf(net, deadline, t);
    } else {
      var front, u, v := p[..|p| - 1], p[|p| - 2], p[|p| - 1];
      assert IsPath(net, deadline, front);
      BranchLeads(net, deadline, t, g, i, front);
      var before := WithBranch(t, g, i, u);
      assert before.groups[g].branches[i] == u;
      BranchMoves(net, deadline, before, g, i, v);
      WithBranchTwice(t, g, i, u, v);
      LeadsByMove(net, deadline, t, before, WithBranch(t, g, i, v));
    }
  }

  lemma WithBranchSame(t: Task, g: nat, i: nat)
    requires g < |t.groups| && i < |t.groups[g].branches|
    ensures WithBranch(t, g, i, t.groups[g].branches[i]) == t
  {
    assert t.groups[g].branches[i := t.groups[g].branches[i]] == t.groups[g].branches;
    assert t.groups[g := t.groups[g]] == t.groups;
  }

  lemma WithBranchTwice(t: Task, g: nat, i: nat, u: Task, v: Task)
    requires g < |t.groups| && i < |t.groups[g].branches|
    ensures var w := WithBranch(t, g, i, u);
            |w.groups| == |t.groups| && |w.groups[g].branches| == |t.groups[g].branches| && w.groups[g].branches[i] == u
            && WithBranch(w, g, i, v) == WithBranch(t, g, i, v)
  {
    var w := WithBranch(t, g, i, u);
    assert w.groups[g].branches[i := v] == t.groups[g].branches[i := v];
    assert w.groups[g := Group(w.groups[g].branches[i := v])] == t.groups[g := Group(t.groups[g].branches[i := v])];
  }

  lemma BranchMoves(net: Net, deadline: Id -> bool, t: Task, g: nat, i: nat, v: Task)
    requires g < |t.groups| && i < |t.groups[g].branches| && Moves(net, deadline, t.groups[g].branches[i], v)
    ensures Moves(net, deadline, t, WithBranch(t, g, i, v))
  {
  }

  // ---- a traversal that goes well ----

  /** All before the `n`-th ported batch has arrived. */
  ghost predicate SentUpTo(net: Net, item: Item, t: Task, n: nat) {
    t.item == item && t.stage.Sending? && |t.groups| == n <= |Ports(net, item)| && AllFine(t.groups)
  }

  /** The `n`-th is on its way: its first `m` deliveries have arrived, the others have not begun. */
  ghost predicate SendingGroup(net: Net, item: Item, t: Task, n: nat, m: nat) {
    && t.item == item && t.stage.Sending? && |t.groups| == n + 1 <= |Ports(net, item)| && AllFine(t.groups[..n])
    && m <= |t.groups[n].branches| == |FreshTasks(net, item, n)|
    && (forall i :: 0 <= i < m ==> Fine(t.groups[n].branches[i]))
    && (forall i :: m <= i < |t.groups[n].branches| ==> t.groups[n].branches[i] == FreshTasks(net, item, n)[i])
  }

  lemma {:induction false} InRouteAll(net: Net, from: Id, items: seq<Ported>, port: string, k: nat, b: Item)
    requires k < |items| && b in SendAlong(net, from, items[k], port, |net.edges|)
    ensures b in RouteAll(net, from, items, port)
    decreases |items|
  {
    if k < |items| - 1 {
      InRouteAll(net, from, items[..|items| - 1], port, k, b);
    }
  }

  lemma BranchesAreSent(net: Net, item: Item, k: nat, i: nat)
    requires k < |Ports(net, item)| && i < |Branches(net, item, k)|
    ensures Branches(net, item, k)[i] in Sends(net, item)
  {
    InRouteAll(net, item.pipe, Ports(net, item), Port(net, item), k, Branches(net, item, k)[i]);
  }

  lemma BranchesAreNearer(net: Net, rank: Rank, top: nat, item: Item, k: nat, i: nat)
    requires Ranked(net, rank, top) && k < |Ports(net, item)| && i < |Branches(net, item, k)|
    ensures Height(rank, top, Branches(net, item, k)[i].pipe) < Height(rank, top, item.pipe)
  {
    SendAlongBelow(net, rank, top, item.pipe, Ports(net, item)[k], Port(net, item), |net.edges|);
    assert Branches(net, item, k)[i] in Branches(net, item, k);
  }

  lemma Starts(net: Net, deadline: Id -> bool, item: Item)
    ensures Leads(net, deadline, Fresh(item), Fresh(item).(stage := Running))
    ensures Leads(net, deadline, Fresh(item), Root(item))
  {
    var running := Fresh(item).(stage := Running);
    LeadsSelf(net, deadline, Fresh(item));
    LeadsByMove(net, deadline, Fresh(item), Fresh(item), running);
    assert OperationMoves(deadline, running, Root(item));
    LeadsByMove(net, deadline, Fresh(item), running, Root(item));
  }

  lemma IsAnnounced(net: Net, deadline: Id -> bool, item: Item) returns (u: Task)
    ensures Leads(net, deadline, Announced(item), u) && u.stage.Ended?
  {
    u := Announced(item).(stage := Ended);
    LeadsSelf(net, deadline, Announced(item));
    LeadsByMove(net, deadline, Announced(item), Announced(item), u);
  }

  lemma BranchBecomes(net: Net, deadline: Id -> bool, t: Task, g: nat, i: nat, v: Task)
    requires g < |t.groups| && i < |t.groups[g].branches| && Leads(net, deadline, t.groups[g].branches[i], v)
    ensures Leads(net, deadline, t, WithBranch(t, g, i, v))
  {
    hide Moves;
    var p :| IsPath(net, deadline, p) && p[0] == t.groups[g].branches[i] && p[|p| - 1] == v;
    BranchLeads(net, deadline, t, g, i, p);
  }

  /** Sending the next ported batch. */
  lemma SendsNext(net: Net, deadline: Id -> bool, item: Item, s: Task, n: nat) returns (t: Task)
    requires SentUpTo(net, item, s, n) && n < |Ports(net, item)|
    ensures Moves(net, deadline, s, t) && SendingGroup(net, item, t, n, 0)
  {
    t := s.(groups := s.groups + [Group(FreshTasks(net, item, n))]);
    assert SendingMoves(net, s, t);
    assert t.groups[..n] == s.groups;
  }

  /** Every delivery can go well, because the pipes it leads to are nearer the end. */
  lemma {:induction false} Completes(net: Net, deadline: Id -> bool, rank: Rank, top: nat, item: Item) returns (u: Task)
    requires Ranked(net, rank, top)
    ensures Leads(net, deadline, Fresh(item), u) && u.stage.Ended?
    decreases Height(rank, top, item.pipe), 2, 0
  {
    Starts(net, deadline, item);
    var t := Arrives(net, deadline, rank, top, item);
    LeadsOn(net, deadline, Fresh(item), Root(item), t);
    u := t;
  }

  /** A source's batch, once routed, can arrive everywhere. */
  lemma {:induction false} Arrives(net: Net, deadline: Id -> bool, rank: Rank, top: nat, item: Item) returns (u: Task)
    requires Ranked(net, rank, top)
    ensures Leads(net, deadline, Root(item), u) && u.stage.Ended?
    decreases Height(rank, top, item.pipe), 1, |Ports(net, item)| + 1
  {
    hide Ranked, Height, Leads, Ports;
    var t := SendsUpTo(net, deadline, rank, top, item, |Ports(net, item)|);
    u := t.(stage := Ended);
    assert SendingMoves(net, t, u);
    LeadsByMove(net, deadline, Root(item), t, u);
  }

  lemma {:induction false} SendsUpTo(net: Net, deadline: Id -> bool, rank: Rank, top: nat, item: Item, n: nat)
    returns (t: Task)
    requires Ranked(net, rank, top) && n <= |Ports(net, item)|
    ensures SentUpTo(net, item, t, n) && Leads(net, deadline, Root(item), t)
    decreases Height(rank, top, item.pipe), 1, n
  {
    hide Ranked, Height, Moves, Leads, Ports;
    if n == 0 {
      t := Root(item);
      LeadsSelf(net, deadline, t);
    } else {
      var s := SendsUpTo(net, deadline, rank, top, item, n - 1);
      var sent := SendsNext(net, deadline, item, s, n - 1);
      LeadsByMove(net, deadline, Root(item), s, sent);
      t := FillsGroup(net, deadline, rank, top, item, sent, n - 1, |FreshTasks(net, item, n - 1)|);
      LeadsOn(net, deadline, Root(item), sent, t);
      GroupFilled(net, item, t, n - 1);
    }
  }

  lemma GroupFilled(net: Net, item: Item, t: Task, n: nat)
    requires n < |Ports(net, item)| && SendingGroup(net, item, t, n, |FreshTasks(net, item, n)|)
    ensures SentUpTo(net, item, t, n + 1)
  {
    forall g, i | 0 <= g < |t.groups| && 0 <= i < |t.groups[g].branches|
      ensures Fine(t.groups[g].branches[i])
    {
      if g < n {
        assert t.groups[..n][g] == t.groups[g];
      }
    }
  }

  lemma {:induction false} FillsGroup(net: Net, deadline: Id -> bool, rank: Rank, top: nat, item: Item, s: Task,
                                      n: nat, m: nat)
    returns (t: Task)
    requires Ranked(net, rank, top) && n < |Ports(net, item)|
    requires SendingGroup(net, item, s, n, 0) && m <= |FreshTasks(net, item, n)|
    ensures Leads(net, deadline, s, t) && SendingGroup(net, item, t, n, m)
    decreases Height(rank, top, item.pipe), 0, m
  {
    hide Ranked, Height, Leads, Ports, FreshTasks, Branches, Turned;
    if m == 0 {
      t := s;
      LeadsSelf(net, deadline, s);
    } else {
      var before := FillsGroup(net, deadline, rank, top, item, s, n, m - 1);
      FreshTasksAre(net, item, n);
      var v: Task;
      if m - 1 < |Branches(net, item, n)| {
        BranchesAreNearer(net, rank, top, item, n, m - 1);
        v := Completes(net, deadline, rank, top, Branches(net, item, n)[m - 1]);
      } else {
        v := IsAnnounced(net, deadline, Turned(net, item, n)[m - 1 - |Branches(net, item, n)|]);
      }
      BranchBecomes(net, deadline, before, n, m - 1, v);
      t := WithBranch(before, n, m - 1, v);
      LeadsOn(net, deadline, s, before, t);
      assert t.groups[..n] == before.groups[..n];
    }
  }

  // ---- a traversal that settles too early ----

  /** Each delivery is sent by the one before. */
  ghost predicate Chain(net: Net, p: seq<Item>) {
    |p| > 0 && forall i {:trigger p[i]} :: 0 < i < |p| ==> p[i] in Sends(net, p[i - 1])
  }

  /** A chain of deliveries to a pipe that writes. */
  ghost predicate LeadsToWrite(net: Net, writes: Id -> bool, p: seq<Item>) {
    Chain(net, p) && writes(p[|p| - 1].pipe)
  }

  /** No delivery that comes of this one writes, itself included. */
  ghost predicate Mute(net: Net, writes: Id -> bool, item: Item) {
    forall p :: LeadsToWrite(net, writes, p) ==> p[0] != item
  }

  /** The `k`-th ported batch is delivered or announced along two edges or more, one of which leads to a write. */
  ghost predicate ForksAt(net: Net, writes: Id -> bool, item: Item, k: nat)
    requires k < |Ports(net, item)|
  {
    && |Branches(net, item, k)| + |Turned(net, item, k)| >= 2
    && exists i :: 0 <= i < |Branches(net, item, k)| && !Mute(net, writes, Branches(net, item, k)[i])
  }

  ghost predicate Fork(net: Net, writes: Id -> bool, item: Item) {
    exists k :: 0 <= k < |Ports(net, item)| && ForksAt(net, writes, item, k)
  }

  lemma {:induction false} FromRouteAll(net: Net, from: Id, items: seq<Ported>, port: string, b: Item)
    returns (k: nat)
    requires b in RouteAll(net, from, items, port)
    ensures k < |items| && b in SendAlong(net, from, items[k], port, |net.edges|)
    decreases |items|
  {
    if b in SendAlong(net, from, items[|items| - 1], port, |net.edges|) {
      k := |items| - 1;
    } else {
      k := FromRouteAll(net, from, items[..|items| - 1], port, b);
    }
  }

  lemma SentBy(net: Net, item: Item, b: Item) returns (k: nat, i: nat)
    requires b in Sends(net, item)
    ensures k < |Ports(net, item)| && i < |Branches(net, item, k)| && Branches(net, item, k)[i] == b
  {
    k := FromRouteAll(net, item.pipe, Ports(net, item), Port(net, item), b);
    i :| 0 <= i < |Branches(net, item, k)| && Branches(net, item, k)[i] == b;
  }

  /** One branch has failed: so does the delivery, and what its other branches do goes on. */
  lemma FailsWithBranch(net: Net, deadline: Id -> bool, t: Task, g: nat, i: nat) returns (u: Task)
    requires t.stage.Sending? && g < |t.groups| && i < |t.groups[g].branches| && t.groups[g].branches[i].stage.Failed?
    ensures Moves(net, deadline, t, u) && u == t.(stage := Failed)
  {
    u := t.(stage := Failed);
    assert AnyFailed(t.groups);
    assert SendingMoves(net, t, u);
  }

  lemma FailsAtOnce(net: Net, deadline: Id -> bool, t: Task)
    requires t.stage.Queued? || t.stage.Announcing?
    ensures Leads(net, deadline, t, t.(stage := Failed))
  {
    LeadsSelf(net, deadline, t);
    LeadsByMove(net, deadline, t, t, t.(stage := Failed));
  }

  /** A delivery comes to run the last of a chain, none of the promises above it settled. */
  lemma {:induction false} ComesToWrite(net: Net, deadline: Id -> bool, writes: Id -> bool, rank: Rank, top: nat,
                                        p: seq<Item>)
    returns (u: Task)
    requires Ranked(net, rank, top) && LeadsToWrite(net, writes, p)
    ensures Leads(net, deadline, Fresh(p[0]), u) && Writing(writes, u)
    decreases |p|
  {
    hide Ranked, Moves, Leads, Ports, Branches, Turned, FreshTasks, Sends;
    Starts(net, deadline, p[0]);
    if |p| == 1 {
      u := Fresh(p[0]).(stage := Running);
    } else {
      var item := p[0];
      assert p[1] in Sends(net, p[0]);
      var k, i := SentBy(net, item, p[1]);
      var s := SendsUpTo(net, deadline, rank, top, item, k);
      var t := SendsNext(net, deadline, item, s, k);
      LeadsByMove(net, deadline, Root(item), s, t);
      FreshTasksAre(net, item, k);
      var v := ComesToWrite(net, deadline, writes, rank, top, p[1..]);
      BranchBecomes(net, deadline, t, k, i, v);
      u := WithBranch(t, k, i, v);
      assert Writing(writes, u.groups[k].branches[i]);
      LeadsOn(net, deadline, Root(item), t, u);
      LeadsOn(net, deadline, Fresh(item), Root(item), u);
    }
  }

  /** Two branches under way at once: one fails while the other comes to write. */
  lemma ForkSettlesEarly(net: Net, deadline: Id -> bool, writes: Id -> bool, rank: Rank, top: nat, item: Item,
                         t: Task, n: nat)
    returns (u: Task)
    requires Ranked(net, rank, top) && n < |Ports(net, item)| && SendingGroup(net, item, t, n, 0)
    requires ForksAt(net, writes, item, n)
    ensures Leads(net, deadline, t, u) && u.stage.Failed? && Writing(writes, u)
  {
    hide Ranked, Moves, Leads, Ports, Branches, Turned, FreshTasks;
    FreshTasksAre(net, item, n);
    var i :| 0 <= i < |Branches(net, item, n)| && !Mute(net, writes, Branches(net, item, n)[i]);
    var p :| LeadsToWrite(net, writes, p) && p[0] == Branches(net, item, n)[i];
    var j := if i == 0 then 1 else 0;
    var v := ComesToWrite(net, deadline, writes, rank, top, p);
    var b := t.groups[n].branches[j];
    var failed := b.(stage := Failed);
    BranchBecomes(net, deadline, t, n, i, v);
    var t1 := WithBranch(t, n, i, v);
    assert t1.groups[n].branches[j] == b;
    FailsAtOnce(net, deadline, b);
    BranchBecomes(net, deadline, t1, n, j, failed);
    var t2 := WithBranch(t1, n, j, failed);
    LeadsOn(net, deadline, t, t1, t2);
    assert t2.groups[n].branches[i] == v && t2.groups[n].branches[j] == failed;
    u := FailsWithBranch(net, deadline, t2, n, j);
    LeadsByMove(net, deadline, t, t2, u);
    assert Writing(writes, u.groups[n].branches[i]);
  }

  /** An operation past its deadline: its delivery fails while it runs. */
  lemma DeadlineSettlesEarly(net: Net, deadline: Id -> bool, writes: Id -> bool, item: Item) returns (u: Task)
    requires deadline(item.pipe) && writes(item.pipe)
    ensures Leads(net, deadline, Fresh(item), u) && u.stage.Failed? && Writing(writes, u)
  {
    var running := Fresh(item).(stage := Running);
    u := Fresh(item).(stage := Failed, strays := 1);
    Starts(net, deadline, item);
    assert OperationMoves(deadline, running, u);
    LeadsByMove(net, deadline, Fresh(item), running, u);
  }

  /** A pipe that writes and has a deadline. */
  predicate Outlasts(deadline: Id -> bool, writes: Id -> bool, pipe: Id) {
    deadline(pipe) && writes(pipe)
  }

  /** A chain of deliveries to a fork, or to a pipe below the first whose write can outlast its deadline. */
  ghost predicate LeadsToOverlap(net: Net, deadline: Id -> bool, writes: Id -> bool, p: seq<Item>) {
    Chain(net, p) && (Fork(net, writes, p[|p| - 1]) || (|p| > 1 && Outlasts(deadline, writes, p[|p| - 1].pipe)))
  }

  lemma {:induction false} SettlesEarly(net: Net, deadline: Id -> bool, writes: Id -> bool, rank: Rank, top: nat,
                                        p: seq<Item>)
    returns (u: Task)
    requires Ranked(net, rank, top) && LeadsToOverlap(net, deadline, writes, p)
    ensures Leads(net, deadline, Root(p[0]), u) && u.stage.Failed? && Writing(writes, u)
    decreases |p|, 0
  {
    hide Ranked, Moves, Leads, Ports, Branches, ForksAt;
    var item := p[0];
    if |p| == 1 {
      var k :| 0 <= k < |Ports(net, item)| && ForksAt(net, writes, item, k);
      var s := SendsUpTo(net, deadline, rank, top, item, k);
      var t := SendsNext(net, deadline, item, s, k);
      LeadsByMove(net, deadline, Root(item), s, t);
      u := ForkSettlesEarly(net, deadline, writes, rank, top, item, t, k);
      LeadsOn(net, deadline, Root(item), t, u);
    } else {
      assert p[1] in Sends(net, p[0]);
      var k, i := SentBy(net, item, p[1]);
      var s := SendsUpTo(net, deadline, rank, top, item, k);
      var t := SendsNext(net, deadline, item, s, k);
      LeadsByMove(net, deadline, Root(item), s, t);
      FreshTasksAre(net, item, k);
      var v := BranchSettlesEarly(net, deadline, writes, rank, top, p[1..]);
      u := FailsAbove(net, deadline, writes, t, k, i, v);
      LeadsOn(net, deadline, Root(item), t, u);
    }
  }

  lemma FailsAbove(net: Net, deadline: Id -> bool, writes: Id -> bool, t: Task, g: nat, i: nat, v: Task)
    returns (u: Task)
    requires t.stage.Sending? && g < |t.groups| && i < |t.groups[g].branches|
    requires Leads(net, deadline, t.groups[g].branches[i], v) && v.stage.Failed? && Writing(writes, v)
    ensures Leads(net, deadline, t, u) && u.stage.Failed? && Writing(writes, u)
  {
    hide Moves, Leads;
    BranchBecomes(net, deadline, t, g, i, v);
    var w := WithBranch(t, g, i, v);
    assert w.groups[g].branches[i] == v;
    u := FailsWithBranch(net, deadline, w, g, i);
    LeadsByMove(net, deadline, t, w, u);
    assert Writing(writes, u.groups[g].branches[i]);
  }

  lemma {:induction false} BranchSettlesEarly(net: Net, deadline: Id -> bool, writes: Id -> bool, rank: Rank,
                                              top: nat, p: seq<Item>)
    returns (u: Task)
    requires Ranked(net, rank, top) && Chain(net, p)
    requires Fork(net, writes, p[|p| - 1]) || Outlasts(deadline, writes, p[|p| - 1].pipe)
    ensures Leads(net, deadline, Fresh(p[0]), u) && u.stage.Failed? && Writing(writes, u)
    decreases |p|, 1
  {
    hide Ranked, Moves, Leads, Ports, Branches, Fork;
    if |p| == 1 && Outlasts(deadline, writes, p[0].pipe) {
      u := DeadlineSettlesEarly(net, deadline, writes, p[0]);
    } else {
      u := SettlesEarly(net, deadline, writes, rank, top, p);
      Starts(net, deadline, p[0]);
      LeadsOn(net, deadline, Fresh(p[0]), Root(p[0]), u);
    }
  }

  // ---- a traversal that cannot ----

  /** No chain from this delivery reaches a fork or a write that can outlast its deadline. */
  ghost predicate Tame(net: Net, deadline: Id -> bool, writes: Id -> bool, item: Item) {
    forall p :: LeadsToOverlap(net, deadline, writes, p) ==> p[0] != item
  }

  lemma OverlapAbove(net: Net, deadline: Id -> bool, writes: Id -> bool, item: Item, p: seq<Item>)
    requires LeadsToOverlap(net, deadline, writes, p) && p[0] in Sends(net, item)
    ensures LeadsToOverlap(net, deadline, writes, [item] + p)
  {
    hide Sends, Fork;
    assert Chain(net, [item] + p);
  }

  lemma TameBelow(net: Net, deadline: Id -> bool, writes: Id -> bool, item: Item, b: Item)
    requires Tame(net, deadline, writes, item) && b in Sends(net, item)
    ensures Tame(net, deadline, writes, b) && !Outlasts(deadline, writes, b.pipe)
  {
    hide Sends, Fork;
    assert Chain(net, [item, b]);
    assert !LeadsToOverlap(net, deadline, writes, [item, b]);
    forall p | LeadsToOverlap(net, deadline, writes, p)
      ensures p[0] != b
    {
      if p[0] == b {
        OverlapAbove(net, deadline, writes, item, p);
      }
    }
  }

  lemma WriteAbove(net: Net, writes: Id -> bool, item: Item, p: seq<Item>)
    requires LeadsToWrite(net, writes, p) && p[0] in Sends(net, item)
    ensures LeadsToWrite(net, writes, [item] + p)
  {
    hide Sends;
    assert Chain(net, [item] + p);
  }

  lemma MuteBelow(net: Net, writes: Id -> bool, item: Item)
    requires Mute(net, writes, item)
    ensures !writes(item.pipe)
    ensures forall b :: b in Sends(net, item) ==> Mute(net, writes, b)
  {
    hide Sends;
    assert Chain(net, [item]);
    assert !LeadsToWrite(net, writes, [item]);
    forall b | b in Sends(net, item)
      ensures Mute(net, writes, b)
    {
      forall p | LeadsToWrite(net, writes, p)
        ensures p[0] != b
      {
        if p[0] == b {
          WriteAbove(net, writes, item, p);
        }
      }
    }
  }

  // ---- what never writes ----

  /** An edge that only announces what its contract turned away. */
  predicate Idle(t: Task) {
    t.strays == 0 && t.groups == [] && (t.stage.Announcing? || Settled(t))
  }

  ghost predicate Muted(net: Net, writes: Id -> bool, t: Task)
    decreases t
  {
    || Idle(t)
    || (Mute(net, writes, t.item)
        && forall g, i :: 0 <= g < |t.groups| && 0 <= i < |t.groups[g].branches| ==>
            Muted(net, writes, t.groups[g].branches[i]))
  }

  lemma IdleMoves(net: Net, deadline: Id -> bool, t: Task, u: Task)
    requires Idle(t) && Moves(net, deadline, t, u)
    ensures Idle(u)
  {
  }

  /** What a mute delivery starts is mute. */
  lemma FreshIsMuted(net: Net, writes: Id -> bool, item: Item, n: nat)
    requires Mute(net, writes, item) && n < |Ports(net, item)|
    ensures forall i :: 0 <= i < |FreshTasks(net, item, n)| ==> Muted(net, writes, FreshTasks(net, item, n)[i])
  {
    hide Sends, Ports, FreshTasks, Branches, Turned, Mute;
    FreshTasksAre(net, item, n);
    MuteBelow(net, writes, item);
    forall i | 0 <= i < |Branches(net, item, n)|
      ensures Mute(net, writes, Branches(net, item, n)[i])
    {
      BranchesAreSent(net, item, n, i);
    }
  }

  lemma MutedByItself(net: Net, deadline: Id -> bool, writes: Id -> bool, t: Task, u: Task)
    requires Muted(net, writes, t) && !Idle(t) && OwnMove(net, deadline, t, u)
    ensures Muted(net, writes, u)
  {
    hide Sends, Ports, FreshTasks, Mute, AllFine, AnyFailed;
    if t.stage.Sending? && u.stage.Sending? {
      if |t.groups| < |Ports(net, t.item)| {
        FreshIsMuted(net, writes, t.item, |t.groups|);
      }
    }
  }

  lemma MutedBelow(net: Net, writes: Id -> bool, t: Task, g: nat, i: nat, v: Task)
    requires Muted(net, writes, t) && g < |t.groups| && i < |t.groups[g].branches| && Muted(net, writes, v)
    ensures Muted(net, writes, WithBranch(t, g, i, v))
  {
    hide Mute;
  }

  lemma {:induction false} MutedMoves(net: Net, deadline: Id -> bool, writes: Id -> bool, t: Task, u: Task)
    requires Muted(net, writes, t) && Moves(net, deadline, t, u)
    ensures Muted(net, writes, u)
    decreases t
  {
    if Idle(t) {
      IdleMoves(net, deadline, t, u);
    } else if OwnMove(net, deadline, t, u) {
      MutedByItself(net, deadline, writes, t, u);
    } else {
      hide Mute;
      var g, i, v :| 0 <= g < |t.groups| && 0 <= i < |t.groups[g].branches|
        && Moves(net, deadline, t.groups[g].branches[i], v) && u == WithBranch(t, g, i, v);
      MutedMoves(net, deadline, writes, t.groups[g].branches[i], v);
      hide Moves;
      MutedBelow(net, writes, t, g, i, v);
    }
  }

  lemma {:induction false} MutedNotWriting(net: Net, writes: Id -> bool, t: Task)
    requires Muted(net, writes, t)
    ensures !Writing(writes, t)
    decreases t
  {
    if !Idle(t) {
      MuteBelow(net, writes, t.item);
      forall g, i | 0 <= g < |t.groups| && 0 <= i < |t.groups[g].branches|
        ensures !Writing(writes, t.groups[g].branches[i])
      {
        MutedNotWriting(net, writes, t.groups[g].branches[i]);
      }
    }
  }

  /** Nothing that writes runs, and nothing is left that could. */
  ghost predicate Quiet(net: Net, writes: Id -> bool, t: Task)
    decreases t
  {
    || Muted(net, writes, t)
    || (Settled(t) && (writes(t.item.pipe) ==> t.strays == 0)
        && forall g, i :: 0 <= g < |t.groups| && 0 <= i < |t.groups[g].branches| ==>
            Quiet(net, writes, t.groups[g].branches[i]))
  }

  lemma {:induction false} QuietNotWriting(net: Net, writes: Id -> bool, t: Task)
    requires Quiet(net, writes, t)
    ensures !Writing(writes, t)
    decreases t
  {
    if Muted(net, writes, t) {
      MutedNotWriting(net, writes, t);
    } else {
      forall g, i | 0 <= g < |t.groups| && 0 <= i < |t.groups[g].branches|
        ensures !Writing(writes, t.groups[g].branches[i])
      {
        QuietNotWriting(net, writes, t.groups[g].branches[i]);
      }
    }
  }

  lemma {:induction false} QuietMoves(net: Net, deadline: Id -> bool, writes: Id -> bool, t: Task, u: Task)
    requires Quiet(net, writes, t) && Moves(net, deadline, t, u)
    ensures Quiet(net, writes, u)
    decreases t
  {
    hide Muted;
    if Muted(net, writes, t) {
      MutedMoves(net, deadline, writes, t, u);
    } else if !OwnMove(net, deadline, t, u) {
      var g, i, v :| 0 <= g < |t.groups| && 0 <= i < |t.groups[g].branches|
        && Moves(net, deadline, t.groups[g].branches[i], v) && u == WithBranch(t, g, i, v);
      QuietMoves(net, deadline, writes, t.groups[g].branches[i], v);
      hide Moves;
    }
  }

  // ---- what settles last ----

  /** Of each ported batch at most one edge leads to a write, alone; what writes settles before what it comes of. */
  ghost predicate Calm(net: Net, writes: Id -> bool, t: Task)
    decreases t
  {
    && (writes(t.item.pipe) ==> t.strays == 0) && !t.stage.Announcing?
    && (t.stage.Queued? || t.stage.Running? || t.stage.Skipped? ==> t.groups == [])
    && (t.stage.Ended? ==> AllFine(t.groups))
    && (t.stage.Failed? ==> forall g, i :: 0 <= g < |t.groups| && 0 <= i < |t.groups[g].branches| ==>
          Muted(net, writes, t.groups[g].branches[i]) || Settled(t.groups[g].branches[i]))
    && (forall g, i :: 0 <= g < |t.groups| - 1 && 0 <= i < |t.groups[g].branches| ==> Fine(t.groups[g].branches[i]))
    && (forall g, i :: 0 <= g < |t.groups| && 0 <= i < |t.groups[g].branches| ==>
          || Muted(net, writes, t.groups[g].branches[i])
          || (|t.groups[g].branches| == 1 && t.groups[g].branches[i].item in Sends(net, t.item)
              && Calm(net, writes, t.groups[g].branches[i])))
  }

  lemma {:induction false} CalmIsQuiet(net: Net, writes: Id -> bool, t: Task)
    requires Calm(net, writes, t) && Settled(t)
    ensures Quiet(net, writes, t)
    decreases t
  {
    hide Muted, Sends;
    forall g, i | 0 <= g < |t.groups| && 0 <= i < |t.groups[g].branches|
      ensures Quiet(net, writes, t.groups[g].branches[i])
    {
      var b := t.groups[g].branches[i];
      if !Muted(net, writes, b) {
        CalmIsQuiet(net, writes, b);
      }
    }
  }

  /** A settled promise stays settled, and a delivery keeps its batch. */
  lemma SettledStays(net: Net, deadline: Id -> bool, t: Task, u: Task)
    requires Moves(net, deadline, t, u)
    ensures u.item == t.item && (Settled(t) ==> u.stage == t.stage)
  {
  }

  lemma FreshIsCalm(net: Net, writes: Id -> bool, item: Item)
    ensures Calm(net, writes, Fresh(item)) && Calm(net, writes, Root(item))
  {
  }

  /** Where no delivery forks, the edges of a ported batch are mute, or there is only one. */
  lemma FreshIsSingle(net: Net, deadline: Id -> bool, writes: Id -> bool, item: Item, n: nat)
    requires Tame(net, deadline, writes, item) && n < |Ports(net, item)|
    ensures forall i :: 0 <= i < |FreshTasks(net, item, n)| ==>
              || Muted(net, writes, FreshTasks(net, item, n)[i])
              || (|FreshTasks(net, item, n)| == 1 && FreshTasks(net, item, n)[i].item in Sends(net, item)
                  && Calm(net, writes, FreshTasks(net, item, n)[i]))
  {
    hide Sends, Ports, FreshTasks, Branches, Turned, Mute;
    FreshTasksAre(net, item, n);
    assert Chain(net, [item]);
    assert !LeadsToOverlap(net, deadline, writes, [item]);
    assert !ForksAt(net, writes, item, n);
    if |FreshTasks(net, item, n)| == 1 && |Branches(net, item, n)| == 1 {
      BranchesAreSent(net, item, n, 0);
      FreshIsCalm(net, writes, Branches(net, item, n)[0]);
    }
  }

  lemma CalmSends(net: Net, deadline: Id -> bool, writes: Id -> bool, t: Task, u: Task)
    requires Calm(net, writes, t) && Tame(net, deadline, writes, t.item) && t.stage.Sending?
    requires AllFine(t.groups) && |t.groups| < |Ports(net, t.item)|
    requires u == t.(groups := t.groups + [Group(FreshTasks(net, t.item, |t.groups|))])
    ensures Calm(net, writes, u)
  {
    FreshIsSingle(net, deadline, writes, t.item, |t.groups|);
    hide Sends, Ports, FreshTasks, Tame, Muted;
  }

  /** The delivery under way has failed, or all have arrived. */
  lemma CalmSettles(net: Net, writes: Id -> bool, t: Task, u: Task)
    requires Calm(net, writes, t) && t.stage.Sending?
    requires (u == t.(stage := Failed) && (AnyFailed(t.groups) || AllFine(t.groups)))
          || (u == t.(stage := Ended) && AllFine(t.groups))
    ensures Calm(net, writes, u)
  {
    hide Sends, Muted;
  }

  lemma CalmByItself(net: Net, deadline: Id -> bool, writes: Id -> bool, t: Task, u: Task)
    requires Calm(net, writes, t) && Tame(net, deadline, writes, t.item)
    requires t.stage.Running? ==> !Outlasts(deadline, writes, t.item.pipe)
    requires OwnMove(net, deadline, t, u)
    ensures Calm(net, writes, u)
  {
    hide Sends, Ports, FreshTasks, Branches, Turned, Tame, Muted, AllFine, AnyFailed;
    if t.stage.Sending? && u.stage != t.stage {
      CalmSettles(net, writes, t, u);
    } else if t.stage.Sending? && u.groups != t.groups {
      CalmSends(net, deadline, writes, t, u);
    } else {
      assert t.groups == u.groups && (t.groups == [] || u.stage == t.stage);
      AllFineNone();
    }
  }

  lemma AllFineNone()
    ensures AllFine([])
  {
  }

  lemma CalmBelow(net: Net, deadline: Id -> bool, writes: Id -> bool, t: Task, g: nat, i: nat, v: Task)
    requires Calm(net, writes, t) && g < |t.groups| && i < |t.groups[g].branches|
    requires Moves(net, deadline, t.groups[g].branches[i], v)
    requires Muted(net, writes, t.groups[g].branches[i]) || Calm(net, writes, v)
    ensures Calm(net, writes, WithBranch(t, g, i, v))
  {
    hide Moves, Sends, Muted;
    var b := t.groups[g].branches[i];
    SettledStays(net, deadline, b, v);
    if Muted(net, writes, b) {
      MutedMoves(net, deadline, writes, b, v);
    }
  }

  lemma {:induction false} CalmMoves(net: Net, deadline: Id -> bool, writes: Id -> bool, t: Task, u: Task)
    requires Calm(net, writes, t) && Tame(net, deadline, writes, t.item)
    requires t.stage.Queued? || t.stage.Running? ==> !Outlasts(deadline, writes, t.item.pipe)
    requires Moves(net, deadline, t, u)
    ensures Calm(net, writes, u)
    decreases t
  {
    hide Tame, Sends, Muted, Outlasts;
    if OwnMove(net, deadline, t, u) {
      CalmByItself(net, deadline, writes, t, u);
    } else {
      var g, i, v :| 0 <= g < |t.groups| && 0 <= i < |t.groups[g].branches|
        && Moves(net, deadline, t.groups[g].branches[i], v) && u == WithBranch(t, g, i, v);
      var b := t.groups[g].branches[i];
      if !Muted(net, writes, b) {
        TameBelow(net, deadline, writes, t.item, b.item);
        CalmMoves(net, deadline, writes, b, v);
      }
      CalmBelow(net, deadline, writes, t, g, i, v);
    }
  }

  /** A source's batch under way. */
  ghost predicate CalmRoot(net: Net, writes: Id -> bool, t: Task) {
    Calm(net, writes, t) && !t.stage.Queued? && !t.stage.Running?
  }

  lemma CalmRootMoves(net: Net, deadline: Id -> bool, writes: Id -> bool, t: Task, u: Task)
    requires CalmRoot(net, writes, t) && Tame(net, deadline, writes, t.item) && Moves(net, deadline, t, u)
    ensures CalmRoot(net, writes, u) && u.item == t.item
  {
    CalmMoves(net, deadline, writes, t, u);
    SettledStays(net, deadline, t, u);
    RootNeverRuns(net, deadline, t, u);
  }

  lemma RootNeverRuns(net: Net, deadline: Id -> bool, t: Task, u: Task)
    requires Moves(net, deadline, t, u) && !t.stage.Queued? && !t.stage.Running?
    ensures !u.stage.Queued? && !u.stage.Running?
  {
  }

  lemma {:induction false} CalmAlong(net: Net, deadline: Id -> bool, writes: Id -> bool, p: seq<Task>)
    requires IsPath(net, deadline, p) && CalmRoot(net, writes, p[0]) && Tame(net, deadline, writes, p[0].item)
    ensures CalmRoot(net, writes, p[|p| - 1]) && p[|p| - 1].item == p[0].item
    decreases |p|
  {
    hide Moves, Tame, CalmRoot;
    if |p| > 1 {
      var front := p[..|p| - 1];
      assert IsPath(net, deadline, front);
      CalmAlong(net, deadline, writes, front);
      CalmRootMoves(net, deadline, writes, p[|p| - 2], p[|p| - 1]);
    }
  }

  /** A batch's promise never settles while a write it started runs exactly when no chain of deliveries from it
      reaches a pipe whose write can outlast its deadline, or a port whose edges start two things at once, one of
      them leading to a write. Taking every pipe for one that writes, this is about all operations. */
  lemma SettlesLastIff(net: Net, deadline: Id -> bool, writes: Id -> bool, rank: Rank, top: nat, item: Item)
    ensures Ranked(net, rank, top) ==>
              ((forall u :: Leads(net, deadline, Root(item), u) && Settled(u) ==> !Writing(writes, u))
               <==> Tame(net, deadline, writes, item))
  {
    if Ranked(net, rank, top) {
      hide Ranked, Moves, LeadsToOverlap;
      if Tame(net, deadline, writes, item) {
        forall u | Leads(net, deadline, Root(item), u) && Settled(u)
          ensures !Writing(writes, u)
        {
          var p :| IsPath(net, deadline, p) && p[0] == Root(item) && p[|p| - 1] == u;
          FreshIsCalm(net, writes, item);
          CalmAlong(net, deadline, writes, p);
          CalmIsQuiet(net, writes, u);
          QuietNotWriting(net, writes, u);
        }
      } else {
        hide Leads;
        var p :| LeadsToOverlap(net, deadline, writes, p) && p[0] == item;
        var u := SettlesEarly(net, deadline, writes, rank, top, p);
      }
    }
  }
}
