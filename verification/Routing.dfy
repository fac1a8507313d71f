/** Routing a batch depth-first over a pipeline's DAG: output ports, edge contracts
    and the traversal itself, against evaluating the pipes in plan order. */
module Routing {
  import opened Wrappers
  import opened Graphs
  import opened Definitions
  import opened Contracts

  datatype Batch = Batch(id: string, port: Option<string>, records: seq<Record>)

  /** What a pipe returns: nothing, one batch, several, or a map from port to batch in insertion order. */
  datatype Output = Nothing | One(batch: Batch) | Many(batches: seq<Batch>) | ByPort(entries: seq<Ported>)

  datatype Ported = Ported(port: string, batch: Batch)

  /** One delivery: a batch arriving at a pipe. */
  datatype Item = Item(pipe: Id, batch: Batch)

  /** A pipeline with what its pipes declare and do. A pipe that skips a batch, and a sink, yield `Nothing`. */
  datatype Net = Net(edges: seq<EdgeDef>, declared: Id -> Option<seq<string>>, work: Item -> Output, cv: Conversions)

  // ---- ports ----

  /** `out` when the pipe declares it or declares nothing, otherwise its first declared output. */
  function DefaultOutputPort(declared: Option<seq<string>>): (port: string)
    ensures declared.Some? && declared.value != [] ==> port in declared.value
    ensures declared.None? || declared.value == [] || "out" in declared.value ==> port == "out"
  {
    if declared.None? || declared.value == [] || "out" in declared.value then "out" else declared.value[0]
  }

  /** The batches of an output, in order. */
  function Given(output: Output): seq<Batch> {
    match output
    case Nothing => []
    case One(b) => [b]
    case Many(bs) => bs
    case ByPort(entries) => BatchesOf(entries)
  }

  function BatchesOf(items: seq<Ported>): (r: seq<Batch>)
    ensures |r| == |items|
  {
    seq(|items|, i requires 0 <= i < |items| => items[i].batch)
  }

  function NormalizePortedBatches(output: Output, defaultPort: string): (r: seq<Ported>)
    ensures BatchesOf(r) == Given(output)
  {
    match output
    case Nothing => []
    case One(b) => [Tag(b, defaultPort)]
    case Many(bs) => seq(|bs|, i requires 0 <= i < |bs| => Tag(bs[i], defaultPort))
    case ByPort(entries) => entries
  }

  /** A pipe that declares its outputs uses only those for the ports it names itself. */
  predicate KeepsToPorts(output: Output, declared: seq<string>) {
    match output
    case ByPort(entries) => forall e :: e in entries ==> e.port in declared
    case _ => forall b :: b in Given(output) && b.port.Some? ==> b.port.value in declared
  }

  /** Whatever its form, an output loses and repeats no batch; a pipe that names only ports it declares sends by
      declared ports only, those it leaves open included; and an output already by port is left as it is. */
  lemma PortedBatches(output: Output, declared: Option<seq<string>>, again: string)
    ensures var r := NormalizePortedBatches(output, DefaultOutputPort(declared));
            && multiset(BatchesOf(r)) == multiset(Given(output))
            && (declared.Some? && declared.value != [] ==>
                  (KeepsToPorts(output, declared.value) <==> forall p :: p in r ==> p.port in declared.value))
            && NormalizePortedBatches(ByPort(r), again) == r
  {
    var port := DefaultOutputPort(declared);
    var r := NormalizePortedBatches(output, port);
    if declared.Some? && declared.value != [] && !output.ByPort? {
      var given := Given(output);
      assert forall i :: 0 <= i < |given| ==> r[i] == Tag(given[i], port) && r[i] in r;
    }
  }

  function Tag(b: Batch, defaultPort: string): Ported {
    Ported(if b.port.Some? then b.port.value else defaultPort, b)
  }

  predicate EdgeMatchesPort(edge: EdgeDef, port: string, defaultPort: string) {
    (if edge.fromPort.Some? then edge.fromPort.value else defaultPort) == port
  }

  // ---- what one delivery sends on ----

  /** The batch an edge carries: everything, or what its contract lets through; nothing when that is empty. */
  ghost function Carry(net: Net, edge: EdgeDef, b: Batch): seq<Item> {
    if edge.contract.None? then [Item(edge.to, b)]
    else
      var through := Delivered(net.cv, edge.contract.value, b.records);
      if through == [] then [] else [Item(edge.to, b.(records := through))]
  }

  /** On an edge with a contract, what goes on and what is rejected are together what was sent; only an empty rest
      is dropped. */
  lemma CarryAccounts(net: Net, edge: EdgeDef, b: Batch)
    ensures edge.contract.Some? ==>
              var items, turned := Carry(net, edge, b), Rejected(net.cv, edge.contract.value, b.records);
              && (items == [] <==> |turned| == |b.records|)
              && (items != [] ==> |items| == 1 && items[0].pipe == edge.to
                                  && |items[0].batch.records| + |turned| == |b.records|)
              && (forall r :: r in turned <==> r in b.records && !Accepts(net.cv, edge.contract.value, r))
  {
    if edge.contract.Some? {
      var c := edge.contract.value;
      ContractConserves(net.cv, c, b.records);
      assert |multiset(b.records)| == |Kept(net.cv, c, b.records)| + |Rejected(net.cv, c, b.records)|;
      forall r
        ensures r in Rejected(net.cv, c, b.records) <==> r in b.records && !Accepts(net.cv, c, r)
      {
        ContractSorts(net.cv, c, b.records, r);
      }
    }
  }

  /** `send`: one ported batch along the first `n` edges that leave its pipe by that port. */
  ghost function SendAlong(net: Net, from: Id, item: Ported, defaultPort: string, n: nat): seq<Item>
    requires n <= |net.edges|
  {
    if n == 0 then [] else
      var e := net.edges[n - 1];
      SendAlong(net, from, item, defaultPort, n - 1)
      + if e.from == from && EdgeMatchesPort(e, item.port, defaultPort) then Carry(net, e, item.batch) else []
  }

  /** `routeOutput`: every ported batch in turn. */
  ghost function RouteAll(net: Net, from: Id, items: seq<Ported>, defaultPort: string): seq<Item> {
    if items == [] then [] else
      RouteAll(net, from, items[..|items| - 1], defaultPort)
      + SendAlong(net, from, items[|items| - 1], defaultPort, |net.edges|)
  }

  /** Everything a delivery sends downstream, in order. */
  ghost function Sends(net: Net, item: Item): seq<Item> {
    var port := DefaultOutputPort(net.declared(item.pipe));
    RouteAll(net, item.pipe, NormalizePortedBatches(net.work(item), port), port)
  }

  // ---- which edges carry what ----

  /** The port a missing name stands for: `out` where it is declared or nothing is, else the first declared. */
  predicate IsDefault(declared: Option<seq<string>>, p: string) {
    match declared
    case None => p == "out"
    case Some(ports) => if ports == [] || "out" in ports then p == "out" else p == ports[0]
  }

  /** The port a batch or an edge is meant for. */
  predicate Means(declared: Option<seq<string>>, named: Option<string>, p: string) {
    named == Some(p) || (named == None && IsDefault(declared, p))
  }

  /** One batch of an output, with the port it names, if any. */
  datatype Place = Place(named: Option<string>, batch: Batch)

  function Places(output: Output): (places: seq<Place>)
    ensures |places| == |Given(output)|
  {
    match output
    case Nothing => []
    case One(b) => [Place(b.port, b)]
    case Many(bs) => seq(|bs|, i requires 0 <= i < |bs| => Place(bs[i].port, bs[i]))
    case ByPort(entries) => Named(entries)
  }

  function Named(items: seq<Ported>): (places: seq<Place>)
    ensures |places| == |items|
  {
    seq(|items|, i requires 0 <= i < |items| => Place(Some(items[i].port), items[i].batch))
  }

  /** `x` is what the edge makes of the batch: the batch itself, or of a contract's edge the accepted records. */
  ghost predicate IsCarried(net: Net, e: EdgeDef, b: Batch, x: Item) {
    && x.pipe == e.to
    && match e.contract
       case None => x.batch == b
       case Some(c) =>
         && x.batch.records != [] && x.batch == b.(records := x.batch.records)
         && AreOutputs(net.cv, c, Kept(net.cv, c, b.records), x.batch.records)
  }

  /** The edge leaves the pipe by the port the batch is meant for, and makes `x` of it. */
  ghost predicate Crosses(net: Net, from: Id, e: EdgeDef, place: Place, x: Item) {
    && e.from == from
    && (exists p :: Means(net.declared(from), place.named, p) && Means(net.declared(from), e.fromPort, p))
    && IsCarried(net, e, place.batch, x)
  }

  ghost function CrossingsOf(net: Net, from: Id, place: Place, x: Item, n: nat): set<nat>
    requires n <= |net.edges|
  {
    set i: nat | i < n && Crosses(net, from, net.edges[i], place, x)
  }

  /** The pairs of a batch of the output and an edge that makes `x` of it, by their numbers. */
  ghost function Crossings(net: Net, from: Id, places: seq<Place>, x: Item): set<(nat, nat)> {
    set j: nat, i: nat | j < |places| && i < |net.edges| && Crosses(net, from, net.edges[i], places[j], x) :: (j, i)
  }

  lemma DefaultIsOne(declared: Option<seq<string>>)
    ensures IsDefault(declared, DefaultOutputPort(declared))
    ensures forall p :: IsDefault(declared, p) ==> p == DefaultOutputPort(declared)
  {
  }

  lemma MatchesIff(net: Net, from: Id, e: EdgeDef, port: string)
    ensures EdgeMatchesPort(e, port, DefaultOutputPort(net.declared(from)))
       <==> exists p :: Means(net.declared(from), Some(port), p) && Means(net.declared(from), e.fromPort, p)
  {
    DefaultIsOne(net.declared(from));
    assert Means(net.declared(from), Some(port), port);
    if e.fromPort.Some? {
      assert e.fromPort == Some(port) ==> Means(net.declared(from), e.fromPort, port);
    }
  }

  lemma CarryIs(net: Net, e: EdgeDef, b: Batch, x: Item)
    ensures multiset(Carry(net, e, b))[x] == if IsCarried(net, e, b, x) then 1 else 0
  {
    if e.contract.Some? {
      var c := e.contract.value;
      var through := Delivered(net.cv, c, b.records);
      if AreOutputs(net.cv, c, Kept(net.cv, c, b.records), x.batch.records) {
        OutputsUnique(net.cv, c, Kept(net.cv, c, b.records), x.batch.records, through);
      }
    }
  }

  lemma AddedIs(net: Net, from: Id, item: Ported, n: nat, x: Item)
    requires n < |net.edges|
    ensures multiset(Added(net, from, item, DefaultOutputPort(net.declared(from)), n))[x]
         == if Crosses(net, from, net.edges[n], Place(Some(item.port), item.batch), x) then 1 else 0
  {
    hide Carry, IsCarried, EdgeMatchesPort, DefaultOutputPort, Means;
    MatchesIff(net, from, net.edges[n], item.port);
    CarryIs(net, net.edges[n], item.batch, x);
  }

  lemma {:induction false} SendAlongCounts(net: Net, from: Id, item: Ported, n: nat, x: Item)
    requires n <= |net.edges|
    ensures multiset(SendAlong(net, from, item, DefaultOutputPort(net.declared(from)), n))[x]
         == |CrossingsOf(net, from, Place(Some(item.port), item.batch), x, n)|
  {
    hide SendAlong, Added, Crosses, DefaultOutputPort, CrossingsOf;
    var port, place := DefaultOutputPort(net.declared(from)), Place(Some(item.port), item.batch);
    if n == 0 {
      NothingSent(net, from, item, port);
      NoEdgeYet(net, from, place, x);
    } else {
      SendAlongCounts(net, from, item, n - 1, x);
      SendAlongStep(net, from, item, port, n - 1);
      AddedIs(net, from, item, n - 1, x);
      OneMoreEdge(net, from, place, x, n - 1);
    }
  }

  lemma OneMoreEdge(net: Net, from: Id, place: Place, x: Item, n: nat)
    requires n < |net.edges|
    ensures |CrossingsOf(net, from, place, x, n + 1)|
         == |CrossingsOf(net, from, place, x, n)| + if Crosses(net, from, net.edges[n], place, x) then 1 else 0
  {
    hide Crosses;
    var before := CrossingsOf(net, from, place, x, n);
    assert CrossingsOf(net, from, place, x, n + 1)
      == if Crosses(net, from, net.edges[n], place, x) then before + {n} else before;
    assert n !in before;
  }

  lemma NoEdgeYet(net: Net, from: Id, place: Place, x: Item)
    ensures CrossingsOf(net, from, place, x, 0) == {}
  {
  }

  lemma NothingSent(net: Net, from: Id, item: Ported, port: string)
    ensures SendAlong(net, from, item, port, 0) == []
  {
  }

  ghost function Paired(j: nat, numbers: set<nat>): set<(nat, nat)> {
    set i | i in numbers :: (j, i)
  }

  lemma {:induction false} PairedMany(j: nat, numbers: set<nat>)
    ensures |Paired(j, numbers)| == |numbers|
  {
    if numbers != {} {
      var n :| n in numbers;
      var rest := numbers - {n};
      PairedMany(j, rest);
      assert Paired(j, numbers) == Paired(j, rest) + {(j, n)};
      assert (j, n) !in Paired(j, rest);
    }
  }

  lemma CrossingsLast(net: Net, from: Id, places: seq<Place>, x: Item)
    requires places != []
    ensures var last := places[|places| - 1];
            |Crossings(net, from, places, x)|
            == |Crossings(net, from, places[..|places| - 1], x)| + |CrossingsOf(net, from, last, x, |net.edges|)|
  {
    hide Crosses;
    var j := |places| - 1;
    var ones := CrossingsOf(net, from, places[j], x, |net.edges|);
    var before, all := Crossings(net, from, places[..j], x), Crossings(net, from, places, x);
    PairedMany(j, ones);
    forall pair
      ensures pair in all <==> pair in before || pair in Paired(j, ones)
      ensures pair in before ==> pair !in Paired(j, ones)
    {
    }
    assert all == before + Paired(j, ones) && before !! Paired(j, ones);
  }

  lemma {:induction false} RouteAllCounts(net: Net, from: Id, items: seq<Ported>, x: Item)
    ensures multiset(RouteAll(net, from, items, DefaultOutputPort(net.declared(from))))[x]
         == |Crossings(net, from, Named(items), x)|
    decreases |items|
  {
    hide SendAlong, Crosses, DefaultOutputPort;
    if items == [] {
      assert Crossings(net, from, [], x) == {};
    } else {
      var front, last := items[..|items| - 1], items[|items| - 1];
      RouteAllCounts(net, from, front, x);
      SendAlongCounts(net, from, last, |net.edges|, x);
      assert Named(items)[..|items| - 1] == Named(front);
      CrossingsLast(net, from, Named(items), x);
    }
  }

  /** The port a batch gets is the one it was meant for. */
  lemma NormalizedMeans(net: Net, from: Id, output: Output, j: nat)
    requires j < |Places(output)|
    ensures var items := NormalizePortedBatches(output, DefaultOutputPort(net.declared(from)));
            && |items| == |Places(output)| && items[j].batch == Places(output)[j].batch
            && forall p :: Means(net.declared(from), Places(output)[j].named, p) <==> p == items[j].port
  {
    DefaultIsOne(net.declared(from));
    var items := NormalizePortedBatches(output, DefaultOutputPort(net.declared(from)));
    assert |BatchesOf(items)| == |items|;
  }

  lemma SameCrossings(net: Net, from: Id, output: Output, x: Item)
    ensures var items := NormalizePortedBatches(output, DefaultOutputPort(net.declared(from)));
            Crossings(net, from, Named(items), x) == Crossings(net, from, Places(output), x)
  {
    hide NormalizePortedBatches, DefaultOutputPort, IsCarried, IsDefault;
    var items := NormalizePortedBatches(output, DefaultOutputPort(net.declared(from)));
    assert |BatchesOf(items)| == |items|;
    forall j: nat, i: nat | j < |items| && i < |net.edges|
      ensures Crosses(net, from, net.edges[i], Named(items)[j], x) <==>
                Crosses(net, from, net.edges[i], Places(output)[j], x)
    {
      NormalizedMeans(net, from, output, j);
    }
  }

  /** What a pipe's output sends, with multiplicity: `x` once for every batch of the output and every edge that leaves
      by the port that batch is meant for and makes `x` of it. */
  ghost predicate SentExactly(net: Net, from: Id, output: Output, sent: seq<Item>) {
    forall x :: multiset(sent)[x] == |Crossings(net, from, Places(output), x)|
  }

  lemma RoutesExactly(net: Net, from: Id, output: Output)
    ensures var port := DefaultOutputPort(net.declared(from));
            SentExactly(net, from, output, RouteAll(net, from, NormalizePortedBatches(output, port), port))
  {
    hide NormalizePortedBatches, DefaultOutputPort, RouteAll, Crossings;
    var port := DefaultOutputPort(net.declared(from));
    forall x
      ensures multiset(RouteAll(net, from, NormalizePortedBatches(output, port), port))[x]
           == |Crossings(net, from, Places(output), x)|
    {
      RouteAllCounts(net, from, NormalizePortedBatches(output, port), x);
      SameCrossings(net, from, output, x);
    }
  }

  /** A delivery sends exactly that, and so `x` at all exactly when some edge makes it of some batch. */
  lemma SendsExactly(net: Net, item: Item)
    ensures SentExactly(net, item.pipe, net.work(item), Sends(net, item))
    ensures forall x :: x in Sends(net, item) <==>
              exists e, place :: e in net.edges && place in Places(net.work(item))
                  && Crosses(net, item.pipe, e, place, x)
  {
    hide DefaultOutputPort, NormalizePortedBatches, RouteAll, Crosses;
    RoutesExactly(net, item.pipe, net.work(item));
    var places := Places(net.work(item));
    forall x
      ensures x in Sends(net, item) <==>
        exists e, place :: e in net.edges && place in places && Crosses(net, item.pipe, e, place, x)
    {
      assert x in Sends(net, item) <==> multiset(Sends(net, item))[x] > 0;
      var pairs := Crossings(net, item.pipe, places, x);
      if pairs != {} {
        var pair :| pair in pairs;
        assert net.edges[pair.1] in net.edges && places[pair.0] in places;
      }
      if e, place :| e in net.edges && place in places && Crosses(net, item.pipe, e, place, x) {
        var i :| 0 <= i < |net.edges| && net.edges[i] == e;
        var j :| 0 <= j < |places| && places[j] == place;
        assert (j, i) in pairs;
      }
    }
  }

  // ---- termination by topological rank ----

  type Rank = map<Id, nat>

  /** Edges climb in rank, and ranks stay below `top`. */
  ghost predicate Ranked(net: Net, rank: Rank, top: nat) {
    && (forall e :: e in net.edges ==> e.from in rank && e.to in rank && rank[e.from] < rank[e.to])
    && (forall p :: p in rank ==> rank[p] < top)
  }

  ghost function Height(rank: Rank, top: nat, p: Id): nat {
    if p in rank && rank[p] < top then top - rank[p] else 0
  }

  ghost predicate Below(rank: Rank, top: nat, items: seq<Item>, h: nat) {
    forall i :: i in items ==> Height(rank, top, i.pipe) < h
  }

  lemma CarryGoesTo(net: Net, edge: EdgeDef, b: Batch)
    ensures forall i :: i in Carry(net, edge, b) ==> i.pipe == edge.to
  {
  }

  /** What an edge carries goes strictly nearer the end. */
  lemma CarryBelow(net: Net, rank: Rank, top: nat, e: EdgeDef, b: Batch)
    requires Ranked(net, rank, top) && e in net.edges
    ensures Below(rank, top, Carry(net, e, b), Height(rank, top, e.from))
  {
    hide Carry;
    CarryGoesTo(net, e, b);
    assert Height(rank, top, e.to) < Height(rank, top, e.from);
  }

  /** What the `n`-th edge adds. */
  ghost function Added(net: Net, from: Id, item: Ported, port: string, n: nat): seq<Item>
    requires n < |net.edges|
  {
    var e := net.edges[n];
    if e.from == from && EdgeMatchesPort(e, item.port, port) then Carry(net, e, item.batch) else []
  }

  lemma SendAlongStep(net: Net, from: Id, item: Ported, port: string, n: nat)
    requires n < |net.edges|
    ensures SendAlong(net, from, item, port, n + 1)
         == SendAlong(net, from, item, port, n) + Added(net, from, item, port, n)
  {
  }

  lemma AddedBelow(net: Net, rank: Rank, top: nat, from: Id, item: Ported, port: string, n: nat)
    requires Ranked(net, rank, top) && n < |net.edges|
    ensures Below(rank, top, Added(net, from, item, port, n), Height(rank, top, from))
  {
    var e := net.edges[n];
    if e.from == from {
      CarryBelow(net, rank, top, e, item.batch);
    }
  }

  lemma BelowJoins(rank: Rank, top: nat, a: seq<Item>, b: seq<Item>, h: nat)
    requires Below(rank, top, a, h) && Below(rank, top, b, h)
    ensures Below(rank, top, a + b, h)
  {
    hide Height;
  }

  lemma {:induction false} SendAlongBelow(net: Net, rank: Rank, top: nat, from: Id, item: Ported, port: string, n: nat)
    requires Ranked(net, rank, top) && n <= |net.edges|
    ensures Below(rank, top, SendAlong(net, from, item, port, n), Height(rank, top, from))
  {
    if n > 0 {
      hide Ranked, Height, Below, SendAlong, Added;
      SendAlongBelow(net, rank, top, from, item, port, n - 1);
      AddedBelow(net, rank, top, from, item, port, n - 1);
      SendAlongStep(net, from, item, port, n - 1);
      BelowJoins(rank, top, SendAlong(net, from, item, port, n - 1), Added(net, from, item, port, n - 1),
                 Height(rank, top, from));
    }
  }

  lemma {:induction false} RouteAllBelow(net: Net, rank: Rank, top: nat, from: Id, items: seq<Ported>, port: string)
    requires Ranked(net, rank, top)
    ensures Below(rank, top, RouteAll(net, from, items, port), Height(rank, top, from))
  {
    if items != [] {
      RouteAllBelow(net, rank, top, from, items[..|items| - 1], port);
      SendAlongBelow(net, rank, top, from, items[|items| - 1], port, |net.edges|);
    }
  }

  /** Whatever a delivery sends goes to pipes strictly nearer the end. */
  lemma SendsBelow(net: Net, rank: Rank, top: nat, item: Item)
    requires Ranked(net, rank, top)
    ensures Below(rank, top, Sends(net, item), Height(rank, top, item.pipe))
  {
    var port := DefaultOutputPort(net.declared(item.pipe));
    RouteAllBelow(net, rank, top, item.pipe, NormalizePortedBatches(net.work(item), port), port);
  }

  // ---- the depth-first traversal ----

  /** All deliveries a delivery leads to, itself included. */
  ghost function Trace(net: Net, rank: Rank, top: nat, item: Item): multiset<Item>
    requires Ranked(net, rank, top)
    decreases Height(rank, top, item.pipe), 1, 0
  {
    SendsBelow(net, rank, top, item);
    multiset{item} + TraceAll(net, rank, top, Sends(net, item), Height(rank, top, item.pipe))
  }

  ghost function TraceAll(net: Net, rank: Rank, top: nat, items: seq<Item>, h: nat): multiset<Item>
    requires Ranked(net, rank, top) && Below(rank, top, items, h)
    decreases h, 0, |items|
  {
    if items == [] then multiset{} else
      Trace(net, rank, top, items[0]) + TraceAll(net, rank, top, items[1..], h)
  }

  /** The bound is only there for termination. */
  lemma {:induction false} TraceAllBound(net: Net, rank: Rank, top: nat, items: seq<Item>, h: nat, k: nat)
    requires Ranked(net, rank, top) && Below(rank, top, items, h) && Below(rank, top, items, k)
    ensures TraceAll(net, rank, top, items, h) == TraceAll(net, rank, top, items, k)
    decreases |items|
  {
    if items != [] {
      TraceAllBound(net, rank, top, items[1..], h, k);
    }
  }

  lemma {:induction false} TraceAllConcat(net: Net, rank: Rank, top: nat, a: seq<Item>, b: seq<Item>, h: nat)
    requires Ranked(net, rank, top) && Below(rank, top, a, h) && Below(rank, top, b, h)
    ensures Below(rank, top, a + b, h)
    ensures TraceAll(net, rank, top, a + b, h) == TraceAll(net, rank, top, a, h) + TraceAll(net, rank, top, b, h)
    decreases |a|
  {
    if a == [] {
      assert a + b == b;
    } else {
      assert (a + b)[1..] == a[1..] + b;
      TraceAllConcat(net, rank, top, a[1..], b, h);
    }
  }

  /** The deliveries owed to a list of pending items. */
  ghost function Owed(net: Net, rank: Rank, top: nat, items: seq<Item>): multiset<Item>
    requires Ranked(net, rank, top)
  {
    AllBelowTop(rank, top, items);
    TraceAll(net, rank, top, items, top + 1)
  }

  lemma AllBelowTop(rank: Rank, top: nat, items: seq<Item>)
    ensures Below(rank, top, items, top + 1)
  {
  }

  lemma OwedConcat(net: Net, rank: Rank, top: nat, a: seq<Item>, b: seq<Item>)
    requires Ranked(net, rank, top)
    ensures Owed(net, rank, top, a + b) == Owed(net, rank, top, a) + Owed(net, rank, top, b)
  {
    TraceAllConcat(net, rank, top, a, b, top + 1);
  }

  lemma OwedOne(net: Net, rank: Rank, top: nat, item: Item)
    requires Ranked(net, rank, top)
    ensures Owed(net, rank, top, [item]) == multiset{item} + Owed(net, rank, top, Sends(net, item))
  {
    SendsBelow(net, rank, top, item);
    TraceAllBound(net, rank, top, Sends(net, item), Height(rank, top, item.pipe), top + 1);
    assert [item][1..] == [];
    assert TraceAll(net, rank, top, [item], top + 1)
      == Trace(net, rank, top, item) + TraceAll(net, rank, top, [], top + 1);
  }

  lemma OwedNothing(net: Net, rank: Rank, top: nat)
    requires Ranked(net, rank, top)
    ensures Owed(net, rank, top, []) == multiset{}
  {
  }

  // ---- any schedule of deliveries ----

  /** Take the pending item at `i`, log it, and add what it sends: one step of any schedule. */
  ghost function Process(net: Net, pending: seq<Item>, i: nat): seq<Item>
    requires i < |pending|
  {
    pending[..i] + Sends(net, pending[i]) + pending[i + 1..]
  }

  /** Logged and owed deliveries together never change, whichever item goes next. */
  lemma ProcessKeepsTotal(net: Net, rank: Rank, top: nat, log: multiset<Item>, pending: seq<Item>, i: nat)
    requires Ranked(net, rank, top) && i < |pending|
    ensures log + multiset{pending[i]} + Owed(net, rank, top, Process(net, pending, i))
      == log + Owed(net, rank, top, pending)
  {
    var item := pending[i];
    var a, b := pending[..i], pending[i + 1..];
    assert pending == a + [item] + b;
    OwedConcat(net, rank, top, a, [item]);
    OwedConcat(net, rank, top, a + [item], b);
    OwedOne(net, rank, top, item);
    OwedConcat(net, rank, top, a, Sends(net, item));
    OwedConcat(net, rank, top, a + Sends(net, item), b);
  }

  /** A schedule: the index of the pending item to deliver, step after step. */
  ghost predicate Schedule(net: Net, pending: seq<Item>, picks: seq<nat>, log: multiset<Item>)
    decreases |picks|
  {
    if picks == [] then pending == [] && log == multiset{}
    else
      && picks[0] < |pending|
      && pending[picks[0]] in log
      && Schedule(net, Process(net, pending, picks[0]), picks[1..], log - multiset{pending[picks[0]]})
  }

  /** Every complete schedule, whatever its interleaving, gives every pipe the same batches. */
  lemma {:induction false} ScheduleIrrelevant(net: Net, rank: Rank, top: nat, pending: seq<Item>, picks: seq<nat>,
                                              log: multiset<Item>)
    requires Ranked(net, rank, top) && Schedule(net, pending, picks, log)
    ensures log == Owed(net, rank, top, pending)
    decreases |picks|
  {
    OwedNothing(net, rank, top);
    if picks != [] {
      var i := picks[0];
      var rest := log - multiset{pending[i]};
      assert log == multiset{pending[i]} + rest;
      ScheduleIrrelevant(net, rank, top, Process(net, pending, i), picks[1..], rest);
      ProcessKeepsTotal(net, rank, top, multiset{}, pending, i);
      assert multiset{} + Owed(net, rank, top, pending) == Owed(net, rank, top, pending);
    }
  }

  // ---- depth-first, as `dispatch` does it ----

  /** The deliveries owed to one ported batch along the first `n` edges. */
  ghost function OwedUpTo(net: Net, rank: Rank, top: nat, from: Id, item: Ported, port: string, n: nat): multiset<Item>
    requires Ranked(net, rank, top) && n <= |net.edges|
  {
    Owed(net, rank, top, SendAlong(net, from, item, port, n))
  }

  lemma OwedAtStart(net: Net, rank: Rank, top: nat, from: Id, item: Ported, port: string)
    requires Ranked(net, rank, top)
    ensures OwedUpTo(net, rank, top, from, item, port, 0) == multiset{}
  {
    OwedNothing(net, rank, top);
  }

  lemma OwedAlong(net: Net, rank: Rank, top: nat, from: Id, item: Ported, port: string, n: nat)
    requires Ranked(net, rank, top) && n < |net.edges|
    ensures OwedUpTo(net, rank, top, from, item, port, n + 1)
      == OwedUpTo(net, rank, top, from, item, port, n)
      + if net.edges[n].from == from && EdgeMatchesPort(net.edges[n], item.port, port)
        then Owed(net, rank, top, Carry(net, net.edges[n], item.batch)) else multiset{}
  {
    var e, before := net.edges[n], SendAlong(net, from, item, port, n);
    OwedNothing(net, rank, top);
    OwedConcat(net, rank, top, before, Carry(net, e, item.batch));
    OwedConcat(net, rank, top, before, []);
  }

  class Delivery {
    const net: Net
    /** Every delivery made so far. */
    var log: multiset<Item>

    constructor (net: Net)
      ensures this.net == net && log == multiset{}
    {
      this.net, log := net, multiset{};
    }

    /** `dispatch`: hand the batch to the pipe, then route what it returns. */
    method Dispatch(item: Item, ghost rank: Rank, ghost top: nat)
      requires Ranked(net, rank, top)
      modifies this
      ensures log == old(log) + Owed(net, rank, top, [item])
      decreases Height(rank, top, item.pipe), 2, 0, 0
    {
      log := log + multiset{item};
      SendsBelow(net, rank, top, item);
      OwedOne(net, rank, top, item);
      var sent := RouteOutput(item.pipe, net.work(item), rank, top);
    }

    /** Every batch of an output in turn; `sent` is what the edges of their ports make of them. */
    method RouteOutput(from: Id, output: Output, ghost rank: Rank, ghost top: nat) returns (ghost sent: seq<Item>)
      requires Ranked(net, rank, top)
      modifies this
      ensures log == old(log) + Owed(net, rank, top, sent) && SentExactly(net, from, output, sent)
      ensures forall item: Item :: item.pipe == from && net.work(item) == output ==> sent == Sends(net, item)
      decreases Height(rank, top, from), 1, 0, 0
    {
      hide SentExactly, Owed;
      var port := DefaultOutputPort(net.declared(from));
      var items := NormalizePortedBatches(output, port);
      OwedNothing(net, rank, top);
      for i := 0 to |items|
        invariant log == old(log) + Owed(net, rank, top, RouteAll(net, from, items[..i], port))
      {
        assert items[..i + 1][..i] == items[..i];
        Send(from, items[i], port, |net.edges|, rank, top);
        OwedConcat(net, rank, top, RouteAll(net, from, items[..i], port),
                   SendAlong(net, from, items[i], port, |net.edges|));
      }
      assert items[..|items|] == items;
      sent := RouteAll(net, from, items, port);
      RoutesExactly(net, from, output);
    }

    /** `send`, over the first `n` edges: those that leave the pipe by the batch's port carry it on. */
    method Send(from: Id, item: Ported, port: string, n: nat, ghost rank: Rank, ghost top: nat)
      requires Ranked(net, rank, top) && n <= |net.edges|
      modifies this
      ensures log == old(log) + OwedUpTo(net, rank, top, from, item, port, n)
      decreases Height(rank, top, from), 0, 2, n
    {
      hide Owed;
      OwedAtStart(net, rank, top, from, item, port);
      if n > 0 {
        Send(from, item, port, n - 1, rank, top);
        SendOnEdge(from, item, port, n - 1, old(log), rank, top);
      }
    }

    /** The `n`-th edge: nothing, unless it leaves the pipe by the batch's port. */
    method SendOnEdge(from: Id, item: Ported, port: string, n: nat, ghost logged: multiset<Item>, ghost rank: Rank,
                      ghost top: nat)
      requires Ranked(net, rank, top) && n < |net.edges|
      requires log == logged + OwedUpTo(net, rank, top, from, item, port, n)
      modifies this
      ensures log == logged + OwedUpTo(net, rank, top, from, item, port, n + 1)
      decreases Height(rank, top, from), 0, 1, 0
    {
      var e := net.edges[n];
      OwedAlong(net, rank, top, from, item, port, n);
      if e.from == from && EdgeMatchesPort(e, item.port, port) {
        CarryAcross(e, item.batch, rank, top);
      }
    }

    /** One edge: apply its contract, drop an empty result, deliver the rest. */
    method CarryAcross(e: EdgeDef, batch: Batch, ghost rank: Rank, ghost top: nat)
      requires Ranked(net, rank, top) && e in net.edges
      modifies this
      ensures log == old(log) + Owed(net, rank, top, Carry(net, e, batch))
      decreases Height(rank, top, e.from), 0, 0, 0
    {
      var next := batch;
      if e.contract.Some? {
        var delivered, rejected := ApplyContract(net.cv, batch.records, e.contract.value);
        OutputsUnique(net.cv, e.contract.value, Kept(net.cv, e.contract.value, batch.records), delivered,
                      Delivered(net.cv, e.contract.value, batch.records));
        if |delivered| == 0 {
          OwedNothing(net, rank, top);
          return;
        }
        next := batch.(records := delivered);
      }
      Dispatch(Item(e.to, next), rank, top);
    }
  }

  // ---- pipe by pipe, in plan order ----

  ghost predicate AllPending(pending: seq<Item>, order: seq<Id>) {
    forall i :: i in pending ==> i.pipe in order
  }

  /** Edges lead from earlier to later in the order. */
  ghost predicate Topological(net: Net, order: seq<Id>) {
    forall i, e :: 0 <= i < |order| && e in net.edges && e.from == order[i] ==> e.to in order[i + 1..]
  }

  ghost function At(pending: seq<Item>, p: Id): seq<Item> {
    if pending == [] then [] else (if pending[0].pipe == p then [pending[0]] else []) + At(pending[1..], p)
  }

  ghost function Elsewhere(pending: seq<Item>, p: Id): seq<Item> {
    if pending == [] then [] else (if pending[0].pipe == p then [] else [pending[0]]) + Elsewhere(pending[1..], p)
  }

  ghost function SendsOfAll(net: Net, items: seq<Item>): seq<Item> {
    if items == [] then [] else Sends(net, items[0]) + SendsOfAll(net, items[1..])
  }

  /** The reference: evaluate the pipes one after another, each once, on everything it has received. */
  ghost function EvaluateInOrder(net: Net, order: seq<Id>, pending: seq<Item>): multiset<Item> {
    if order == [] then multiset{} else
      var mine := At(pending, order[0]);
      multiset(mine) + EvaluateInOrder(net, order[1..], Elsewhere(pending, order[0]) + SendsOfAll(net, mine))
  }

  lemma {:induction false} OwedSplits(net: Net, rank: Rank, top: nat, pending: seq<Item>, p: Id)
    requires Ranked(net, rank, top)
    ensures Owed(net, rank, top, pending)
      == Owed(net, rank, top, At(pending, p)) + Owed(net, rank, top, Elsewhere(pending, p))
  {
    OwedNothing(net, rank, top);
    if pending != [] {
      var one, rest := [pending[0]], pending[1..];
      assert pending == one + rest;
      OwedConcat(net, rank, top, one, rest);
      OwedSplits(net, rank, top, rest, p);
      OwedConcat(net, rank, top, one, At(rest, p));
      OwedConcat(net, rank, top, one, Elsewhere(rest, p));
      assert [] + At(rest, p) == At(rest, p) && [] + Elsewhere(rest, p) == Elsewhere(rest, p);
    }
  }

  lemma {:induction false} OwedUnfolds(net: Net, rank: Rank, top: nat, items: seq<Item>)
    requires Ranked(net, rank, top)
    ensures Owed(net, rank, top, items) == multiset(items) + Owed(net, rank, top, SendsOfAll(net, items))
  {
    OwedNothing(net, rank, top);
    if items != [] {
      var one, rest := [items[0]], items[1..];
      assert items == one + rest;
      OwedConcat(net, rank, top, one, rest);
      OwedOne(net, rank, top, items[0]);
      OwedUnfolds(net, rank, top, rest);
      OwedConcat(net, rank, top, Sends(net, items[0]), SendsOfAll(net, rest));
      assert multiset(items) == multiset{items[0]} + multiset(rest);
    }
  }

  lemma AddedGoesLater(net: Net, from: Id, item: Ported, port: string, n: nat, later: seq<Id>)
    requires n < |net.edges| && forall e :: e in net.edges && e.from == from ==> e.to in later
    ensures AllPending(Added(net, from, item, port, n), later)
  {
    hide Carry;
    CarryGoesTo(net, net.edges[n], item.batch);
  }

  lemma PendingJoins(a: seq<Item>, b: seq<Item>, later: seq<Id>)
    requires AllPending(a, later) && AllPending(b, later)
    ensures AllPending(a + b, later)
  {
  }

  lemma {:induction false} SendsGoLater(net: Net, from: Id, item: Ported, port: string, n: nat, later: seq<Id>)
    requires n <= |net.edges| && forall e :: e in net.edges && e.from == from ==> e.to in later
    ensures AllPending(SendAlong(net, from, item, port, n), later)
  {
    if n > 0 {
      hide SendAlong, Added, AllPending;
      SendsGoLater(net, from, item, port, n - 1, later);
      AddedGoesLater(net, from, item, port, n - 1, later);
      SendAlongStep(net, from, item, port, n - 1);
      PendingJoins(SendAlong(net, from, item, port, n - 1), Added(net, from, item, port, n - 1), later);
    }
  }

  lemma {:induction false} RoutesGoLater(net: Net, from: Id, items: seq<Ported>, port: string, later: seq<Id>)
    requires forall e :: e in net.edges && e.from == from ==> e.to in later
    ensures AllPending(RouteAll(net, from, items, port), later)
  {
    if items != [] {
      RoutesGoLater(net, from, items[..|items| - 1], port, later);
      SendsGoLater(net, from, items[|items| - 1], port, |net.edges|, later);
    }
  }

  lemma {:induction false} AllSendsGoLater(net: Net, items: seq<Item>, p: Id, later: seq<Id>)
    requires forall e :: e in net.edges && e.from == p ==> e.to in later
    requires forall i :: i in items ==> i.pipe == p
    ensures AllPending(SendsOfAll(net, items), later)
  {
    if items != [] {
      assert items[0] in items && forall i :: i in items[1..] ==> i in items;
      var port := DefaultOutputPort(net.declared(p));
      RoutesGoLater(net, p, NormalizePortedBatches(net.work(items[0]), port), port, later);
      AllSendsGoLater(net, items[1..], p, later);
    }
  }

  lemma {:induction false} AtMembers(pending: seq<Item>, p: Id)
    ensures forall i :: i in At(pending, p) ==> i.pipe == p
    ensures forall i :: i in Elsewhere(pending, p) ==> i in pending && i.pipe != p
  {
    if pending != [] {
      AtMembers(pending[1..], p);
    }
  }

  /** Depth-first delivery and plan-order evaluation hand every pipe the same multiset of batches. */
  lemma {:induction false} PlanOrderAgrees(net: Net, rank: Rank, top: nat, order: seq<Id>, pending: seq<Item>)
    requires Ranked(net, rank, top) && Topological(net, order) && AllPending(pending, order)
    ensures EvaluateInOrder(net, order, pending) == Owed(net, rank, top, pending)
    decreases |order|
  {
    OwedNothing(net, rank, top);
    assert pending != [] ==> pending[0] in pending;
    if order != [] {
      var p, later := order[0], order[1..];
      var mine, others := At(pending, p), Elsewhere(pending, p);
      assert forall e :: e in net.edges && e.from == p ==> e.to in later;
      AtMembers(pending, p);
      AllSendsGoLater(net, mine, p, later);
      OwedSplits(net, rank, top, pending, p);
      OwedUnfolds(net, rank, top, mine);
      OwedConcat(net, rank, top, others, SendsOfAll(net, mine));
      TailTopological(net, order);
      PlanOrderAgrees(net, rank, top, later, others + SendsOfAll(net, mine));
    }
  }

  lemma TailTopological(net: Net, order: seq<Id>)
    requires Topological(net, order) && order != []
    ensures Topological(net, order[1..])
  {
    var tail := order[1..];
    forall i, e | 0 <= i < |tail| && e in net.edges && e.from == tail[i] ensures e.to in tail[i + 1..] {
      assert order[i + 1] == tail[i] && order[i + 1 + 1..] == tail[i + 1..];
    }
  }
}
