/**
 * Progress records of pipes (packages/workflow-engine/src/runtime/executor.ts):
 * every update reads the record and writes it back, across awaits, while many
 * pipes report at once. One chain of updates per pipe keeps them apart.
 */
module PipeProgress {
  import opened Wrappers
  import opened Sequences

  type Key = string

  datatype Status = Running | Success | Skipped | Failed | Cancelled

  datatype Record = Record(status: Status, attempt: nat, batches: nat, records: nat)

  /** One call of `markPipe`; `batch` is the number of records of the batch it reports, if any. */
  datatype Update = Update(status: Status, batch: Option<nat>)

  /** Where the first update of a chain stands; each but `Free` is an await. */
  datatype Stage = Free | Reading(update: Update) | Putting(record: Record) | Appending

  /**
   * One pipe: its chain, its cached record, its stored record, and for the account
   * the updates asked for, those that reached the cache, those that failed before,
   * and how many of those that reached it the stored record has.
   */
  datatype Lane = Lane(
    queue: seq<Update>,
    stage: Stage,
    cached: Option<Record>,
    stored: Option<Record>,
    issued: seq<Update>,
    kept: seq<Update>,
    dropped: seq<Update>,
    put: nat)

  datatype Action =
    | Mark(update: Update)
    | Begin
    | ReadAnswers
    | ReadFails
    | PutReturns
    | PutFails(written: bool)
    | AppendReturns
    | AppendFails

  // ---- Steps ----

  /** Only a batch of a running or finished pipe is progress. */
  predicate Counts(u: Update) {
    u.batch.Some? && (u.status == Running || u.status == Success)
  }

  function Applied(existing: Option<Record>, u: Update): Record {
    var base := if existing.Some? then existing.value else Record(u.status, 1, 0, 0);
    Record(u.status, base.attempt,
           base.batches + (if Counts(u) then 1 else 0),
           base.records + (if Counts(u) then u.batch.value else 0))
  }

  /** The new record is cached before it is stored. */
  function Cache(l: Lane, existing: Option<Record>, u: Update): Lane {
    var record := Applied(existing, u);
    l.(stage := Putting(record), cached := Some(record), kept := l.kept + [u])
  }

  /** The record is in the store, with every update that reached the cache. */
  function Stored(l: Lane): Lane
    requires l.stage.Putting?
  {
    l.(stored := Some(l.stage.record), put := |l.kept|)
  }

  function Step(l: Lane, a: Action): Lane {
    match a
    case Mark(u) => l.(queue := l.queue + [u], issued := l.issued + [u])
    case Begin =>
      if l.stage != Free || |l.queue| == 0 then l
      else
        var next := l.(queue := l.queue[1..]);
        if l.cached.Some? then Cache(next, l.cached, l.queue[0]) else next.(stage := Reading(l.queue[0]))
    case ReadAnswers => if l.stage.Reading? then Cache(l, l.stored, l.stage.update) else l
    case ReadFails =>
      if l.stage.Reading? then l.(stage := Free, dropped := l.dropped + [l.stage.update]) else l
    case PutReturns =>
      if l.stage.Putting? then Stored(l).(stage := Appending) else l
    case PutFails(written) =>
      if l.stage.Putting? then (if written then Stored(l) else l).(stage := Free) else l
    case AppendReturns => if l.stage.Appending? then l.(stage := Free) else l
    case AppendFails => if l.stage.Appending? then l.(stage := Free) else l
  }

  function Opened(stored: Option<Record>): Lane {
    Lane([], Free, None, stored, [], [], [], 0)
  }

  /** The lanes of all pipes; a pipe not yet seen has what is stored for it. */
  function LaneOf(lanes: map<Key, Lane>, stored: map<Key, Record>, key: Key): Lane {
    if key in lanes then lanes[key]
    else Opened(if key in stored then Some(stored[key]) else None)
  }

  /** Steps of all pipes, in any order. */
  function Run(lanes: map<Key, Lane>, stored: map<Key, Record>, steps: seq<(Key, Action)>): map<Key, Lane>
    decreases |steps|
  {
    if |steps| == 0 then lanes
    else
      var (key, action) := steps[0];
      Run(lanes[key := Step(LaneOf(lanes, stored, key), action)], stored, steps[1..])
  }

  // ---- The account ----

  function Batches(updates: seq<Update>): nat
    decreases |updates|
  {
    if |updates| == 0 then 0
    else Batches(updates[..|updates| - 1]) + if Counts(updates[|updates| - 1]) then 1 else 0
  }

  function Records(updates: seq<Update>): nat
    decreases |updates|
  {
    if |updates| == 0 then 0
    else
      Records(updates[..|updates| - 1])
      + if Counts(updates[|updates| - 1]) then updates[|updates| - 1].batch.value else 0
  }

  lemma CountsAppend(updates: seq<Update>, u: Update)
    ensures Batches(updates + [u]) == Batches(updates) + if Counts(u) then 1 else 0
    ensures Records(updates + [u]) == Records(updates) + if Counts(u) then u.batch.value else 0
  {
    assert (updates + [u])[..|updates|] == updates;
  }

  /** Sources report a batch while running, the other pipes with success. */
  predicate IsProgress(u: Update) {
    u.batch.Some? && u.status in [Running, Success]
  }

  /** What counts is exactly that: each such update one batch, and its records. */
  lemma {:induction false} BatchesAre(updates: seq<Update>)
    ensures Batches(updates) == |set i: nat | i < |updates| && IsProgress(updates[i])|
    decreases |updates|
  {
    var all := set i: nat | i < |updates| && IsProgress(updates[i]);
    if |updates| == 0 {
      assert all == {};
    } else {
      var front, last := updates[..|updates| - 1], |updates| - 1;
      BatchesAre(front);
      var before := set i: nat | i < |front| && IsProgress(front[i]);
      assert all == if IsProgress(updates[last]) then before + {last} else before;
      assert last !in before;
    }
  }

  lemma RecordsAre(updates: seq<Update>, u: Update)
    ensures Records(updates + [u]) == Records(updates) + if IsProgress(u) then u.batch.value else 0
    ensures Records([]) == 0
  {
    CountsAppend(updates, u);
  }

  /** The update being read for, not yet kept nor dropped. */
  function InHand(l: Lane): seq<Update> {
    if l.stage.Reading? then [l.stage.update] else []
  }

  /** The record some updates make of another, one after the other. */
  function After(first: Option<Record>, updates: seq<Update>): Option<Record>
    decreases |updates|
  {
    if |updates| == 0 then first
    else Some(Applied(After(first, updates[..|updates| - 1]), updates[|updates| - 1]))
  }

  lemma AfterOne(first: Option<Record>, updates: seq<Update>, u: Update)
    ensures After(first, updates + [u]) == Some(Applied(After(first, updates), u))
  {
    assert (updates + [u])[..|updates|] == updates;
  }

  lemma {:induction false} AfterCounts(first: Option<Record>, updates: seq<Update>)
    requires updates != []
    ensures var record := After(first, updates);
            && record.Some?
            && record.value.batches == Start(first).batches + Batches(updates)
            && record.value.records == Start(first).records + Records(updates)
            && record.value.attempt == Start(first).attempt
            && record.value.status == updates[|updates| - 1].status
    decreases |updates|
  {
    NoneCount();
    if |updates| > 1 {
      AfterCounts(first, updates[..|updates| - 1]);
    }
  }

  /**
   * `first` is what was stored before the run. The cache is what every kept update made
   * of it, the store what the first of them did; a kept update follows every dropped one.
   */
  predicate Balanced(l: Lane, first: Option<Record>) {
    && l.put <= |l.kept| && l.stored == After(first, l.kept[..l.put])
    && (l.cached.None? ==> l.kept == [] && (l.stage == Free || l.stage.Reading?))
    && (l.cached.Some? ==> l.kept != [] && l.cached == After(first, l.kept) && !l.stage.Reading?)
    && (l.stage.Putting? ==> l.cached == Some(l.stage.record) && l.put < |l.kept|)
    && (l.stage.Appending? ==> l.put == |l.kept|)
    && l.issued == l.dropped + l.kept + InHand(l) + l.queue
  }

  function Start(first: Option<Record>): Record {
    if first.Some? then first.value else Record(Running, 1, 0, 0)
  }

  lemma CacheKeeps(l: Lane, existing: Option<Record>, u: Update, first: Option<Record>)
    requires existing == After(first, l.kept)
    requires l.issued == l.dropped + l.kept + [u] + l.queue
    requires l.put <= |l.kept| && l.stored == After(first, l.kept[..l.put])
    ensures Balanced(Cache(l, existing, u), first)
  {
    hide After, Applied;
    AfterOne(first, l.kept, u);
    Associative(l.dropped, l.kept, [u]);
    assert (l.kept + [u])[..l.put] == l.kept[..l.put];
  }

  lemma NoneCount()
    ensures Batches([]) == 0 && Records([]) == 0
  {
  }

  lemma StepKeeps(l: Lane, a: Action, first: Option<Record>)
    requires Balanced(l, first)
    ensures Balanced(Step(l, a), first)
  {
    hide After, Applied;
    assert l.kept[..|l.kept|] == l.kept;
    match a
    case Mark(u) =>
      assert l.dropped + l.kept + InHand(l) + (l.queue + [u]) == l.dropped + l.kept + InHand(l) + l.queue + [u];
    case Begin =>
      if l.stage == Free && |l.queue| > 0 {
        var u, rest := l.queue[0], l.queue[1..];
        assert l.queue == [u] + rest;
        assert l.dropped + l.kept + [] + ([u] + rest) == l.dropped + l.kept + [u] + rest;
        if l.cached.Some? {
          CacheKeeps(l.(queue := rest), l.cached, u, first);
        }
      }
    case ReadAnswers =>
      if l.stage.Reading? {
        assert l.kept[..l.put] == l.kept;
        CacheKeeps(l, l.stored, l.stage.update, first);
      }
    case ReadFails =>
      if l.stage.Reading? {
        assert l.dropped + [l.stage.update] + l.kept + [] + l.queue == l.dropped + l.kept + InHand(l) + l.queue;
      }
    case _ =>
  }

  // ---- No progress is lost ----

  predicate AllBalanced(lanes: map<Key, Lane>, stored: map<Key, Record>) {
    forall key :: key in lanes ==> Balanced(lanes[key], if key in stored then Some(stored[key]) else None)
  }

  lemma {:induction false} RunKeeps(lanes: map<Key, Lane>, stored: map<Key, Record>, steps: seq<(Key, Action)>)
    requires AllBalanced(lanes, stored)
    ensures AllBalanced(Run(lanes, stored, steps), stored)
    decreases |steps|
  {
    if |steps| > 0 {
      hide Balanced, Step;
      var (key, action) := steps[0];
      var first := if key in stored then Some(stored[key]) else None;
      OpenedBalanced(first);
      StepKeeps(LaneOf(lanes, stored, key), action, first);
      RunKeeps(lanes[key := Step(LaneOf(lanes, stored, key), action)], stored, steps[1..]);
    }
  }

  lemma OpenedBalanced(first: Option<Record>)
    ensures Balanced(Opened(first), first)
  {
    assert Opened(first).kept[..0] == [];
  }

  lemma {:induction false} BatchesJoin(a: seq<Update>, b: seq<Update>)
    ensures Batches(a + b) == Batches(a) + Batches(b)
    ensures Records(a + b) == Records(a) + Records(b)
    decreases |b|
  {
    if |b| == 0 {
      assert a + b == a;
    } else {
      assert (a + b)[..|a + b| - 1] == a + b[..|b| - 1];
      BatchesJoin(a, b[..|b| - 1]);
    }
  }

  /** What was asked of a pipe, in the order it was asked. */
  function Marks(steps: seq<(Key, Action)>, key: Key): seq<Update>
    decreases |steps|
  {
    if |steps| == 0 then []
    else (if steps[0].0 == key && steps[0].1.Mark? then [steps[0].1.update] else []) + Marks(steps[1..], key)
  }

  lemma {:induction false} IssuedAreMarks(lanes: map<Key, Lane>, stored: map<Key, Record>,
                                          steps: seq<(Key, Action)>, key: Key)
    ensures LaneOf(Run(lanes, stored, steps), stored, key).issued
         == LaneOf(lanes, stored, key).issued + Marks(steps, key)
    decreases |steps|
  {
    if |steps| > 0 {
      var (k, action) := steps[0];
      IssuedAreMarks(lanes[k := Step(LaneOf(lanes, stored, k), action)], stored, steps[1..], key);
      var before := LaneOf(lanes, stored, key).issued;
      if k == key && action.Mark? {
        assert before + [action.update] + Marks(steps[1..], key) == before + ([action.update] + Marks(steps[1..], key));
      }
    }
  }

  /** What holds of every lane in every run, and what became of the marks of an idle one. */
  lemma RunIsBalanced(stored: map<Key, Record>, steps: seq<(Key, Action)>, key: Key)
    ensures var l := LaneOf(Run(map[], stored, steps), stored, key);
            var first := if key in stored then Some(stored[key]) else None;
            && Balanced(l, first)
            && (l.queue == [] && l.stage == Free ==> Marks(steps, key) == l.dropped + l.kept)
  {
    hide Run, Marks, After;
    var first := if key in stored then Some(stored[key]) else None;
    var l := LaneOf(Run(map[], stored, steps), stored, key);
    RunKeeps(map[], stored, steps);
    IssuedAreMarks(map[], stored, steps, key);
    OpenedBalanced(first);
    assert l.dropped + l.kept + [] + [] == l.dropped + l.kept;
    assert LaneOf(map[], stored, key).issued + Marks(steps, key) == Marks(steps, key);
  }

  /** Whatever the interleaving, an idle pipe's record in memory is its start plus every mark that did not fail
      before it was cached, and its record in the store has the first of these, up to the last put that took effect. */
  lemma NoLostProgress(stored: map<Key, Record>, steps: seq<(Key, Action)>, key: Key)
    ensures var l := LaneOf(Run(map[], stored, steps), stored, key);
            var first := if key in stored then Some(stored[key]) else None;
            var start := Start(first);
            var marks := Marks(steps, key);
            l.queue == [] && l.stage == Free && l.cached.Some? ==>
              && l.cached.value.batches == start.batches + Batches(marks) - Batches(l.dropped)
              && l.cached.value.records == start.records + Records(marks) - Records(l.dropped)
              && l.cached.value.attempt == start.attempt
              && l.kept != [] && l.cached.value.status == l.kept[|l.kept| - 1].status
              && marks == l.dropped + l.kept
              && l.put <= |l.kept| && l.stored == After(first, l.kept[..l.put])
              && (l.put == |l.kept| ==> l.stored == l.cached)
  {
    hide Run, Marks, After;
    var l := LaneOf(Run(map[], stored, steps), stored, key);
    var first := if key in stored then Some(stored[key]) else None;
    RunIsBalanced(stored, steps, key);
    if l.queue == [] && l.stage == Free && l.cached.Some? {
      AfterCounts(first, l.kept);
      BatchesJoin(l.dropped, l.kept);
      assert l.kept[..|l.kept|] == l.kept;
    }
  }

  // ---- When the store lags ----

  /** Whether the put of the last update to reach the cache failed without effect. */
  function LastPutLost(lanes: map<Key, Lane>, stored: map<Key, Record>, steps: seq<(Key, Action)>, key: Key): bool
    decreases |steps|
  {
    if |steps| == 0 then false
    else
      var (k, action) := steps[|steps| - 1];
      var front := steps[..|steps| - 1];
      var l := LaneOf(Run(lanes, stored, front), stored, key);
      if k == key && l.stage.Putting? && (action.PutReturns? || action.PutFails?) then action == PutFails(false)
      else LastPutLost(lanes, stored, front, key)
  }

  lemma {:induction false} RunThenOne(lanes: map<Key, Lane>, stored: map<Key, Record>, steps: seq<(Key, Action)>,
                                      key: Key, action: Action)
    ensures var before := Run(lanes, stored, steps);
            Run(lanes, stored, steps + [(key, action)])
            == before[key := Step(LaneOf(before, stored, key), action)]
    decreases |steps|
  {
    var more := steps + [(key, action)];
    if |steps| == 0 {
      assert more[1..] == [];
    } else {
      var (k, first) := steps[0];
      assert more[0] == steps[0] && more[1..] == steps[1..] + [(key, action)];
      RunThenOne(lanes[k := Step(LaneOf(lanes, stored, k), first)], stored, steps[1..], key, action);
    }
  }

  lemma LagStep(l: Lane, a: Action, first: Option<Record>, lost: bool)
    requires Balanced(l, first) && (!l.stage.Putting? ==> (l.put < |l.kept| <==> lost))
    ensures var m := Step(l, a);
            var putLost := if l.stage.Putting? && (a.PutReturns? || a.PutFails?) then a == PutFails(false) else lost;
            !m.stage.Putting? ==> (m.put < |m.kept| <==> putLost)
  {
    hide After, Applied;
  }

  /** No put under way, a pipe's stored record lacks kept updates exactly when the last put failed without effect. */
  lemma {:induction false} StoreLagsIff(stored: map<Key, Record>, steps: seq<(Key, Action)>, key: Key)
    ensures var l := LaneOf(Run(map[], stored, steps), stored, key);
            !l.stage.Putting? ==> (l.put < |l.kept| <==> LastPutLost(map[], stored, steps, key))
    decreases |steps|
  {
    if |steps| > 0 {
      hide Balanced, Step;
      var (k, action) := steps[|steps| - 1];
      var front := steps[..|steps| - 1];
      assert steps == front + [(k, action)];
      var before := Run(map[], stored, front);
      RunThenOne(map[], stored, front, k, action);
      StoreLagsIff(stored, front, key);
      if k == key {
        var first := if key in stored then Some(stored[key]) else None;
        RunKeeps(map[], stored, front);
        OpenedBalanced(first);
        LagStep(LaneOf(before, stored, key), action, first, LastPutLost(map[], stored, front, key));
      }
    }
  }

  lemma CachedStep(l: Lane, a: Action, first: Option<Record>)
    requires Balanced(l, first) && l.cached.Some?
    ensures Step(l, a).cached.Some? && Step(l, a).dropped == l.dropped
  {
  }

  /** Once a record is cached, no later failure drops an update. */
  lemma {:induction false} CachedDropsNothing(lanes: map<Key, Lane>, stored: map<Key, Record>,
                                              steps: seq<(Key, Action)>, key: Key)
    requires AllBalanced(lanes, stored)
    ensures LaneOf(lanes, stored, key).cached.Some? ==>
              LaneOf(Run(lanes, stored, steps), stored, key).dropped == LaneOf(lanes, stored, key).dropped
    decreases |steps|
  {
    if |steps| > 0 && LaneOf(lanes, stored, key).cached.Some? {
      hide Balanced, Step;
      var (k, action) := steps[0];
      var first := if k in stored then Some(stored[k]) else None;
      OpenedBalanced(first);
      StepKeeps(LaneOf(lanes, stored, k), action, first);
      if k == key {
        CachedStep(LaneOf(lanes, stored, k), action, first);
      }
      CachedDropsNothing(lanes[k := Step(LaneOf(lanes, stored, k), action)], stored, steps[1..], key);
    }
  }

  /** Marks fail unseen only while the first read of the record fails: with no such failure, all count. */
  lemma {:induction false} NoReadFailureNoDrop(lanes: map<Key, Lane>, stored: map<Key, Record>,
                                               steps: seq<(Key, Action)>, key: Key)
    ensures (key, ReadFails) !in steps ==>
              LaneOf(Run(lanes, stored, steps), stored, key).dropped == LaneOf(lanes, stored, key).dropped
    decreases |steps|
  {
    if |steps| > 0 && (key, ReadFails) !in steps {
      var (k, action) := steps[0];
      assert (k, action) == steps[0] && steps[0] in steps;
      NoReadFailureNoDrop(lanes[k := Step(LaneOf(lanes, stored, k), action)], stored, steps[1..], key);
    }
  }

  // ---- The maps the executor updates ----

  datatype Chain = Chain(queue: seq<Update>, stage: Stage)

  class PipeUpdates {
    var pipeRecords: map<Key, Record>
    var pipeUpdates: map<Key, Chain>
    /** The run store's records. */
    var runs: map<Key, Record>
    ghost var issued: map<Key, seq<Update>>
    ghost var kept: map<Key, seq<Update>>
    ghost var dropped: map<Key, seq<Update>>
    ghost var put: map<Key, nat>

    function ChainOf(key: Key): Chain
      reads this
    {
      if key in pipeUpdates then pipeUpdates[key] else Chain([], Free)
    }

    ghost function State(key: Key): Lane
      reads this
    {
      Lane(ChainOf(key).queue, ChainOf(key).stage, Lookup(pipeRecords, key), Lookup(runs, key),
           ListOf(issued, key), ListOf(kept, key), ListOf(dropped, key), if key in put then put[key] else 0)
    }

    /** One pipe took a step; no other pipe changed. */
    twostate predicate Stepped(key: Key, a: Action)
      reads this
    {
      && State(key) == Step(old(State(key)), a)
      && (forall k :: k != key ==> State(k) == old(State(k)))
    }

    constructor (stored: map<Key, Record>)
      ensures forall k :: State(k) == LaneOf(map[], stored, k)
    {
      pipeRecords, pipeUpdates, runs := map[], map[], stored;
      issued, kept, dropped, put := map[], map[], map[], map[];
    }

    method MarkPipe(key: Key, u: Update)
      modifies this
      ensures Stepped(key, Mark(u))
    {
      var chain := ChainOf(key);
      pipeUpdates := pipeUpdates[key := chain.(queue := chain.queue + [u])];
      issued := issued[key := ListOf(issued, key) + [u]];
    }

    /** The next update of a chain starts: from the cache at once, or by reading the store. */
    method StartNext(key: Key)
      modifies this
      ensures Stepped(key, Begin)
    {
      var chain := ChainOf(key);
      if chain.stage == Free && |chain.queue| > 0 {
        var u := chain.queue[0];
        if key in pipeRecords {
          pipeUpdates := pipeUpdates[key := Chain(chain.queue[1..], Free)];
          ApplyUpdate(key, Some(pipeRecords[key]), u);
        } else {
          pipeUpdates := pipeUpdates[key := Chain(chain.queue[1..], Reading(u))];
        }
      }
    }

    /** From reading the old record to asking the store to write the new one. */
    method ApplyUpdate(key: Key, existing: Option<Record>, u: Update)
      modifies this
      ensures State(key) == Cache(old(State(key)), existing, u)
      ensures forall k :: k != key ==> State(k) == old(State(k))
    {
      var counts := u.batch.Some? && (u.status == Running || u.status == Success);
      var attempt := 1;
      var batches := 0;
      var records := 0;
      if existing.Some? {
        attempt, batches, records := existing.value.attempt, existing.value.batches, existing.value.records;
      }
      if counts {
        batches := batches + 1;
        records := records + u.batch.value;
      }
      var record := Record(u.status, attempt, batches, records);
      pipeRecords := pipeRecords[key := record];
      pipeUpdates := pipeUpdates[key := ChainOf(key).(stage := Putting(record))];
      kept := kept[key := ListOf(kept, key) + [u]];
    }

    method OnRead(key: Key)
      modifies this
      ensures Stepped(key, ReadAnswers)
    {
      var chain := ChainOf(key);
      if chain.stage.Reading? {
        ApplyUpdate(key, Lookup(runs, key), chain.stage.update);
      }
    }

    /** The update fails; the chain goes on without it. */
    method OnReadFailure(key: Key)
      modifies this
      ensures Stepped(key, ReadFails)
    {
      var chain := ChainOf(key);
      if chain.stage.Reading? {
        dropped := dropped[key := ListOf(dropped, key) + [chain.stage.update]];
        pipeUpdates := pipeUpdates[key := chain.(stage := Free)];
      }
    }

    method OnPut(key: Key)
      modifies this
      ensures Stepped(key, PutReturns)
    {
      var chain := ChainOf(key);
      if chain.stage.Putting? {
        runs := runs[key := chain.stage.record];
        put := put[key := |ListOf(kept, key)|];
        pipeUpdates := pipeUpdates[key := chain.(stage := Appending)];
      }
    }

    /** The record may be stored all the same; the cache keeps it either way. */
    method OnPutFailure(key: Key, written: bool)
      modifies this
      ensures Stepped(key, PutFails(written))
    {
      var chain := ChainOf(key);
      if chain.stage.Putting? {
        if written {
          runs := runs[key := chain.stage.record];
          put := put[key := |ListOf(kept, key)|];
        }
        pipeUpdates := pipeUpdates[key := chain.(stage := Free)];
      }
    }

    /** The event is in the log, or could not be: the update is over, and the next of its chain may start. */
    method OnAppended(key: Key, ok: bool)
      modifies this
      ensures Stepped(key, if ok then AppendReturns else AppendFails)
    {
      var chain := ChainOf(key);
      if chain.stage.Appending? {
        pipeUpdates := pipeUpdates[key := chain.(stage := Free)];
      }
    }
  }

  function Lookup(records: map<Key, Record>, key: Key): Option<Record> {
    if key in records then Some(records[key]) else None
  }

  function ListOf(lists: map<Key, seq<Update>>, key: Key): seq<Update> {
    if key in lists then lists[key] else []
  }
}
