/**
 * The source's progress record is one lane of `PipeProgress`: each step of a source's run makes its marks on that
 * lane, and what the run counts, in memory and in the store, is what the lane makes of these marks.
 */
module SourceProgress {
  import opened Wrappers
  import opened SourceWindow
  import P = PipeProgress

  /** The source's lane among those of all pipes. */
  const SOURCE_KEY: P.Key := "source"

  /** A call of `markPipe` for the source, and whether its record gets into the store. */
  datatype Report = Report(update: P.Update, written: bool)

  /** The mark a step of the run makes, if any; the batch at each place of the stream has `sizes` records. */
  ghost function ReportOf(c: Config, sizes: nat -> nat, s: State, a: Action): Option<Report>
    requires Enabled(c, s, a)
  {
    match a
    case Begin => Some(Report(P.Update(P.Running, None), true))
    case BeginFails(begun) => Some(Report(P.Update(P.Running, None), begun))
    case Mark(w) => Some(Report(P.Update(P.Running, Some(sizes(s.head.value.index))), !w.Lost?))
    case Finish => Some(Report(P.Update(P.Success, None), true))
    case FinishFails(_, finished) => Some(Report(P.Update(P.Success, None), finished))
    case Recover => Final(c, s)
    case RecoverFails(recovered) => if recovered then Final(c, s) else None
    case _ => None
  }

  /** The mark of an attempt that is given up. */
  function Final(c: Config, s: State): Option<Report>
    requires s.phase.Recovering?
  {
    match ResolveErrorAction(c, s.failures, s.phase.failure)
    case DoRetry => None
    case DoSkip => Some(Report(P.Update(P.Skipped, None), true))
    case DoFail => Some(Report(P.Update(if s.phase.failure.abort then P.Cancelled else P.Failed, None), true))
  }

  /** A mark to its end: the record is read if it has to be, stored or not, and its event appended. */
  function Marked(r: Report): seq<P.Action> {
    [P.Mark(r.update), P.Begin, P.ReadAnswers]
    + if r.written then [P.PutReturns, P.AppendReturns] else [P.PutFails(false)]
  }

  /** The lane's steps during one step of the source. */
  ghost function LaneSteps(c: Config, sizes: nat -> nat, s: State, a: Action): seq<P.Action>
    requires Enabled(c, s, a)
  {
    match ReportOf(c, sizes, s, a)
    case None => []
    case Some(r) => Marked(r)
  }

  /** Where the actions lead. */
  ghost function StateAfter(c: Config, s: State, trace: seq<Action>): State
    decreases |trace|
  {
    if trace == [] then s
    else
      var m := StateAfter(c, s, trace[..|trace| - 1]);
      if Enabled(c, m, trace[|trace| - 1]) then Step(c, m, trace[|trace| - 1]) else m
  }

  /** The lane's steps during a whole run, one step of the source after the other. */
  ghost function LaneTrace(c: Config, sizes: nat -> nat, s: State, trace: seq<Action>): seq<P.Action>
    decreases |trace|
  {
    if trace == [] then []
    else
      var front, a := trace[..|trace| - 1], trace[|trace| - 1];
      var m := StateAfter(c, s, front);
      LaneTrace(c, sizes, s, front) + if Enabled(c, m, a) then LaneSteps(c, sizes, m, a) else []
  }

  /** The batches the run marks, in order. */
  ghost function MarkedBatches(c: Config, s: State, trace: seq<Action>): seq<nat>
    decreases |trace|
  {
    if trace == [] then []
    else
      var front, a := trace[..|trace| - 1], trace[|trace| - 1];
      var m := StateAfter(c, s, front);
      MarkedBatches(c, s, front) + if Enabled(c, m, a) then MarkedBy(c, m, a) else []
  }

  function MarkActions(trace: seq<Action>): nat
    decreases |trace|
  {
    if trace == [] then 0
    else MarkActions(trace[..|trace| - 1]) + if trace[|trace| - 1].Mark? then 1 else 0
  }

  lemma {:induction false} RunEndsThere(c: Config, s: State, trace: seq<Action>, t: State)
    requires Run(c, s, trace, t)
    ensures StateAfter(c, s, trace) == t
    ensures |MarkedBatches(c, s, trace)| == MarkActions(trace)
    decreases |trace|
  {
    if trace != [] {
      var front, a := trace[..|trace| - 1], trace[|trace| - 1];
      var m :| Run(c, s, front, m) && CanStep(c, m, a) && Step(c, m, a) == t;
      RunEndsThere(c, s, front, m);
    }
  }

  // ---- step by step ----

  function BatchesIn(r: Option<P.Record>): nat {
    if r.Some? then r.value.batches else 0
  }

  /** Between two marks of the source its lane is idle; a record not read yet is the one stored. */
  predicate Agrees(l: P.Lane, s: State) {
    && l.stage == P.Free && l.queue == []
    && s.processed == BatchesIn(l.stored)
    && s.cached == BatchesIn(if l.cached.Some? then l.cached else l.stored)
  }

  function Lane(l: P.Lane, steps: seq<P.Action>): P.Lane
    decreases |steps|
  {
    if steps == [] then l else Lane(P.Step(l, steps[0]), steps[1..])
  }

  /** What a mark does to the two counts of the run. */
  predicate Counted(s: State, t: State, r: Report) {
    && t.cached == s.cached + (if P.Counts(r.update) then 1 else 0)
    && t.processed == if r.written then t.cached else s.processed
  }

  /** The lane once the update has reached the cache. */
  function InCache(l: P.Lane, u: P.Update): P.Lane {
    var record := P.Applied(if l.cached.Some? then l.cached else l.stored, u);
    l.(stage := P.Putting(record), cached := Some(record), issued := l.issued + [u], kept := l.kept + [u])
  }

  lemma ReachesCache(l: P.Lane, u: P.Update)
    requires l.stage == P.Free && l.queue == []
    ensures P.Step(P.Step(P.Step(l, P.Mark(u)), P.Begin), P.ReadAnswers) == InCache(l, u)
  {
    hide P.Applied;
    var queued := P.Step(l, P.Mark(u));
    assert queued.queue == [u] && [u][1..] == [];
    var begun := P.Step(queued, P.Begin);
    assert begun == if l.cached.Some? then InCache(l, u) else l.(stage := P.Reading(u), issued := l.issued + [u]);
  }

  lemma FirstSteps(l: P.Lane, a: P.Action, b: P.Action, c: P.Action, rest: seq<P.Action>)
    ensures Lane(l, [a, b, c] + rest) == Lane(P.Step(P.Step(P.Step(l, a), b), c), rest)
  {
    hide P.Step;
    assert ([a, b, c] + rest)[1..] == [b, c] + rest;
    assert ([b, c] + rest)[1..] == [c] + rest;
    assert ([c] + rest)[1..] == rest;
    assert Lane(P.Step(l, a), [b, c] + rest) == Lane(P.Step(P.Step(l, a), b), [c] + rest);
  }

  lemma LaneOfMark(l: P.Lane, r: Report)
    requires l.stage == P.Free && l.queue == []
    ensures var cached := InCache(l, r.update);
            Lane(l, Marked(r))
            == if r.written then cached.(stage := P.Free, stored := cached.cached, put := |cached.kept|)
               else cached.(stage := P.Free)
  {
    hide InCache;
    var u := r.update;
    ReachesCache(l, u);
    FirstSteps(l, P.Mark(u), P.Begin, P.ReadAnswers,
               if r.written then [P.PutReturns, P.AppendReturns] else [P.PutFails(false)]);
    Finishes(l, r);
  }

  lemma Finishes(l: P.Lane, r: Report)
    ensures var cached := InCache(l, r.update);
            Lane(cached, if r.written then [P.PutReturns, P.AppendReturns] else [P.PutFails(false)])
            == if r.written then cached.(stage := P.Free, stored := cached.cached, put := |cached.kept|)
               else cached.(stage := P.Free)
  {
    hide P.Applied;
    var cached := InCache(l, r.update);
    if r.written {
      var steps := [P.PutReturns, P.AppendReturns];
      assert steps[1..] == [P.AppendReturns] && [P.AppendReturns][1..] == [];
      assert Lane(cached, steps) == Lane(P.Step(P.Step(cached, P.PutReturns), P.AppendReturns), []);
    } else {
      assert [P.PutFails(false)][1..] == [];
    }
  }

  lemma MarkedAgrees(l: P.Lane, s: State, t: State, r: Report)
    requires Agrees(l, s) && Counted(s, t, r)
    ensures Agrees(Lane(l, Marked(r)), t)
  {
    hide Lane, Marked;
    LaneOfMark(l, r);
  }

  lemma StepCounts(c: Config, sizes: nat -> nat, s: State, a: Action)
    requires Enabled(c, s, a) && a != Restart
    ensures var r := ReportOf(c, sizes, s, a);
            var t := Step(c, s, a);
            && (r.Some? ==> Counted(s, t, r.value) && (P.Counts(r.value.update) <==> a.Mark?))
            && (r.None? ==> t.cached == s.cached && t.processed == s.processed && !a.Mark?)
  {
  }

  lemma StepAgrees(c: Config, sizes: nat -> nat, s: State, a: Action, l: P.Lane)
    requires Agrees(l, s) && Enabled(c, s, a) && a != Restart
    ensures Agrees(Lane(l, LaneSteps(c, sizes, s, a)), Step(c, s, a))
  {
    hide Lane, Marked, Step, ReportOf;
    StepCounts(c, sizes, s, a);
    match ReportOf(c, sizes, s, a)
    case None => NoSteps(l);
    case Some(r) => MarkedAgrees(l, s, Step(c, s, a), r);
  }

  lemma NoSteps(l: P.Lane)
    ensures Lane(l, []) == l
  {
  }

  lemma {:induction false} LaneConcat(l: P.Lane, a: seq<P.Action>, b: seq<P.Action>)
    ensures Lane(l, a + b) == Lane(Lane(l, a), b)
    decreases |a|
  {
    if a == [] {
      assert a + b == b;
    } else {
      assert (a + b)[1..] == a[1..] + b;
      LaneConcat(P.Step(l, a[0]), a[1..], b);
    }
  }

  lemma {:induction false} RunAgrees(c: Config, sizes: nat -> nat, s: State, trace: seq<Action>, t: State, l: P.Lane)
    requires Agrees(l, s) && Run(c, s, trace, t) && Restart !in trace
    ensures Agrees(Lane(l, LaneTrace(c, sizes, s, trace)), t)
    decreases |trace|
  {
    hide Agrees, Lane, LaneSteps, Step;
    if trace == [] {
      NoSteps(l);
    } else {
      var front, a := trace[..|trace| - 1], trace[|trace| - 1];
      var m :| Run(c, s, front, m) && CanStep(c, m, a) && Step(c, m, a) == t;
      RunEndsThere(c, s, front, m);
      RunAgrees(c, sizes, s, front, m, l);
      var before := LaneTrace(c, sizes, s, front);
      StepAgrees(c, sizes, m, a, Lane(l, before));
      LaneConcat(l, before, LaneSteps(c, sizes, m, a));
    }
  }

  /** At the end of a run its counts, in memory and in the store, are those of the lane after the steps of the run. */
  lemma CountsAgree(c: Config, sizes: nat -> nat, checkpoints: map<Partition, Cursor>, first: Option<P.Record>,
                    delivered: set<nat>, trace: seq<Action>, s: State)
    requires Run(c, Fresh(c, checkpoints, BatchesIn(first), delivered), trace, s) && Restart !in trace
    ensures var s0 := Fresh(c, checkpoints, BatchesIn(first), delivered);
            Agrees(Lane(P.Opened(first), LaneTrace(c, sizes, s0, trace)), s)
  {
    RunAgrees(c, sizes, Fresh(c, checkpoints, BatchesIn(first), delivered), trace, s, P.Opened(first));
  }

  // ---- one mark for one ----

  function Keyed(steps: seq<P.Action>): (keyed: seq<(P.Key, P.Action)>)
    ensures |keyed| == |steps| && forall i :: 0 <= i < |steps| ==> keyed[i] == (SOURCE_KEY, steps[i])
  {
    seq(|steps|, i requires 0 <= i < |steps| => (SOURCE_KEY, steps[i]))
  }

  /** The marks asked for, in order. */
  function MarksIn(steps: seq<P.Action>): seq<P.Update> {
    P.Marks(Keyed(steps), SOURCE_KEY)
  }

  /** Those that carry a batch. */
  function Carrying(updates: seq<P.Update>): seq<P.Update>
    decreases |updates|
  {
    if updates == [] then []
    else
      var last := updates[|updates| - 1];
      Carrying(updates[..|updates| - 1]) + if last.batch.Some? then [last] else []
  }

  function BatchUpdates(sizes: nat -> nat, batches: seq<nat>): (updates: seq<P.Update>)
    ensures |updates| == |batches|
  {
    seq(|batches|, i requires 0 <= i < |batches| => P.Update(P.Running, Some(sizes(batches[i]))))
  }

  lemma {:induction false} MarksJoin(a: seq<P.Action>, b: seq<P.Action>)
    ensures MarksIn(a + b) == MarksIn(a) + MarksIn(b)
    decreases |a|
  {
    if a == [] {
      assert a + b == b;
    } else {
      assert Keyed(a + b)[1..] == Keyed(a[1..] + b) && Keyed(a)[1..] == Keyed(a[1..]);
      assert Keyed(a + b)[0] == Keyed(a)[0];
      MarksJoin(a[1..], b);
    }
  }

  lemma {:induction false} CarryingJoin(a: seq<P.Update>, b: seq<P.Update>)
    ensures Carrying(a + b) == Carrying(a) + Carrying(b)
    decreases |b|
  {
    if b == [] {
      assert a + b == a;
    } else {
      assert (a + b)[..|a + b| - 1] == a + b[..|b| - 1];
      CarryingJoin(a, b[..|b| - 1]);
    }
  }

  lemma OneMark(r: Report)
    ensures MarksIn(Marked(r)) == [r.update]
    ensures Carrying([r.update]) == if r.update.batch.Some? then [r.update] else []
  {
    var rest := Marked(r)[1..];
    assert Keyed(Marked(r))[1..] == Keyed(rest);
    NoMarks(rest);
    assert [r.update][..0] == [];
  }

  lemma {:induction false} NoMarks(steps: seq<P.Action>)
    requires forall a :: a in steps ==> !a.Mark?
    ensures MarksIn(steps) == []
    decreases |steps|
  {
    if steps != [] {
      assert steps[0] in steps && Keyed(steps)[1..] == Keyed(steps[1..]);
      NoMarks(steps[1..]);
    }
  }

  /** The batch a step marks, if it marks one. */
  ghost function MarkedBy(c: Config, s: State, a: Action): seq<nat>
    requires Enabled(c, s, a)
  {
    if a.Mark? then [s.head.value.index] else []
  }

  lemma ReportIsMark(c: Config, sizes: nat -> nat, s: State, a: Action)
    requires Enabled(c, s, a)
    ensures var r := ReportOf(c, sizes, s, a);
            && (a.Mark? ==>
                  s.head.Some? && r.Some? && r.value.update == P.Update(P.Running, Some(sizes(s.head.value.index))))
            && (r.Some? && !a.Mark? ==> r.value.update.batch.None?)
  {
  }

  lemma BatchUpdatesJoin(sizes: nat -> nat, a: seq<nat>, b: seq<nat>)
    ensures BatchUpdates(sizes, a + b) == BatchUpdates(sizes, a) + BatchUpdates(sizes, b)
  {
  }

  lemma BatchUpdatesFew(sizes: nat -> nat, i: nat)
    ensures BatchUpdates(sizes, []) == [] && BatchUpdates(sizes, [i]) == [P.Update(P.Running, Some(sizes(i)))]
  {
  }

  /** A step of the source asks for a mark with a batch exactly when it is a `Mark`, and then for that batch. */
  lemma StepMarks(c: Config, sizes: nat -> nat, s: State, a: Action)
    requires Enabled(c, s, a)
    ensures Carrying(MarksIn(LaneSteps(c, sizes, s, a))) == BatchUpdates(sizes, MarkedBy(c, s, a))
  {
    hide MarksIn, Marked, Carrying, ReportOf, Enabled, BatchUpdates;
    var r := ReportOf(c, sizes, s, a);
    ReportIsMark(c, sizes, s, a);
    BatchUpdatesFew(sizes, if a.Mark? then s.head.value.index else 0);
    if r.None? {
      NoMarks([]);
      NoneCarrying();
    } else {
      OneMark(r.value);
    }
  }

  lemma NoneCarrying()
    ensures Carrying([]) == []
  {
  }

  /** The marks of the lane that carry a batch are those of the run, one for one and in order. */
  lemma {:induction false} MarksOneForOne(c: Config, sizes: nat -> nat, s: State, trace: seq<Action>, t: State)
    requires Run(c, s, trace, t)
    ensures Carrying(MarksIn(LaneTrace(c, sizes, s, trace))) == BatchUpdates(sizes, MarkedBatches(c, s, trace))
    ensures |MarkedBatches(c, s, trace)| == MarkActions(trace)
    decreases |trace|
  {
    hide MarksIn, Carrying, LaneSteps, Step, BatchUpdates, Enabled;
    RunEndsThere(c, s, trace, t);
    if trace == [] {
      NoMarks([]);
      NoneCarrying();
      BatchUpdatesFew(sizes, 0);
    } else {
      var front, a := trace[..|trace| - 1], trace[|trace| - 1];
      var m :| Run(c, s, front, m) && CanStep(c, m, a) && Step(c, m, a) == t;
      RunEndsThere(c, s, front, m);
      MarksOneForOne(c, sizes, s, front, m);
      StepMarks(c, sizes, m, a);
      var before, more := LaneTrace(c, sizes, s, front), LaneSteps(c, sizes, m, a);
      MarksJoin(before, more);
      CarryingJoin(MarksIn(before), MarksIn(more));
      BatchUpdatesJoin(sizes, MarkedBatches(c, s, front), MarkedBy(c, m, a));
    }
  }

  // ---- what the lane's account says of the run ----

  lemma {:induction false} LaneInRun(lanes: map<P.Key, P.Lane>, stored: map<P.Key, P.Record>, steps: seq<P.Action>)
    ensures P.LaneOf(P.Run(lanes, stored, Keyed(steps)), stored, SOURCE_KEY)
         == Lane(P.LaneOf(lanes, stored, SOURCE_KEY), steps)
    decreases |steps|
  {
    if steps != [] {
      assert Keyed(steps)[1..] == Keyed(steps[1..]);
      var next := P.Step(P.LaneOf(lanes, stored, SOURCE_KEY), steps[0]);
      LaneInRun(lanes[SOURCE_KEY := next], stored, steps[1..]);
    }
  }

  lemma {:induction false} NoReadFails(c: Config, sizes: nat -> nat, s: State, trace: seq<Action>)
    ensures P.ReadFails !in LaneTrace(c, sizes, s, trace)
    decreases |trace|
  {
    if trace != [] {
      NoReadFails(c, sizes, s, trace[..|trace| - 1]);
    }
  }

  function Total(sizes: nat -> nat, batches: seq<nat>): nat
    decreases |batches|
  {
    if batches == [] then 0 else Total(sizes, batches[..|batches| - 1]) + sizes(batches[|batches| - 1])
  }

  lemma CarryingLast(updates: seq<P.Update>, u: P.Update)
    ensures Carrying(updates + [u]) == if u.batch.Some? then Carrying(updates) + [u] else Carrying(updates)
  {
    assert (updates + [u])[..|updates|] == updates;
    assert Carrying(updates) + [] == Carrying(updates);
  }

  lemma {:induction false} CarryingCounts(updates: seq<P.Update>)
    requires forall u :: u in updates ==> u.batch.Some? ==> P.Counts(u)
    ensures P.Batches(updates) == P.Batches(Carrying(updates)) && P.Records(updates) == P.Records(Carrying(updates))
    decreases |updates|
  {
    hide Carrying, P.Batches, P.Records;
    if updates == [] {
      NoneCarrying();
    } else {
      var front, last := updates[..|updates| - 1], updates[|updates| - 1];
      assert updates == front + [last];
      assert last in updates && forall u :: u in front ==> u in updates;
      CarryingCounts(front);
      CarryingLast(front, last);
      P.CountsAppend(front, last);
      P.CountsAppend(Carrying(front), last);
    }
  }

  lemma {:induction false} BatchesTotal(sizes: nat -> nat, batches: seq<nat>)
    ensures P.Batches(BatchUpdates(sizes, batches)) == |batches|
    ensures P.Records(BatchUpdates(sizes, batches)) == Total(sizes, batches)
    decreases |batches|
  {
    if batches != [] {
      var front, last := batches[..|batches| - 1], P.Update(P.Running, Some(sizes(batches[|batches| - 1])));
      assert BatchUpdates(sizes, batches) == BatchUpdates(sizes, front) + [last];
      BatchesTotal(sizes, front);
      P.CountsAppend(BatchUpdates(sizes, front), last);
    }
  }

  lemma {:induction false} OnlyReports(c: Config, sizes: nat -> nat, s: State, trace: seq<Action>, t: State)
    requires Run(c, s, trace, t) && Restart !in trace
    ensures forall u :: u in MarksIn(LaneTrace(c, sizes, s, trace)) ==> u.batch.Some? ==> P.Counts(u)
    decreases |trace|
  {
    hide MarksIn, Marked, Step, ReportOf;
    if trace == [] {
      NoMarks([]);
    } else {
      var front, a := trace[..|trace| - 1], trace[|trace| - 1];
      var m :| Run(c, s, front, m) && CanStep(c, m, a) && Step(c, m, a) == t;
      RunEndsThere(c, s, front, m);
      OnlyReports(c, sizes, s, front, m);
      MarksJoin(LaneTrace(c, sizes, s, front), LaneSteps(c, sizes, m, a));
      ReportCounts(c, sizes, m, a);
      if ReportOf(c, sizes, m, a).Some? {
        OneMark(ReportOf(c, sizes, m, a).value);
      } else {
        NoMarks([]);
      }
    }
  }

  lemma ReportCounts(c: Config, sizes: nat -> nat, s: State, a: Action)
    requires Enabled(c, s, a)
    ensures var r := ReportOf(c, sizes, s, a); r.Some? && r.value.update.batch.Some? ==> P.Counts(r.value.update)
  {
  }

  /** By `NoLostProgress`, then, a run counts exactly the batches it marks, and the records of these. */
  lemma CountIsMarks(c: Config, sizes: nat -> nat, checkpoints: map<Partition, Cursor>, first: Option<P.Record>,
                     delivered: set<nat>, trace: seq<Action>, s: State)
    requires Run(c, Fresh(c, checkpoints, BatchesIn(first), delivered), trace, s) && Restart !in trace
    ensures var s0 := Fresh(c, checkpoints, BatchesIn(first), delivered);
            var l := Lane(P.Opened(first), LaneTrace(c, sizes, s0, trace));
            && s.cached == BatchesIn(first) + MarkActions(trace)
            && l.kept == MarksIn(LaneTrace(c, sizes, s0, trace))
            && l.put <= |l.kept| && s.processed == BatchesIn(P.After(first, l.kept[..l.put]))
            && (l.cached.Some? ==>
                  l.cached.value.records == P.Start(first).records + Total(sizes, MarkedBatches(c, s0, trace)))
  {
    var s0 := Fresh(c, checkpoints, BatchesIn(first), delivered);
    var steps := LaneTrace(c, sizes, s0, trace);
    CountsAgree(c, sizes, checkpoints, first, delivered, trace, s);
    LaneAccount(first, steps);
    NoReadFails(c, sizes, s0, trace);
    MarksOneForOne(c, sizes, s0, trace, s);
    OnlyReports(c, sizes, s0, trace, s);
    CarryingCounts(MarksIn(steps));
    BatchesTotal(sizes, MarkedBatches(c, s0, trace));
  }

  /** What `PipeProgress` says of a lane that is idle at the end and whose reads never failed. */
  lemma LaneAccount(first: Option<P.Record>, steps: seq<P.Action>)
    ensures var l := Lane(P.Opened(first), steps);
            var marks := MarksIn(steps);
            P.ReadFails !in steps && l.queue == [] && l.stage == P.Free ==>
              && l.kept == marks && l.put <= |l.kept| && l.stored == P.After(first, l.kept[..l.put])
              && BatchesIn(if l.cached.Some? then l.cached else l.stored) == BatchesIn(first) + P.Batches(marks)
              && (l.cached.Some? ==> l.cached.value.records == P.Start(first).records + P.Records(marks))
  {
    var stored := if first.Some? then map[SOURCE_KEY := first.value] else map[];
    var keyed := Keyed(steps);
    LaneInRun(map[], stored, steps);
    assert P.LaneOf(map[], stored, SOURCE_KEY) == P.Opened(first);
    if P.ReadFails !in steps {
      assert (SOURCE_KEY, P.ReadFails) !in keyed;
      P.NoReadFailureNoDrop(map[], stored, keyed, SOURCE_KEY);
      P.NoLostProgress(stored, keyed, SOURCE_KEY);
      P.RunIsBalanced(stored, keyed, SOURCE_KEY);
    }
  }
}
