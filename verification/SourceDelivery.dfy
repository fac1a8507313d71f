/** What every run of a source delivers, however its batches settle, its store
    fails, its errors are resolved and often it is interrupted and resumed. */
module SourceDelivery {
  import opened Wrappers
  import opened SourceWindow

  /** Everything up to the stored checkpoint was delivered by earlier executions. */
  ghost predicate HonestStore(c: Config, checkpoints: map<Partition, Cursor>, delivered: set<nat>) {
    var s := Fresh(c, checkpoints, 0, delivered);
    DeliveredBelow(s.h, Resume(c, s))
  }

  /** A batch becomes delivered when its traversal ends without an error, and by nothing else. */
  lemma DeliveredBy(c: Config, s: State, a: Action)
    requires Enabled(c, s, a)
    ensures Step(c, s, a).h.delivered == s.h.delivered +
      match a
      case Settle(at, true) => {s.inFlight[at].index}
      case SettleHead(true) => {s.head.value.index}
      case _ => {}
  {
  }

  /** At every moment the stored checkpoint names a batch all of whose predecessors, and which itself, are delivered. */
  lemma CheckpointNeverSkips(c: Config, checkpoints: map<Partition, Cursor>, processed: nat, delivered: set<nat>,
                             trace: seq<Action>, s: State)
    requires ResumesAfterCheckpoint(c) && HonestStore(c, checkpoints, delivered)
    requires Run(c, Fresh(c, checkpoints, processed, delivered), trace, s)
    ensures forall i: nat :: i < Resume(c, s) ==> i in s.h.delivered
  {
    FreshIsSafe(c, checkpoints, processed, delivered);
    RunKeepsSafe(c, Fresh(c, checkpoints, processed, delivered), trace, s);
  }

  /** When a run ends in success every batch of the stream has been fully traversed downstream. */
  lemma AtLeastOnce(c: Config, checkpoints: map<Partition, Cursor>, processed: nat, delivered: set<nat>,
                    trace: seq<Action>, s: State)
    requires ResumesAfterCheckpoint(c) && HonestStore(c, checkpoints, delivered)
    requires Run(c, Fresh(c, checkpoints, processed, delivered), trace, s)
    requires s.phase.Succeeded?
    ensures forall i: nat :: i < |c.stream| ==> i in s.h.delivered
  {
    FreshIsSafe(c, checkpoints, processed, delivered);
    RunKeepsSafe(c, Fresh(c, checkpoints, processed, delivered), trace, s);
  }

  /** Batches travelling at once, the one being drained included, never outnumber the window. */
  lemma WindowBound(c: Config, checkpoints: map<Partition, Cursor>, processed: nat, delivered: set<nat>,
                    trace: seq<Action>, s: State)
    requires ResumesAfterCheckpoint(c) && HonestStore(c, checkpoints, delivered)
    requires Run(c, Fresh(c, checkpoints, processed, delivered), trace, s)
    ensures |s.inFlight| + (if s.head.Some? then 1 else 0) <= c.limit
    ensures s.phase.Starting? ==> s.inFlight == [] && s.head.None?
  {
    FreshIsSafe(c, checkpoints, processed, delivered);
    RunKeepsSafe(c, Fresh(c, checkpoints, processed, delivered), trace, s);
  }

  /** The stored checkpoint only ever moves forward. */
  lemma CheckpointOnlyAdvances(c: Config, s: State, a: Action)
    requires ResumesAfterCheckpoint(c) && Safe(c, s) && CanStep(c, s, a)
    ensures Resume(c, s) <= Resume(c, Step(c, s, a))
  {
    if a.Save? {
      PutMovesResume(c, s, s.head.value.index);
    } else {
      SameCheckpoints(c, s, Step(c, s, a));
    }
  }

  // ---- counting ----

  /** How far this execution has got, read or already checkpointed. */
  function Frontier(c: Config, s: State): nat {
    if s.next > Resume(c, s) then s.next else Resume(c, s)
  }

  /** Retries so far, each of which may have sent one window again. */
  function Resent(c: Config, s: State): nat {
    s.failures * c.limit
  }

  ghost predicate Counting(c: Config, s: State) {
    var r := Resume(c, s);
    && s.failures <= Attempts(c)
    && s.h.begun <= s.failures + (if s.phase.Starting? then 0 else 1)
    && s.h.base <= r <= s.h.drained <= |c.stream| && s.next <= |c.stream|
    && (s.phase.Starting? ==> s.h.sent <= r - s.h.base + Resent(c, s))
    && s.h.sent <= Frontier(c, s) - s.h.base + Resent(c, s)
    && s.cached - s.h.processed0 + s.h.unmarked == r - s.h.base - (if s.phase.Marking? then 1 else 0)
    && (s.phase.Succeeded? ==> s.processed == s.cached)
    && match s.phase
       case Starting => true
       case Saving(_) => r == s.h.drained - 1
       case Recovering(_) => s.next - r <= c.limit && r <= s.next
       case Succeeded => r == |c.stream|
       case Skipped => true
       case Failed => true
       case _ => r == s.h.drained
  }

  lemma FreshCounts(c: Config, checkpoints: map<Partition, Cursor>, processed: nat, delivered: set<nat>)
    requires Resume(c, Fresh(c, checkpoints, processed, delivered)) <= |c.stream|
    ensures Counting(c, Fresh(c, checkpoints, processed, delivered))
  {
  }

  lemma RecoverKeepsCounting(c: Config, s: State, a: Action)
    requires Safe(c, s) && Counting(c, s) && CanStep(c, s, a) && a.Recover?
    ensures Counting(c, Step(c, s, a))
  {
    assert (s.failures + 1) * c.limit == s.failures * c.limit + c.limit;
  }

  lemma SaveKeepsCounting(c: Config, s: State, a: Action)
    requires ResumesAfterCheckpoint(c) && AllCheckpointed(c)
    requires Safe(c, s) && Counting(c, s) && CanStep(c, s, a) && a.Save?
    ensures Counting(c, Step(c, s, a))
  {
    PutMovesResume(c, s, s.head.value.index);
  }

  lemma DrainKeepsCounting(c: Config, s: State, a: Action)
    requires Safe(c, s) && Counting(c, s) && CanStep(c, s, a)
    requires a.DrainHead? || a.HeadFails? || a.HeadArrives? || a.Mark?
    ensures Counting(c, Step(c, s, a))
  {
  }

  lemma StepKeepsCounting(c: Config, s: State, a: Action)
    requires ResumesAfterCheckpoint(c) && AllCheckpointed(c)
    requires Safe(c, s) && Counting(c, s) && CanStep(c, s, a)
    ensures Counting(c, Step(c, s, a))
  {
    if a.Recover? {
      RecoverKeepsCounting(c, s, a);
    } else if a.Save? {
      SaveKeepsCounting(c, s, a);
    } else if a.DrainHead? || a.HeadFails? || a.HeadArrives? || a.Mark? {
      DrainKeepsCounting(c, s, a);
    } else if a.Restart? {
      FreshCounts(c, s.checkpoints, s.processed, s.h.delivered);
    }
  }

  lemma {:induction false} RunKeepsCounting(c: Config, s: State, trace: seq<Action>, t: State)
    requires ResumesAfterCheckpoint(c) && AllCheckpointed(c)
    requires Safe(c, s) && Counting(c, s) && Run(c, s, trace, t)
    ensures Safe(c, t) && Counting(c, t)
    decreases |trace|
  {
    if trace != [] {
      var front, a := trace[..|trace| - 1], trace[|trace| - 1];
      var m :| Run(c, s, front, m) && CanStep(c, m, a) && Step(c, m, a) == t;
      RunKeepsCounting(c, s, front, m);
      StepKeepsSafe(c, m, a);
      StepKeepsCounting(c, m, a);
    }
  }

  /** With a cursor on every batch: reads, redeliveries and progress of one execution. */
  lemma RedeliveryBound(c: Config, checkpoints: map<Partition, Cursor>, processed: nat, delivered: set<nat>,
                        trace: seq<Action>, s: State)
    requires ResumesAfterCheckpoint(c) && AllCheckpointed(c) && HonestStore(c, checkpoints, delivered)
    requires Resume(c, Fresh(c, checkpoints, processed, delivered)) <= |c.stream|
    requires Run(c, Fresh(c, checkpoints, processed, delivered), trace, s)
    ensures s.h.begun <= Attempts(c) + 1
    ensures s.h.sent <= |c.stream| - s.h.base + Attempts(c) * c.limit
    ensures s.phase.Succeeded? ==> s.processed - s.h.processed0 == |c.stream| - s.h.base - s.h.unmarked
  {
    var s0 := Fresh(c, checkpoints, processed, delivered);
    FreshIsSafe(c, checkpoints, processed, delivered);
    FreshCounts(c, checkpoints, processed, delivered);
    RunKeepsCounting(c, s0, trace, s);
    MulMonotone(s.failures, Attempts(c), c.limit);
  }

  lemma MulMonotone(a: nat, b: nat, k: nat)
    requires a <= b
    ensures a * k <= b * k
  {
    assert (b - a) * k >= 0;
  }

  /** How often the latest execution stored a cursor by a write reported failed. */
  function CursorsOnly(trace: seq<Action>): nat {
    if trace == [] then 0
    else
      var last := trace[|trace| - 1];
      if last.Restart? then 0
      else CursorsOnly(trace[..|trace| - 1]) + if last.Save? && last.saved.DoneButFailed? then 1 else 0
  }

  /** Exactly those leave a batch uncounted. */
  lemma {:induction false} UnmarkedAre(c: Config, s: State, trace: seq<Action>, t: State)
    requires s.h.unmarked == 0 && Run(c, s, trace, t)
    ensures t.h.unmarked == CursorsOnly(trace)
    decreases |trace|
  {
    if trace != [] {
      var front, a := trace[..|trace| - 1], trace[|trace| - 1];
      var m :| Run(c, s, front, m) && CanStep(c, m, a) && Step(c, m, a) == t;
      UnmarkedAre(c, s, front, m);
    }
  }

  /** However often progress cannot be stored, a successful execution raises the stored count by exactly the batches
      past its checkpoint, if and only if none of its cursors was stored by a write reported failed. */
  lemma ProgressIsExact(c: Config, checkpoints: map<Partition, Cursor>, processed: nat, delivered: set<nat>,
                        trace: seq<Action>, s: State)
    requires ResumesAfterCheckpoint(c) && AllCheckpointed(c) && HonestStore(c, checkpoints, delivered)
    requires Resume(c, Fresh(c, checkpoints, processed, delivered)) <= |c.stream|
    requires Run(c, Fresh(c, checkpoints, processed, delivered), trace, s) && s.phase.Succeeded?
    ensures s.processed == s.h.processed0 + |c.stream| - s.h.base - CursorsOnly(trace)
    ensures s.processed == s.h.processed0 + |c.stream| - s.h.base <==> CursorsOnly(trace) == 0
  {
    RedeliveryBound(c, checkpoints, processed, delivered, trace, s);
    UnmarkedAre(c, Fresh(c, checkpoints, processed, delivered), trace, s);
  }

  // ---- what is retried ----

  /** A retry is due: the error is no abort, the budget is not used up, and the connector's hook asks for a retry, or is
      silent about an error of a kind the policy retries. */
  predicate RetryDue(c: Config, failures: nat, f: Failure) {
    && !f.abort && failures < Attempts(c)
    && (f.hook == Some(DoRetry) || (f.hook == None && (f.transient || (c.retry.Some? && c.retry.value.onAll))))
  }

  /** Once all in flight has settled, the source starts over exactly when a retry is due, gives up without an error
      exactly when the hook says so of what is no abort, and fails otherwise. */
  lemma RecoverDecides(c: Config, s: State)
    requires Enabled(c, s, Recover)
    ensures var f, phase := s.phase.failure, Step(c, s, Recover).phase;
            && (phase.Starting? <==> RetryDue(c, s.failures, f))
            && (phase.Skipped? <==> !f.abort && f.hook == Some(DoSkip))
            && (phase.Failed? <==>
                  || f.abort
                  || f.hook == Some(DoFail)
                  || (f.hook != Some(DoSkip) && s.failures >= Attempts(c))
                  || (f.hook == None && !f.transient && !(c.retry.Some? && c.retry.value.onAll)))
  {
    match s.phase.failure.hook {
      case None =>
      case Some(DoRetry) =>
      case Some(DoFail) =>
      case Some(DoSkip) =>
    }
  }

  /** The attempts begun so far: one more than the failures, but for one that is waiting or could not begin. */
  predicate Begun(c: Config, s: State) {
    && s.failures <= Attempts(c)
    && (if s.phase.Starting? then s.h.begun == s.failures
        else s.h.begun == s.failures + 1 || (s.phase.Failed? && s.h.begun == s.failures))
  }

  lemma StepBegins(c: Config, s: State, a: Action)
    requires Begun(c, s) && CanStep(c, s, a)
    ensures Begun(c, Step(c, s, a))
  {
    if a.Recover? {
      RecoverDecides(c, s);
    }
  }

  lemma {:induction false} RunBegins(c: Config, s: State, trace: seq<Action>, t: State)
    requires Begun(c, s) && Run(c, s, trace, t)
    ensures Begun(c, t)
    decreases |trace|
  {
    hide Begun, Step, Urgent;
    if trace != [] {
      var front, a := trace[..|trace| - 1], trace[|trace| - 1];
      var m :| Run(c, s, front, m) && CanStep(c, m, a) && Step(c, m, a) == t;
      RunBegins(c, s, front, m);
      StepBegins(c, m, a);
    }
  }

  /** A run that gives up on an error it would retry has used every retry: it has begun `attempts` times and once
      more. */
  lemma GivesUpAfterAllAttempts(c: Config, checkpoints: map<Partition, Cursor>, processed: nat, delivered: set<nat>,
                                trace: seq<Action>, m: State)
    requires Run(c, Fresh(c, checkpoints, processed, delivered), trace, m) && CanStep(c, m, Recover)
    ensures var f := m.phase.failure;
            var asks := f.hook == Some(DoRetry)
                        || (f.hook == None && (f.transient || (c.retry.Some? && c.retry.value.onAll)));
            !f.abort && asks ==>
              && m.h.begun == m.failures + 1
              && (Step(c, m, Recover).phase.Failed? <==> m.h.begun == Attempts(c) + 1)
              && (Step(c, m, Recover).phase.Starting? <==> m.h.begun <= Attempts(c))
  {
    RunBegins(c, Fresh(c, checkpoints, processed, delivered), trace, m);
    RecoverDecides(c, m);
  }

  // ---- what success does not cover ----

  function FailureOf(a: Action): Option<Failure> {
    match a
    case ReadFails(f) => Some(f)
    case HeadFails(f) => Some(f)
    case FinishFails(f, _) => Some(f)
    case Save(Lost(f)) => Some(f)
    case Save(DoneButFailed(f)) => Some(f)
    case Mark(Lost(f)) => Some(f)
    case Mark(DoneButFailed(f)) => Some(f)
    case _ => None
  }

  /** The connector's `onError` never answers "skip". */
  ghost predicate HookNeverSkips(trace: seq<Action>) {
    forall a :: a in trace && FailureOf(a).Some? ==> FailureOf(a).value.hook != Some(DoSkip)
  }

  /** Without that answer `runSource` returns normally only in success, so AtLeastOnce covers every return. */
  lemma {:induction false} NoSkipWithoutHook(c: Config, s: State, trace: seq<Action>, t: State)
    requires !s.phase.Skipped? && (s.phase.Recovering? ==> s.phase.failure.hook != Some(DoSkip))
    requires HookNeverSkips(trace) && Run(c, s, trace, t)
    ensures !t.phase.Skipped? && (t.phase.Recovering? ==> t.phase.failure.hook != Some(DoSkip))
    decreases |trace|
  {
    if trace != [] {
      var front, a := trace[..|trace| - 1], trace[|trace| - 1];
      assert a in trace && forall x :: x in front ==> x in trace;
      var m :| Run(c, s, front, m) && CanStep(c, m, a) && Step(c, m, a) == t;
      NoSkipWithoutHook(c, s, front, m);
    }
  }

  lemma RunSnoc(c: Config, s: State, trace: seq<Action>, m: State, a: Action)
    requires Run(c, s, trace, m) && CanStep(c, m, a)
    ensures Run(c, s, trace + [a], Step(c, m, a))
  {
    assert (trace + [a])[..|trace|] == trace;
  }

  lemma SkipAfterRead(c: Config, s: State, trace: seq<Action>, t: State, f: Failure)
    requires Run(c, s, trace, t) && t.phase.Reading? && t.inFlight == [] && c.limit >= 1
    requires !f.abort && f.hook == Some(DoSkip)
    ensures exists trace', u :: Run(c, s, trace', u) && u.phase.Skipped? && u.h.delivered == t.h.delivered
  {
    RunSnoc(c, s, trace, t, ReadFails(f));
    var m := Step(c, t, ReadFails(f));
    assert AllSettled(m.inFlight);
    RunSnoc(c, s, trace + [ReadFails(f)], m, Recover);
    var u := Step(c, m, Recover);
    assert Run(c, s, trace + [ReadFails(f)] + [Recover], u) && u.phase.Skipped?;
  }

  /** With it, one failed read ends the run normally with nothing of the stream delivered. */
  lemma SkipLosesBatches(c: Config)
    requires ResumesAfterCheckpoint(c)
    ensures exists trace, t :: Run(c, Fresh(c, map[], 0, {}), trace, t) && t.phase.Skipped? && t.h.delivered == {}
  {
    var s0 := Fresh(c, map[], 0, {});
    var f := Failure(false, false, Some(DoSkip));
    RunSnoc(c, s0, [], s0, Begin);
    var s1 := Step(c, s0, Begin);
    assert s1.phase == Reading && s1.inFlight == [] && s1.h.delivered == {};
    SkipAfterRead(c, s0, [] + [Begin], s1, f);
  }
}
