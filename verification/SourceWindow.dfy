/** Reading one source through a bounded window of in-flight batches, as a
    transition system: every stretch of `runSource` between two awaits is one
    step, and downstream traversals settle between steps in any order. */
module SourceWindow {
  import opened Wrappers
  import opened Definitions

  type Cursor = nat

  /** Partition ids; the executor only ever reads back the checkpoint of partition "0". */
  type Partition = nat

  const MAIN_PARTITION: Partition := 0

  datatype Batch = Batch(partition: Partition, cursor: Option<Cursor>)

  datatype RetryDef = RetryDef(attempts: nat, onAll: bool)

  /** A source as the run sees it: what it would emit from the start, and where a read given a checkpoint begins. */
  datatype Config = Config(stream: seq<Batch>, resumeAt: Option<Cursor> -> nat, limit: nat, retry: Option<RetryDef>)

  /** Reading with a checkpoint begins just after the batch that carried its cursor. */
  ghost predicate ResumesAfterCheckpoint(c: Config) {
    && c.limit >= 1
    && c.resumeAt(None) == 0
    && forall i :: 0 <= i < |c.stream| && c.stream[i].cursor.Some? && c.stream[i].partition == MAIN_PARTITION
         ==> c.resumeAt(c.stream[i].cursor) == i + 1
  }

  /** Every batch has a cursor in the partition the executor reads back. */
  ghost predicate AllCheckpointed(c: Config) {
    forall i :: 0 <= i < |c.stream| ==> c.stream[i].cursor.Some? && c.stream[i].partition == MAIN_PARTITION
  }

  /** The largest `concurrency` of any pipe of the pipeline, at least 1. */
  function WindowLimit(pipes: seq<PipeDef>): (limit: nat)
    ensures limit >= 1
    ensures forall p :: p in pipes && p.concurrency.Some? ==> p.concurrency.value <= limit
    ensures limit == 1 || exists p :: p in pipes && p.concurrency == Some(limit)
  {
    if pipes == [] then 1 else
      var rest := WindowLimit(pipes[1..]);
      assert pipes == [pipes[0]] + pipes[1..];
      if pipes[0].concurrency.Some? && pipes[0].concurrency.value > rest then pipes[0].concurrency.value else rest
  }

  // ---- what to do about an error ----

  datatype ErrorAction = DoRetry | DoFail | DoSkip

  /** An error as the retry policy sees it; `hook` is what the connector's `onError` answered, if anything. */
  datatype Failure = Failure(abort: bool, transient: bool, hook: Option<ErrorAction>)

  function Attempts(c: Config): nat {
    if c.retry.Some? then c.retry.value.attempts else 0
  }

  predicate ShouldRetry(retry: Option<RetryDef>, failures: nat, f: Failure) {
    if retry.None? || failures >= retry.value.attempts || f.abort then false
    else retry.value.onAll || f.transient
  }

  function ResolveErrorAction(c: Config, failures: nat, f: Failure): (a: ErrorAction)
    ensures a == DoRetry ==> failures < Attempts(c)
    ensures a == DoSkip <==> !f.abort && f.hook == Some(DoSkip)
    ensures f.abort ==> a == DoFail
  {
    if f.abort then DoFail
    else if f.hook == Some(DoSkip) || f.hook == Some(DoFail) then f.hook.value
    else if f.hook == Some(DoRetry) then
      if c.retry.Some? && failures < c.retry.value.attempts then DoRetry else DoFail
    else if ShouldRetry(c.retry, failures, f) then DoRetry else DoFail
  }

  // ---- states and steps ----

  /** A batch in flight: its place in the stream, and how its traversal ended. */
  datatype Entry = Entry(index: nat, settled: Option<bool>)

  /** `Awaiting`, `Saving` and `Marking` are inside `drainHead`; `closing` says which of the two drains it is. */
  datatype Phase =
    | Starting | Reading | Closing
    | Awaiting(closing: bool) | Saving(closing: bool) | Marking(closing: bool)
    | Recovering(failure: Failure)
    | Succeeded | Skipped | Failed

  /** What happened so far in this execution. `base` is where it started reading, `unmarked` counts
      batches whose cursor was stored by a write that failed, so that their progress was never marked. */
  datatype History = History(base: nat, processed0: nat, delivered: set<nat>, drained: nat, sent: nat, begun: nat,
                             unmarked: nat)

  /** `cached` is the count of batches in the source's record in memory, `processed` in the record stored last. */
  datatype State = State(phase: Phase, failures: nat, next: nat, head: Option<Entry>, inFlight: seq<Entry>,
                         checkpoints: map<Partition, Cursor>, cached: nat, processed: nat, h: History)

  /** A store write that fails may or may not have taken effect first. */
  datatype Write = Done | Lost(lost: Failure) | DoneButFailed(failure: Failure)

  /** The flag of a failing step tells whether the record it was to store is stored all the same. */
  datatype Action =
    | Begin | BeginFails(begun: bool) | Read | ReadDone | ReadFails(readFailure: Failure)
    | Settle(at: nat, ok: bool) | SettleHead(headOk: bool)
    | DrainHead | HeadFails(headFailure: Failure) | HeadArrives | Save(saved: Write) | Mark(marked: Write)
    | Finish | FinishFails(finishFailure: Failure, finished: bool)
    | Recover | RecoverFails(recovered: bool) | Restart

  /** Where a read begins: `connectorContext` looks up the checkpoint of partition "0" only. */
  function ResumeFrom(c: Config, checkpoints: map<Partition, Cursor>): nat {
    c.resumeAt(if MAIN_PARTITION in checkpoints then Some(checkpoints[MAIN_PARTITION]) else None)
  }

  function Resume(c: Config, s: State): nat {
    ResumeFrom(c, s.checkpoints)
  }

  ghost predicate Enabled(c: Config, s: State, a: Action) {
    match a
    case Begin => s.phase.Starting?
    case BeginFails(_) => s.phase.Starting?
    case Read => s.phase.Reading? && s.next < |c.stream|
    case ReadDone => s.phase.Reading? && s.next >= |c.stream|
    case ReadFails(_) => s.phase.Reading?
    case Settle(at, _) => at < |s.inFlight| && s.inFlight[at].settled.None?
    case SettleHead(_) => s.head.Some? && s.head.value.settled.None?
    case DrainHead => |s.inFlight| > 0 && (s.phase.Closing? || (s.phase.Reading? && |s.inFlight| >= c.limit))
    case HeadFails(_) => s.phase.Awaiting? && s.head.Some? && s.head.value.settled == Some(false)
    case HeadArrives => s.phase.Awaiting? && s.head.Some? && s.head.value.settled == Some(true)
    case Save(_) => s.phase.Saving? && s.head.Some? && s.head.value.index < |c.stream|
    case Mark(_) => s.phase.Marking? && s.head.Some?
    case Finish => s.phase.Closing? && s.inFlight == []
    case FinishFails(_, _) => s.phase.Closing? && s.inFlight == []
    case Recover => s.phase.Recovering? && AllSettled(s.inFlight)
    case RecoverFails(recovered) =>
      && s.phase.Recovering? && AllSettled(s.inFlight)
      && (recovered ==> ResolveErrorAction(c, s.failures, s.phase.failure) != DoRetry)
    case Restart => true
  }

  /** The read loop drains as soon as the window is full, before it reads again. */
  ghost predicate Urgent(c: Config, s: State) {
    s.phase.Reading? && |s.inFlight| >= c.limit
  }

  predicate AllSettled(w: seq<Entry>) {
    forall e :: e in w ==> e.settled.Some?
  }

  function Deliver(h: History, index: nat, ok: bool): History {
    if ok then h.(delivered := h.delivered + {index}) else h
  }

  function PutCheckpoint(c: Config, s: State, index: nat): map<Partition, Cursor>
    requires index < |c.stream|
  {
    var b := c.stream[index];
    if b.cursor.Some? then s.checkpoints[b.partition := b.cursor.value] else s.checkpoints
  }

  /** A progress mark counts in memory before it is stored. */
  function Count(s: State): State {
    s.(cached := s.cached + 1)
  }

  /** Every mark of the source stores the whole record, with all that was counted before. */
  function Store(s: State, written: bool): State {
    if written then s.(processed := s.cached) else s
  }

  function Back(closing: bool): Phase {
    if closing then Closing else Reading
  }

  ghost function Step(c: Config, s: State, a: Action): State
    requires Enabled(c, s, a)
  {
    match a
    case Begin => Store(s, true).(phase := Reading, next := Resume(c, s),
                                  h := s.h.(drained := Resume(c, s), begun := s.h.begun + 1))
    case BeginFails(begun) => Store(s, begun).(phase := Failed)
    case Read => s.(next := s.next + 1, inFlight := s.inFlight + [Entry(s.next, None)], h := s.h.(sent := s.h.sent + 1))
    case ReadDone => s.(phase := Closing)
    case ReadFails(f) => s.(phase := Recovering(f))
    case Settle(at, ok) =>
      s.(inFlight := s.inFlight[at := s.inFlight[at].(settled := Some(ok))],
         h := Deliver(s.h, s.inFlight[at].index, ok))
    case SettleHead(ok) =>
      s.(head := Some(s.head.value.(settled := Some(ok))), h := Deliver(s.h, s.head.value.index, ok))
    case DrainHead => s.(phase := Awaiting(s.phase.Closing?), head := Some(s.inFlight[0]), inFlight := s.inFlight[1..])
    case HeadFails(f) => s.(phase := Recovering(f), head := None)
    case HeadArrives => s.(phase := Saving(s.phase.closing), h := s.h.(drained := s.h.drained + 1))
    case Save(w) =>
      var stored := PutCheckpoint(c, s, s.head.value.index);
      (match w
       case Done => s.(phase := Marking(s.phase.closing), checkpoints := stored)
       case Lost(f) => s.(phase := Recovering(f), head := None)
       case DoneButFailed(f) =>
         s.(phase := Recovering(f), head := None, checkpoints := stored, h := s.h.(unmarked := s.h.unmarked + 1)))
    case Mark(w) =>
      (match w
       case Done => Store(Count(s), true).(phase := Back(s.phase.closing), head := None)
       case Lost(f) => Count(s).(phase := Recovering(f), head := None)
       case DoneButFailed(f) => Store(Count(s), true).(phase := Recovering(f), head := None))
    case Finish => Store(s, true).(phase := Succeeded)
    case FinishFails(f, finished) => Store(s, finished).(phase := Recovering(f))
    case Recover =>
      (match ResolveErrorAction(c, s.failures, s.phase.failure)
       case DoSkip => Store(s, true).(phase := Skipped, inFlight := [])
       case DoFail => Store(s, true).(phase := Failed, inFlight := [])
       case DoRetry => s.(phase := Starting, inFlight := [], failures := s.failures + 1))
    case RecoverFails(recovered) => Store(s, recovered).(phase := Failed, inFlight := [])
    case Restart => Fresh(c, s.checkpoints, s.processed, s.h.delivered)
  }

  /** A new execution over a store left by earlier ones. */
  function Fresh(c: Config, checkpoints: map<Partition, Cursor>, processed: nat, delivered: set<nat>): State {
    var base := ResumeFrom(c, checkpoints);
    State(Starting, 0, 0, None, [], checkpoints, processed, processed,
          History(base, processed, delivered, base, 0, 0, 0))
  }

  /** Steps the code can take: nothing but draining and settling happens while the window is full. */
  ghost predicate CanStep(c: Config, s: State, a: Action) {
    Enabled(c, s, a) && (Urgent(c, s) ==> a.DrainHead? || a.Settle? || a.Restart?)
  }

  /** `t` is reached from `s` by the actions in order. */
  ghost predicate Run(c: Config, s: State, trace: seq<Action>, t: State)
    decreases |trace|
  {
    if trace == [] then s == t
    else
      var front := trace[..|trace| - 1];
      exists m :: Run(c, s, front, m) && CanStep(c, m, trace[|trace| - 1]) && Step(c, m, trace[|trace| - 1]) == t
  }

  // ---- the invariant of every run ----

  ghost predicate DeliveredBelow(h: History, n: nat) {
    forall i: nat :: i < n ==> i in h.delivered
  }

  /** The window lies at the end of what was read, in reading order, and settled successes are delivered. */
  ghost predicate WindowOk(c: Config, s: State) {
    && |s.inFlight| <= s.next
    && (forall k :: 0 <= k < |s.inFlight| ==>
         && s.inFlight[k].index == s.next - |s.inFlight| + k < |c.stream|
         && (s.inFlight[k].settled == Some(true) ==> s.inFlight[k].index in s.h.delivered))
  }

  /** Where the drain stands relative to the window, phase by phase. */
  ghost predicate HeadOk(c: Config, s: State) {
    match s.phase
    case Awaiting(closing) =>
      && s.head.Some? && s.head.value.index == s.h.drained < |c.stream|
      && s.next == s.h.drained + 1 + |s.inFlight| && |s.inFlight| < c.limit
      && (s.head.value.settled == Some(true) ==> s.h.drained in s.h.delivered)
      && (closing ==> s.next >= |c.stream|)
    case Saving(closing) => Drained(c, s, closing)
    case Marking(closing) => Drained(c, s, closing)
    case Reading => s.head.None? && s.next == s.h.drained + |s.inFlight|
    case Closing => s.head.None? && s.next == s.h.drained + |s.inFlight| && s.next >= |c.stream|
    case Recovering(_) => s.head.None?
    case Succeeded => s.head.None? && s.inFlight == [] && s.h.drained >= |c.stream|
    case _ => s.head.None? && s.inFlight == []
  }

  ghost predicate Drained(c: Config, s: State, closing: bool) {
    && s.head.Some? && s.head.value.index + 1 == s.h.drained <= |c.stream| && s.head.value.settled.Some?
    && s.next == s.h.drained + |s.inFlight| && |s.inFlight| < c.limit
    && (closing ==> s.next >= |c.stream|)
  }

  ghost predicate Safe(c: Config, s: State) {
    && WindowOk(c, s)
    && HeadOk(c, s)
    && |s.inFlight| <= c.limit
    && Resume(c, s) <= s.h.drained
    && DeliveredBelow(s.h, s.h.drained)
  }

  lemma FreshIsSafe(c: Config, checkpoints: map<Partition, Cursor>, processed: nat, delivered: set<nat>)
    requires var s := Fresh(c, checkpoints, processed, delivered); DeliveredBelow(s.h, Resume(c, s))
    ensures Safe(c, Fresh(c, checkpoints, processed, delivered))
  {
  }

  lemma SettleKeepsSafe(c: Config, s: State, a: Action)
    requires Safe(c, s) && CanStep(c, s, a) && (a.Settle? || a.SettleHead?)
    ensures Safe(c, Step(c, s, a))
  {
    var t := Step(c, s, a);
    SameCheckpoints(c, s, t);
    forall k | 0 <= k < |t.inFlight|
      ensures t.inFlight[k].index == t.next - |t.inFlight| + k < |c.stream|
      ensures t.inFlight[k].settled == Some(true) ==> t.inFlight[k].index in t.h.delivered
    {
      assert t.inFlight[k].index == s.inFlight[k].index;
    }
  }

  lemma SameWindow(c: Config, s: State, t: State)
    requires WindowOk(c, s) && t.inFlight == s.inFlight && t.next == s.next && s.h.delivered <= t.h.delivered
    ensures WindowOk(c, t)
  {
    forall k | 0 <= k < |t.inFlight|
      ensures t.inFlight[k].index == t.next - |t.inFlight| + k < |c.stream|
      ensures t.inFlight[k].settled == Some(true) ==> t.inFlight[k].index in t.h.delivered
    {
      assert t.inFlight[k] == s.inFlight[k];
    }
  }

  /** Storing a batch's cursor moves the resume point just past it, unless it goes to no or another partition. */
  lemma PutMovesResume(c: Config, s: State, index: nat)
    requires ResumesAfterCheckpoint(c) && index < |c.stream|
    ensures ResumeFrom(c, PutCheckpoint(c, s, index))
      == if c.stream[index].cursor.Some? && c.stream[index].partition == MAIN_PARTITION then index + 1 else Resume(c, s)
  {
    var b, stored := c.stream[index], PutCheckpoint(c, s, index);
    if b.cursor.Some? && b.partition == MAIN_PARTITION {
      assert Some(stored[MAIN_PARTITION]) == b.cursor;
    } else {
      assert MAIN_PARTITION in stored <==> MAIN_PARTITION in s.checkpoints;
      assert MAIN_PARTITION in stored ==> stored[MAIN_PARTITION] == s.checkpoints[MAIN_PARTITION];
    }
  }

  lemma SaveKeepsSafe(c: Config, s: State, a: Action)
    requires ResumesAfterCheckpoint(c) && Safe(c, s) && CanStep(c, s, a) && a.Save?
    ensures Safe(c, Step(c, s, a))
  {
    PutMovesResume(c, s, s.head.value.index);
    SameWindow(c, s, Step(c, s, a));
  }

  lemma DrainKeepsSafe(c: Config, s: State, a: Action)
    requires Safe(c, s) && CanStep(c, s, a) && (a.DrainHead? || a.HeadFails? || a.HeadArrives? || a.Mark?)
    ensures Safe(c, Step(c, s, a))
  {
    var t := Step(c, s, a);
    SameCheckpoints(c, s, t);
    if a.DrainHead? {
      forall k | 0 <= k < |t.inFlight|
        ensures t.inFlight[k].index == t.next - |t.inFlight| + k < |c.stream|
        ensures t.inFlight[k].settled == Some(true) ==> t.inFlight[k].index in t.h.delivered
      {
        assert t.inFlight[k] == s.inFlight[k + 1];
      }
    } else {
      SameWindow(c, s, t);
    }
  }

  lemma ReadKeepsSafe(c: Config, s: State)
    requires Safe(c, s) && CanStep(c, s, Read)
    ensures Safe(c, Step(c, s, Read))
  {
    var t := Step(c, s, Read);
    SameCheckpoints(c, s, t);
    forall k | 0 <= k < |t.inFlight|
      ensures t.inFlight[k].index == t.next - |t.inFlight| + k < |c.stream|
      ensures t.inFlight[k].settled == Some(true) ==> t.inFlight[k].index in t.h.delivered
    {
      assert k < |s.inFlight| ==> t.inFlight[k] == s.inFlight[k];
    }
  }

  lemma StepKeepsSafe(c: Config, s: State, a: Action)
    requires ResumesAfterCheckpoint(c) && Safe(c, s) && CanStep(c, s, a)
    ensures Safe(c, Step(c, s, a))
  {
    match a {
      case Settle(_, _) => SettleKeepsSafe(c, s, a);
      case SettleHead(_) => SettleKeepsSafe(c, s, a);
      case Read => ReadKeepsSafe(c, s);
      case Save(_) => SaveKeepsSafe(c, s, a);
      case DrainHead => DrainKeepsSafe(c, s, a);
      case HeadFails(_) => DrainKeepsSafe(c, s, a);
      case HeadArrives => DrainKeepsSafe(c, s, a);
      case Mark(_) => DrainKeepsSafe(c, s, a);
      case Restart => FreshIsSafe(c, s.checkpoints, s.processed, s.h.delivered);
      case Recover => LeaveKeepsSafe(c, s, a);
      case RecoverFails(_) => LeaveKeepsSafe(c, s, a);
      case _ => PhaseKeepsSafe(c, s, a);
    }
  }

  lemma LeaveKeepsSafe(c: Config, s: State, a: Action)
    requires Safe(c, s) && CanStep(c, s, a) && (a.Recover? || a.RecoverFails?)
    ensures Safe(c, Step(c, s, a))
  {
    SameCheckpoints(c, s, Step(c, s, a));
  }

  lemma PhaseKeepsSafe(c: Config, s: State, a: Action)
    requires Safe(c, s) && CanStep(c, s, a)
    requires a.Begin? || a.BeginFails? || a.ReadDone? || a.ReadFails? || a.Finish? || a.FinishFails?
    ensures Safe(c, Step(c, s, a))
  {
    var t := Step(c, s, a);
    SameCheckpoints(c, s, t);
    assert t.inFlight == s.inFlight && t.h.delivered == s.h.delivered;
    assert if a.Begin? then t.h.drained == Resume(c, s) else t.h == s.h && t.next == s.next;
  }

  lemma SameCheckpoints(c: Config, s: State, t: State)
    requires s.checkpoints == t.checkpoints
    ensures Resume(c, s) == Resume(c, t)
  {
  }

  lemma {:induction false} RunKeepsSafe(c: Config, s: State, trace: seq<Action>, t: State)
    requires ResumesAfterCheckpoint(c) && Safe(c, s) && Run(c, s, trace, t)
    ensures Safe(c, t)
    decreases |trace|
  {
    if trace != [] {
      var front, a := trace[..|trace| - 1], trace[|trace| - 1];
      var m :| Run(c, s, front, m) && CanStep(c, m, a) && Step(c, m, a) == t;
      RunKeepsSafe(c, s, front, m);
      StepKeepsSafe(c, m, a);
    }
  }
}
