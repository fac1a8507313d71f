/** `runSource` as the program it is: nested loops over a window it mutates. At
    every await the rest of the world may settle any traversal in flight. */
module SourceRun {
  import opened Wrappers
  import opened SourceWindow
  import opened SourceDelivery

  class SourceReader {
    const c: Config
    var phase: Phase
    var failures: nat
    var next: nat
    var head: Option<Entry>
    var inFlight: seq<Entry>
    var checkpoints: map<Partition, Cursor>
    var cached: nat
    var processed: nat
    ghost var h: History
    ghost var start: State
    ghost var trace: seq<Action>

    ghost function Now(): State
      reads this
    {
      State(phase, failures, next, head, inFlight, checkpoints, cached, processed, h)
    }

    /** What has happened since construction is a run of the transition system. */
    ghost predicate Valid()
      reads this
    {
      ResumesAfterCheckpoint(c) && Safe(c, Now()) && Run(c, start, trace, Now())
    }

    /** Exactly the step `a` was taken. */
    twostate predicate Did(a: Action)
      reads this
    {
      && CanStep(c, old(Now()), a)
      && Now() == Step(c, old(Now()), a)
      && trace == old(trace) + [a] && start == old(start) && Valid()
    }

    twostate lemma Record(a: Action)
      requires old(Valid()) && CanStep(c, old(Now()), a) && Now() == Step(c, old(Now()), a)
      requires trace == old(trace) + [a] && start == old(start)
      ensures Did(a)
    {
      StepKeepsSafe(c, old(Now()), a);
      RunSnoc(c, start, old(trace), old(Now()), a);
    }

    constructor (c: Config, checkpoints: map<Partition, Cursor>, processed: nat, ghost delivered: set<nat>)
      requires ResumesAfterCheckpoint(c) && HonestStore(c, checkpoints, delivered)
      ensures this.c == c && Valid()
      ensures start == Now() == Fresh(c, checkpoints, processed, delivered)
    {
      var s0 := Fresh(c, checkpoints, processed, delivered);
      this.c, this.checkpoints, this.cached, this.processed := c, checkpoints, processed, processed;
      phase, failures, next, head, inFlight := Starting, 0, 0, None, [];
      h, start, trace := s0.h, s0, [];
      FreshIsSafe(c, checkpoints, processed, delivered);
    }

    ghost predicate Ended()
      reads this
    {
      phase.Succeeded? || phase.Skipped? || phase.Failed?
    }

    // ---- the world, at an await ----

    method SettleOne(at: nat, ok: bool)
      requires Valid() && at < |inFlight| && inFlight[at].settled.None? 
      modifies this
      ensures Did(Settle(at, ok))
    {
      inFlight := inFlight[at := inFlight[at].(settled := Some(ok))];
      h := Deliver(h, inFlight[at].index, ok);
      trace := trace + [Settle(at, ok)];
      Record(Settle(at, ok));
    }

    /** Some traversals in flight may settle, in any order; nothing else changes. */
    method Await()
      requires Valid()
      modifies this
      ensures Valid() && SameButSettled()
    {
      var i := 0;
      while i < |inFlight|
        invariant Valid() && SameButSettled()
      {
        var pick: bool, ok: bool := *, *;
        if pick && inFlight[i].settled.None? { SettleOne(i, ok); }
        i := i + 1;
      }
    }

    twostate predicate SameButSettled()
      reads this
    {
      && phase == old(phase) && failures == old(failures) && next == old(next) && head == old(head)
      && |inFlight| == |old(inFlight)| && checkpoints == old(checkpoints)
      && cached == old(cached) && processed == old(processed)
      && start == old(start)
    }

    /** `Promise.all` over what is still travelling: afterwards everything has settled. */
    method AwaitAll()
      requires Valid()
      modifies this
      ensures Valid() && SameButSettled() && AllSettled(inFlight)
    {
      var i := 0;
      while i < |inFlight|
        invariant 0 <= i <= |inFlight|
        invariant Valid() && SameButSettled()
        invariant forall k :: 0 <= k < i ==> inFlight[k].settled.Some?
      {
        var ok: bool := *;
        if inFlight[i].settled.None? { SettleOne(i, ok); }
        i := i + 1;
      }
    }

    // ---- one attempt ----

    /** `drainHead`: shift the head, wait for it, store its cursor, mark its progress. Any of the three may fail. */
    method DrainTheHead()
      requires Valid() && |inFlight| > 0 && (phase.Closing? || (phase.Reading? && |inFlight| >= c.limit))
      modifies this
      ensures Valid() && start == old(start) && failures == old(failures) && next == old(next)
      ensures phase.Recovering? || (phase == old(phase) && |inFlight| == |old(inFlight)| - 1)
    {
      var closing := phase.Closing?;
      ShiftHead(closing);
      Await();
      SettleTheHead(closing);
      HeadSettled(closing);
      if phase.Recovering? { return; }
      Await();
      SaveCheckpoint(closing);
      if phase.Recovering? { return; }
      Await();
      MarkProgress(closing);
    }

    /** Only the phase of the drain and the head move on. */
    twostate predicate SameWindow()
      reads this
    {
      && failures == old(failures) && next == old(next) && inFlight == old(inFlight) && start == old(start)
    }

    method ShiftHead(closing: bool)
      requires Valid() && |inFlight| > 0 && closing == phase.Closing?
      requires phase.Closing? || (phase.Reading? && |inFlight| >= c.limit)
      modifies this
      ensures Did(DrainHead) && phase == Awaiting(closing)
      ensures failures == old(failures) && next == old(next) && start == old(start)
      ensures |inFlight| == |old(inFlight)| - 1
    {
      phase, head, inFlight := Awaiting(closing), Some(inFlight[0]), inFlight[1..];
      trace := trace + [DrainHead];
      Record(DrainHead);
    }

    method SettleTheHead(closing: bool)
      requires Valid() && phase == Awaiting(closing)
      modifies this
      ensures Valid() && phase == Awaiting(closing) && SameWindow()
      ensures head.Some? && head.value.settled.Some?
    {
      if head.value.settled.None? {
        var ok: bool := *;
        head, h := Some(head.value.(settled := Some(ok))), Deliver(h, head.value.index, ok);
        trace := trace + [SettleHead(ok)];
        Record(SettleHead(ok));
      }
    }

    method HeadSettled(closing: bool)
      requires Valid() && phase == Awaiting(closing) && head.Some? && head.value.settled.Some?
      modifies this
      ensures Valid() && SameWindow()
      ensures phase.Recovering? || phase == Saving(closing)
      ensures if old(head.value.settled) == Some(false) then exists f :: Did(HeadFails(f)) else Did(HeadArrives)
    {
      if !head.value.settled.value {
        assert head.value.settled == Some(false);
        var f: Failure := *;
        phase, head := Recovering(f), None;
        trace := trace + [HeadFails(f)];
        Record(HeadFails(f));
      } else {
        assert head.value.settled == Some(true);
        phase, h := Saving(closing), h.(drained := h.drained + 1);
        trace := trace + [HeadArrives];
        Record(HeadArrives);
      }
    }

    method SaveCheckpoint(closing: bool)
      requires Valid() && phase == Saving(closing)
      modifies this
      ensures exists w :: Did(Save(w))
      ensures Valid() && SameWindow() && (phase.Recovering? || phase == Marking(closing))
    {
      var w: Write := *;
      var b := c.stream[head.value.index];
      if !w.Lost? && b.cursor.Some? {
        checkpoints := checkpoints[b.partition := b.cursor.value];
      }
      match w {
        case Done => phase := Marking(closing);
        case Lost(f) => phase, head := Recovering(f), None;
        case DoneButFailed(f) => phase, head, h := Recovering(f), None, h.(unmarked := h.unmarked + 1);
      }
      trace := trace + [Save(w)];
      Record(Save(w));
    }

    method MarkProgress(closing: bool)
      requires Valid() && phase == Marking(closing)
      modifies this
      ensures exists w :: Did(Mark(w))
      ensures Valid() && SameWindow() && (phase.Recovering? || phase == Back(closing))
    {
      var w: Write := *;
      cached := cached + 1;
      if !w.Lost? { processed := cached; }
      match w {
        case Done => phase, head := Back(closing), None;
        case Lost(f) => phase, head := Recovering(f), None;
        case DoneButFailed(f) => phase, head := Recovering(f), None;
      }
      trace := trace + [Mark(w)];
      Record(Mark(w));
    }

    /** Pull one batch and start its traversal without waiting for it. */
    method ReadBatch()
      requires Valid() && phase.Reading? && next < |c.stream| && |inFlight| < c.limit
      modifies this
      ensures Did(Read) && phase.Reading? && failures == old(failures) && next == old(next) + 1
      ensures start == old(start)
    {
      inFlight, next, h := inFlight + [Entry(next, None)], next + 1, h.(sent := h.sent + 1);
      trace := trace + [Read];
      Record(Read);
    }

    /** The read loop: keeps at most a window of batches travelling, until the source ends or something fails. */
    method ReadLoop()
      requires Valid() && phase.Reading? && |inFlight| < c.limit
      modifies this
      ensures Valid() && start == old(start) && failures == old(failures)
      ensures phase.Recovering? || phase.Closing?
    {
      while phase.Reading?
        invariant Valid() && start == old(start) && failures == old(failures)
        invariant phase.Reading? || phase.Recovering? || phase.Closing?
        invariant phase.Reading? ==> |inFlight| < c.limit
        decreases phase.Reading?, |c.stream| - next
      {
        Await();
        var fails: bool := *;
        if fails {
          ReadFailed();
        } else if next >= |c.stream| {
          SourceEnded();
        } else {
          ReadBatch();
          if |inFlight| >= c.limit { DrainTheHead(); }
        }
      }
    }

    /** The read throws or times out, the run is aborted, or the batch is not valid. */
    method ReadFailed()
      requires Valid() && phase.Reading? && |inFlight| < c.limit
      modifies this
      ensures Valid() && phase.Recovering? && failures == old(failures) && start == old(start)
    {
      var f: Failure := *;
      phase := Recovering(f);
      trace := trace + [ReadFails(f)];
      Record(ReadFails(f));
    }

    method SourceEnded()
      requires Valid() && phase.Reading? && |inFlight| < c.limit && next >= |c.stream|
      modifies this
      ensures Did(ReadDone) && failures == old(failures) && start == old(start)
    {
      phase := Closing;
      trace := trace + [ReadDone];
      Record(ReadDone);
    }

    /** Read the checkpoint and open the source at it. */
    method OpenSource()
      requires Valid() && phase.Starting?
      modifies this
      ensures Valid() && failures == old(failures) && start == old(start)
      ensures phase.Failed? || (phase.Reading? && |inFlight| < c.limit)
      ensures if phase.Failed? then exists begun :: Did(BeginFails(begun)) else Did(Begin)
    {
      var fails: bool, written: bool := *, *;
      if !fails || written { processed := cached; }
      if fails {
        phase := Failed;
        trace := trace + [BeginFails(written)];
        Record(BeginFails(written));
      } else {
        phase, next := Reading, ResumeFrom(c, checkpoints);
        h := h.(drained := next, begun := h.begun + 1);
        trace := trace + [Begin];
        Record(Begin);
      }
    }

    /** Everything is drained: mark the source successful, which may itself fail. */
    method Close()
      requires Valid() && phase.Closing? && inFlight == []
      modifies this
      ensures Valid() && failures == old(failures) && start == old(start)
      ensures phase.Succeeded? || phase.Recovering?
    {
      var fails: bool, written: bool, f: Failure := *, *, *;
      var a := if fails then FinishFails(f, written) else Finish;
      if !fails || written { processed := cached; }
      phase := if fails then Recovering(f) else Succeeded;
      trace := trace + [a];
      Record(a);
    }

    /** The catch block: wait for whatever still travels, then skip, fail or retry. `threw` when the handling itself
        threw, in the hook or on storing a record; otherwise a retry is made exactly when one is due. */
    method Recovery() returns (threw: bool)
      requires Valid() && phase.Recovering?
      modifies this
      ensures Valid() && start == old(start)
      ensures var f := old(phase).failure;
              if threw then phase.Failed?
              else (phase.Starting? <==> RetryDue(c, old(failures), f))
                   && (phase.Skipped? <==> !f.abort && f.hook == Some(DoSkip))
      ensures if phase.Starting? then failures == old(failures) + 1 <= Attempts(c)
              else Ended() && failures == old(failures)
    {
      AwaitAll();
      label waited:
      threw := false;
      RecoverDecides(c, Now());
      var hookThrows: bool := *;
      var action := ResolveErrorAction(c, failures, phase.failure);
      inFlight := [];
      if hookThrows {
        threw := true;
        phase := Failed;
        trace := trace + [RecoverFails(false)];
        Record@waited(RecoverFails(false));
        return;
      }
      var markFails: bool, written: bool := *, *;
      if action != DoRetry && (!markFails || written) { processed := cached; }
      if markFails {
        threw := true;
        phase := Failed;
        trace := trace + [RecoverFails(action != DoRetry && written)];
        Record@waited(RecoverFails(action != DoRetry && written));
        return;
      }
      match action {
        case DoSkip => phase := Skipped;
        case DoFail => phase := Failed;
        case DoRetry => phase, failures := Starting, failures + 1;
      }
      trace := trace + [Recover];
      Record@waited(Recover);
    }

    /** `while (inFlight.length > 0) await drainHead()`. */
    method DrainRest()
      requires Valid() && phase.Closing?
      modifies this
      ensures Valid() && start == old(start) && failures == old(failures)
      ensures phase.Recovering? || (phase.Closing? && inFlight == [])
    {
      while phase.Closing? && |inFlight| > 0
        invariant Valid() && start == old(start) && failures == old(failures)
        invariant phase.Closing? || phase.Recovering?
        decreases if phase.Closing? then 1 else 0, |inFlight|
      {
        DrainTheHead();
      }
    }

    /** One reading of the source: to its end, or into the catch block. */
    method Attempt()
      requires Valid() && phase.Starting?
      modifies this
      ensures Valid() && start == old(start) && failures == old(failures)
      ensures phase.Failed? || phase.Succeeded? || phase.Recovering?
    {
      OpenSource();
      if phase.Reading? { ReadLoop(); }
      if phase.Closing? { DrainRest(); }
      if phase.Closing? { Close(); }
    }

    /** Ends in success, skipped or failed, by a run of the transition system. */
    method RunSource()
      requires Valid() && phase.Starting? && failures <= Attempts(c)
      modifies this
      ensures Valid() && start == old(start) && Ended()
    {
      while phase.Starting?
        invariant Valid() && start == old(start) && failures <= Attempts(c)
        invariant phase.Starting? || Ended()
        decreases Attempts(c) - failures + if phase.Starting? then 1 else 0
      {
        Attempt();
        if phase.Recovering? {
          var threw := Recovery();
        }
      }
    }
  }
}
