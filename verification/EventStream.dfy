/**
 * The live stream of a run's events (apps/workflow-server/src/routes/runs.ts): a
 * poller reads the event store, writes what is new, and says when the run is over.
 * Each stretch between two awaits is one step; anything may happen in between.
 */
module EventStream {
  import opened Wrappers

  /** `terminal`: a run.status event whose status ends the run. */
  datatype Event = Event(number: nat, terminal: bool)

  /** What the poller is waiting for. `second` is the read after the run record. */
  datatype Wait = Nothing | ForEvents(second: bool) | ForRun

  /** The variables of one stream, and what it has written to the client. */
  datatype Poller = Poller(
    after: nat,
    closed: bool,
    finished: bool,
    idleTicks: nat,
    polling: bool,
    waiting: Wait,
    sent: seq<Event>,
    ends: nat)

  // ---- The poller ----

  function Subscribed(start: nat): Poller {
    Poller(start, false, false, 0, false, ForEvents(false), [], 0)
  }

  function Stop(p: Poller): Poller {
    p.(closed := true, polling := false)
  }

  /** A write is over: the timer runs unless the stream was stopped. */
  function Done(p: Poller): Poller {
    p.(waiting := Nothing, polling := !p.closed)
  }

  function End(p: Poller): Poller {
    Done(Stop(p).(ends := p.ends + 1))
  }

  /** One write at a time, and none once the stream is closed. */
  function Tick(p: Poller): Poller {
    if !p.polling || p.closed || p.waiting != Nothing then p else p.(waiting := ForEvents(false))
  }

  function Flushed(p: Poller, found: seq<Event>): Poller
    decreases |found|
  {
    if |found| == 0 then p
    else
      var e := found[0];
      Flushed(p.(sent := p.sent + [e], after := e.number, finished := p.finished || e.terminal), found[1..])
  }

  function GotEvents(p: Poller, found: seq<Event>): Poller
    requires p.waiting.ForEvents?
  {
    var q := Flushed(p, found);
    if p.waiting.second then End(q)
    else if |found| > 0 then Done(q)
    else if q.finished then End(q)
    else if q.idleTicks % 10 != 0 then Done(q.(idleTicks := q.idleTicks + 1))
    else q.(idleTicks := q.idleTicks + 1, waiting := ForRun)
  }

  /** The run record: missing, or whether its status is terminal. */
  function GotRun(p: Poller, run: Option<bool>): Poller
    requires p.waiting.ForRun?
  {
    if p.closed || run == Some(false) then Done(p) else p.(waiting := ForEvents(true))
  }

  /** A read that throws leaves the timer as it was: not yet started, after the very first read. */
  function Failed(p: Poller): Poller {
    p.(waiting := Nothing)
  }

  // ---- The poller and its surroundings ----

  /** The answer a store has given and the poller has not yet seen. */
  datatype Answer = NoAnswer | Events(upTo: nat) | RunRecord(run: Option<bool>, at: nat)

  /**
   * `asked`: how many events were stored when the last read that was used was
   * answered; `known`: how many when the run was seen to be over, by an event that
   * ends it or by a record that is not of a run in progress.
   */
  datatype World = World(
    poller: Poller,
    store: seq<Event>,
    run: Option<bool>,
    answer: Answer,
    asked: nat,
    known: Option<nat>)

  datatype Action =
    | Append(event: Event)
    | SetRun(run: Option<bool>)
    | ClientCloses
    | TimerFires
    | StoreAnswers
    | PollerResumes
    | ReadFails

  /** The events after `after`, in order. */
  function Since(store: seq<Event>, after: nat): seq<Event>
    decreases |store|
  {
    if |store| == 0 then []
    else
      var last := store[|store| - 1];
      Since(store[..|store| - 1], after) + if last.number > after then [last] else []
  }

  /** What a read answered when `upTo` events were stored brings. */
  function Found(w: World): seq<Event>
    requires w.answer.Events? && w.answer.upTo <= |w.store|
  {
    Since(w.store[..w.answer.upTo], w.poller.after)
  }

  function Answered(w: World): World {
    if w.answer != NoAnswer then w
    else
      match w.poller.waiting
      case Nothing => w
      case ForEvents(_) => w.(answer := Events(|w.store|))
      case ForRun => w.(answer := RunRecord(w.run, |w.store|))
  }

  function Resumed(w: World): World
    requires Paired(w)
  {
    match w.answer
    case NoAnswer => w
    case Events(upTo) =>
      var q := GotEvents(w.poller, Found(w));
      w.(poller := q, answer := NoAnswer, asked := upTo,
         known := if HoldsTerminal(Found(w)) && !w.poller.waiting.second then Some(|w.store|) else w.known)
    case RunRecord(run, at) =>
      var q := GotRun(w.poller, run);
      w.(poller := q, answer := NoAnswer, known := if run != Some(false) then Some(at) else w.known)
  }

  /** An answer is the answer to what the poller waits for. */
  predicate Paired(w: World) {
    && (w.answer.Events? ==> w.poller.waiting.ForEvents? && w.answer.upTo <= |w.store|)
    && (w.answer.RunRecord? ==> w.poller.waiting.ForRun? && w.answer.at <= |w.store|)
  }

  function Step(w: World, a: Action): World
    requires Paired(w)
  {
    match a
    case Append(event) => w.(store := w.store + [event])
    case SetRun(run) => w.(run := run)
    case ClientCloses => w.(poller := Stop(w.poller))
    case TimerFires => w.(poller := Tick(w.poller))
    case StoreAnswers => Answered(w)
    case PollerResumes => Resumed(w)
    case ReadFails => if w.poller.waiting == Nothing then w else w.(poller := Failed(w.poller), answer := NoAnswer)
  }

  /** The store numbers events upwards. */
  predicate CanStep(w: World, a: Action) {
    a.Append? ==> forall i :: 0 <= i < |w.store| ==> w.store[i].number < a.event.number
  }

  lemma StepPaired(w: World, a: Action)
    requires Paired(w)
    ensures Paired(Step(w, a))
  {
  }

  /** The state after some actions; none if one of them could not happen. */
  function Run(w: World, actions: seq<Action>): Option<World>
    requires Paired(w)
    decreases |actions|
  {
    if |actions| == 0 then Some(w)
    else if !CanStep(w, actions[0]) then None
    else
      StepPaired(w, actions[0]);
      Run(Step(w, actions[0]), actions[1..])
  }

  function Opened(start: nat, store: seq<Event>, run: Option<bool>): (w: World)
    ensures Paired(w)
  {
    World(Subscribed(start), store, run, NoAnswer, 0, None)
  }

  // ---- Reading a growing store ----

  predicate Increasing(store: seq<Event>) {
    forall i, j :: 0 <= i < j < |store| ==> store[i].number < store[j].number
  }

  /** The largest number the client has, or where it subscribed. */
  function Last(start: nat, sent: seq<Event>): nat {
    if |sent| == 0 then start else sent[|sent| - 1].number
  }

  lemma {:induction false} SinceBounds(store: seq<Event>, after: nat)
    requires Increasing(store)
    ensures Increasing(Since(store, after))
    ensures forall e :: e in Since(store, after) <==> e in store && e.number > after
    decreases |store|
  {
    if |store| > 0 {
      var front, last := store[..|store| - 1], store[|store| - 1];
      SinceBounds(front, after);
      assert store == front + [last];
      forall e | e in Since(front, after)
        ensures e.number < last.number
      {
        assert e in front;
      }
    }
  }

  /** After what was already read, exactly the rest is new. */
  lemma {:induction false} SinceSplits(store: seq<Event>, n: nat, start: nat)
    requires Increasing(store) && n <= |store|
    ensures var seen := Since(store[..n], start);
            Since(store, start) == seen + Since(store, Last(start, seen))
    decreases |store|
  {
    if n == |store| {
      assert store[..n] == store;
      NothingNew(store, start);
    } else {
      var front, last := store[..|store| - 1], store[|store| - 1];
      assert front[..n] == store[..n];
      SinceSplits(front, n, start);
      LastBelow(store[..n], start, last.number);
    }
  }

  lemma LastBelow(store: seq<Event>, start: nat, above: nat)
    requires Increasing(store) && forall e :: e in store ==> e.number < above
    ensures Last(start, Since(store, start)) < above <==> start < above
    ensures start >= above ==> Since(store, start) == []
  {
    SinceBounds(store, start);
    var seen := Since(store, start);
    assert |seen| > 0 ==> seen[|seen| - 1] in seen;
  }

  lemma {:induction false} NoneAfter(store: seq<Event>, after: nat)
    requires forall i :: 0 <= i < |store| ==> store[i].number <= after
    ensures Since(store, after) == []
    decreases |store|
  {
    if |store| > 0 {
      NoneAfter(store[..|store| - 1], after);
    }
  }

  lemma NothingNew(store: seq<Event>, start: nat)
    requires Increasing(store)
    ensures Since(store, Last(start, Since(store, start))) == []
  {
    if |store| > 0 {
      var front, last := store[..|store| - 1], store[|store| - 1];
      if last.number > start {
        NoneAfter(store, last.number);
      } else {
        NoneAfter(store, start);
      }
    }
  }

  /** Two reads, the later from where the earlier ended, bring what one later read would. */
  lemma CatchUp(store: seq<Event>, asked: nat, upTo: nat, start: nat)
    requires Increasing(store) && asked <= upTo <= |store|
    ensures var seen := Since(store[..asked], start);
            Since(store[..upTo], start) == seen + Since(store[..upTo], Last(start, seen))
  {
    assert store[..upTo][..asked] == store[..asked];
    SinceSplits(store[..upTo], asked, start);
  }

  lemma LastJoins(start: nat, a: seq<Event>, b: seq<Event>)
    ensures Last(Last(start, a), b) == Last(start, a + b)
  {
  }

  // ---- Exactly once, in order ----

  lemma {:induction false} FlushedShape(p: Poller, found: seq<Event>)
    ensures var q := Flushed(p, found);
            && q.sent == p.sent + found
            && q.after == Last(p.after, found)
            && q.finished == (p.finished || exists e :: e in found && e.terminal)
            && q == p.(sent := q.sent, after := q.after, finished := q.finished)
    decreases |found|
  {
    if |found| > 0 {
      var e := found[0];
      var next := p.(sent := p.sent + [e], after := e.number, finished := p.finished || e.terminal);
      FlushedShape(next, found[1..]);
      assert p.sent + [e] + found[1..] == p.sent + found;
      assert found == [e] + found[1..];
    }
  }

  predicate HoldsTerminal(found: seq<Event>) {
    exists e :: e in found && e.terminal
  }

  /** What a read of events does to the poller, whatever it decides next. */
  lemma GotEventsShape(p: Poller, found: seq<Event>)
    requires p.waiting.ForEvents?
    ensures var q := GotEvents(p, found);
            && q.sent == p.sent + found
            && q.after == Last(p.after, found)
            && q.finished == (p.finished || HoldsTerminal(found))
            && (q.ends == p.ends || (q.ends == p.ends + 1 && q.closed && !q.polling && q.waiting == Nothing))
            && (q.ends > p.ends ==> p.waiting.second || (found == [] && p.finished))
            && (q.ends == p.ends ==> q.closed == p.closed && (q.waiting == Nothing || q.waiting == ForRun))
            && (p.closed && !p.polling ==> !q.polling)
            && (q.waiting == ForRun ==> q.polling == p.polling)
  {
    hide Flushed;
    FlushedShape(p, found);
  }

  /** What holds at every moment of a stream that started after `start`. */
  ghost predicate Faithful(w: World, start: nat) {
    && Paired(w) && Increasing(w.store) && w.asked <= |w.store|
    && w.poller.sent == Since(w.store[..w.asked], start)
    && w.poller.after == Last(start, w.poller.sent)
    && (w.answer.Events? ==> w.asked <= w.answer.upTo)
  }

  /** The end is announced at most once, on closing, and only when everything known to be due has been sent. */
  ghost predicate EndsWell(w: World) {
    var p := w.poller;
    && Paired(w)
    && p.ends <= 1
    && (p.closed ==> !p.polling)
    && (p.ends == 1 ==> p.closed && p.waiting == Nothing && w.known.Some? && w.known.value <= w.asked)
    && (w.known.Some? ==> w.known.value <= |w.store|)
    && (p.finished || p.waiting == ForEvents(true) ==> w.known.Some?)
    && (w.answer.Events? && (p.finished || p.waiting == ForEvents(true)) ==> w.known.value <= w.answer.upTo)
  }

  lemma AppendKeeps(w: World, e: Event, start: nat)
    requires Faithful(w, start) && CanStep(w, Append(e))
    ensures Faithful(Step(w, Append(e)), start)
  {
    assert (w.store + [e])[..w.asked] == w.store[..w.asked];
  }

  lemma EventsKeep(w: World, start: nat)
    requires Faithful(w, start) && w.answer.Events?
    ensures Faithful(Resumed(w), start)
  {
    hide GotEvents, Since, Last, Increasing;
    var p := w.poller;
    CatchUp(w.store, w.asked, w.answer.upTo, start);
    LastJoins(start, p.sent, Found(w));
    GotEventsShape(p, Found(w));
  }

  lemma RunRecordKeeps(w: World, start: nat)
    requires Faithful(w, start) && w.answer.RunRecord?
    ensures Faithful(Resumed(w), start)
  {
    hide Since, Last, Increasing;
  }

  lemma EventsEndWell(w: World)
    requires EndsWell(w) && w.answer.Events? && w.asked <= w.answer.upTo
    ensures EndsWell(Resumed(w))
  {
    hide GotEvents, Since, Last;
    GotEventsShape(w.poller, Found(w));
  }

  /** Every step keeps the stream faithful and its end well placed. */
  lemma StepKeeps(w: World, a: Action, start: nat)
    requires Faithful(w, start) && EndsWell(w) && CanStep(w, a)
    ensures Faithful(Step(w, a), start) && EndsWell(Step(w, a))
  {
    hide Since, Last;
    match a
    case Append(e) => AppendKeeps(w, e, start);
    case PollerResumes =>
      if w.answer.Events? {
        EventsKeep(w, start);
        EventsEndWell(w);
      } else if w.answer.RunRecord? {
        RunRecordKeeps(w, start);
      }
    case _ =>
  }

  // ---- Over whole runs ----

  lemma OpenedHolds(start: nat, store: seq<Event>, run: Option<bool>)
    requires Increasing(store)
    ensures Faithful(Opened(start, store, run), start) && EndsWell(Opened(start, store, run))
  {
  }

  lemma {:induction false} RunKeeps(w: World, actions: seq<Action>, start: nat)
    requires Faithful(w, start) && EndsWell(w)
    ensures Run(w, actions).Some? ==> Faithful(Run(w, actions).value, start) && EndsWell(Run(w, actions).value)
    decreases |actions|
  {
    hide EndsWell, Step, CanStep;
    if |actions| > 0 && CanStep(w, actions[0]) {
      StepKeeps(w, actions[0], start);
      RunKeeps(Step(w, actions[0]), actions[1..], start);
    }
  }

  /** At every moment the client has a run of the store from `start` on: no gap, no repeat, in order. */
  lemma ExactlyOnce(start: nat, store: seq<Event>, run: Option<bool>, actions: seq<Action>)
    ensures Increasing(store) && Run(Opened(start, store, run), actions).Some? ==>
              var w := Run(Opened(start, store, run), actions).value;
              && w.poller.sent <= Since(w.store, start)
              && Increasing(w.poller.sent)
              && (forall e :: e in w.poller.sent ==> e in w.store && e.number > start)
  {
    if Increasing(store) && Run(Opened(start, store, run), actions).Some? {
      hide Run;
      OpenedHolds(start, store, run);
      RunKeeps(Opened(start, store, run), actions, start);
      var w := Run(Opened(start, store, run), actions).value;
      SinceSplits(w.store, w.asked, start);
      SinceBounds(w.store[..w.asked], start);
    }
  }

  /** The end is announced once, and only after all that was stored when the run was seen to be over. */
  lemma EndMeansAll(start: nat, store: seq<Event>, run: Option<bool>, actions: seq<Action>)
    ensures Increasing(store) && Run(Opened(start, store, run), actions).Some? ==>
              var w := Run(Opened(start, store, run), actions).value;
              w.poller.ends > 0 ==>
                && w.poller.ends == 1 && w.poller.closed
                && w.known.Some? && w.known.value <= |w.store|
                && Since(w.store[..w.known.value], start) <= w.poller.sent
  {
    if Increasing(store) && Run(Opened(start, store, run), actions).Some? {
      hide Run;
      OpenedHolds(start, store, run);
      RunKeeps(Opened(start, store, run), actions, start);
      var w := Run(Opened(start, store, run), actions).value;
      if w.poller.ends > 0 {
        CatchUp(w.store, w.known.value, w.asked, start);
      }
    }
  }

  /** Not polling and waiting for nothing. */
  predicate Silent(w: World) {
    !w.poller.polling && w.poller.waiting == Nothing && w.answer == NoAnswer
  }

  /** A silent stream writes nothing more, whatever happens. */
  lemma {:induction false} SilentForever(w: World, actions: seq<Action>)
    requires Paired(w)
    ensures Silent(w) && Run(w, actions).Some? ==>
              var v := Run(w, actions).value;
              Silent(v) && v.poller.sent == w.poller.sent && v.poller.ends == w.poller.ends
    decreases |actions|
  {
    if Silent(w) && |actions| > 0 && CanStep(w, actions[0]) {
      hide CanStep;
      SilentForever(Step(w, actions[0]), actions[1..]);
    }
  }

  /** The end is the last thing written. */
  lemma NothingAfterTheEnd(w: World, actions: seq<Action>, start: nat)
    ensures Faithful(w, start) && EndsWell(w) && w.poller.ends == 1 && Run(w, actions).Some? ==>
              var v := Run(w, actions).value;
              v.poller.sent == w.poller.sent && v.poller.ends == 1
  {
    if Faithful(w, start) && EndsWell(w) && w.poller.ends == 1 {
      SilentForever(w, actions);
    }
  }

  // ---- The stream that never starts ----

  /** A read of the first write throws: up to then the poller has been waiting all along. */
  predicate FirstWriteFails(w: World, actions: seq<Action>)
    requires Paired(w)
    decreases |actions|
  {
    && |actions| > 0 && w.poller.waiting != Nothing
    && (actions[0].ReadFails? || FirstWriteFails(Step(w, actions[0]), actions[1..]))
  }

  /** The first write is not over, so the timer does not run yet. */
  predicate Starting(w: World) {
    !w.poller.polling && !w.poller.closed && w.poller.ends == 0 && w.poller.waiting != Nothing
  }

  /** The timer runs, or has run its course. */
  predicate Started(w: World) {
    (w.poller.polling && !w.poller.closed) || w.poller.ends > 0
  }

  lemma StartedStays(w: World, a: Action)
    requires Paired(w) && Started(w) && a != ClientCloses
    ensures Started(Step(w, a))
  {
    hide GotEvents, Since, HoldsTerminal;
    if a.PollerResumes? && w.answer.Events? {
      GotEventsShape(w.poller, Found(w));
      if !w.poller.closed {
        GotEventsPolls(w.poller, Found(w));
      }
    }
  }

  /** Once it has looked, the poller has its timer, has ended, or asks for the run record. */
  lemma GotEventsPolls(p: Poller, found: seq<Event>)
    requires p.waiting.ForEvents? && !p.closed
    ensures var q := GotEvents(p, found);
            q.ends > p.ends || (!q.closed && (q.waiting == Nothing ==> q.polling))
  {
    hide Flushed;
    FlushedShape(p, found);
  }

  lemma StartingStep(w: World, a: Action)
    requires Paired(w) && Starting(w) && a != ClientCloses
    ensures if a.ReadFails? then Silent(Step(w, a)) && Step(w, a).poller.ends == 0
            else Starting(Step(w, a)) || Started(Step(w, a))
    ensures Started(Step(w, a)) ==> Step(w, a).poller.waiting == Nothing
  {
    hide GotEvents, Since, HoldsTerminal;
    if a.PollerResumes? && w.answer.Events? {
      GotEventsShape(w.poller, Found(w));
      GotEventsPolls(w.poller, Found(w));
    }
  }

  lemma {:induction false} StartedGoesOn(w: World, actions: seq<Action>)
    requires Paired(w) && Started(w) && ClientCloses !in actions && Run(w, actions).Some?
    ensures Started(Run(w, actions).value)
    decreases |actions|
  {
    if |actions| > 0 {
      hide Step, CanStep;
      StartedStays(w, actions[0]);
      StartedGoesOn(Step(w, actions[0]), actions[1..]);
    }
  }

  lemma {:induction false} StartingFailsIff(w: World, actions: seq<Action>)
    requires Paired(w) && Starting(w) && ClientCloses !in actions && Run(w, actions).Some?
    ensures var v := Run(w, actions).value; Silent(v) && v.poller.ends == 0 <==> FirstWriteFails(w, actions)
    decreases |actions|
  {
    if |actions| > 0 {
      hide Step, CanStep;
      var a, v, rest := actions[0], Step(w, actions[0]), actions[1..];
      StartingStep(w, a);
      if a.ReadFails? {
        SilentForever(v, rest);
      } else if Starting(v) {
        StartingFailsIff(v, rest);
      } else {
        StartedGoesOn(v, rest);
      }
    }
  }

  /** Unless the client leaves, a stream falls silent without an end exactly when a read of its first write
      throws: no timer was set yet, and none will be. */
  lemma FirstWriteFailsIff(start: nat, store: seq<Event>, run: Option<bool>, actions: seq<Action>)
    ensures ClientCloses !in actions && Run(Opened(start, store, run), actions).Some? ==>
              var w := Run(Opened(start, store, run), actions).value;
              Silent(w) && w.poller.ends == 0 <==> FirstWriteFails(Opened(start, store, run), actions)
  {
    if ClientCloses !in actions && Run(Opened(start, store, run), actions).Some? {
      StartingFailsIff(Opened(start, store, run), actions);
    }
  }

  /** The first read can succeed and the stream still be lost: nothing new, and then the run record cannot be read. */
  lemma RunReadFails(start: nat)
    ensures FirstWriteFails(Opened(start, [], Some(false)), [StoreAnswers, PollerResumes, ReadFails])
  {
    var w := Opened(start, [], Some(false));
    var looked := Step(Step(w, StoreAnswers), PollerResumes);
    assert Found(Step(w, StoreAnswers)) == [];
    assert looked.poller.waiting == ForRun;
    assert FirstWriteFails(looked, [ReadFails]);
    assert [StoreAnswers, PollerResumes, ReadFails][1..] == [PollerResumes, ReadFails];
    assert [PollerResumes, ReadFails][1..] == [ReadFails];
  }

  // ---- The stream does end ----

  /** One round of the timer in which every read is answered. */
  function Polled(w: World): (v: World)
    requires Paired(w)
    ensures Paired(v)
  {
    Turn(Turn(Turn(w.(poller := Tick(w.poller)))))
  }

  function Turn(w: World): (v: World)
    requires Paired(w)
    ensures Paired(v)
  {
    Resumed(Answered(w))
  }

  function Polls(w: World, n: nat): (v: World)
    requires Paired(w)
    ensures Paired(v)
    decreases n
  {
    if n == 0 then w else Polls(Polled(w), n - 1)
  }

  predicate Ready(w: World) {
    w.poller.polling && !w.poller.closed && w.poller.waiting == Nothing && w.answer == NoAnswer
  }

  /** A round that finds nothing new ends the stream, or counts one more idle tick. */
  lemma QuietPoll(w: World)
    requires Paired(w) && Ready(w) && w.run != Some(false)
    requires Since(w.store, w.poller.after) == []
    ensures var p, q := w.poller, Polled(w).poller;
            if p.finished || p.idleTicks % 10 == 0 then q.ends == p.ends + 1 && Silent(Polled(w))
            else Polled(w) == w.(poller := p.(idleTicks := p.idleTicks + 1), asked := |w.store|)
  {
    hide Since;
    assert w.store[..|w.store|] == w.store;
    var ticked := w.(poller := Tick(w.poller));
    var one := Turn(ticked);
    assert Found(Answered(ticked)) == [];
    if w.poller.finished || w.poller.idleTicks % 10 != 0 {
      assert Turn(one) == one;
    } else {
      assert one.poller == w.poller.(idleTicks := w.poller.idleTicks + 1, waiting := ForRun);
      var two := Turn(one);
      assert two.poller.waiting == ForEvents(true);
      assert Found(Answered(two)) == [];
    }
  }

  lemma {:induction false} SilentPolls(w: World, n: nat)
    requires Paired(w) && Silent(w)
    ensures Polls(w, n).poller.ends == w.poller.ends
  {
    if n > 0 {
      assert Polled(w) == w;
      SilentPolls(w, n - 1);
    }
  }

  /** How many quiet rounds pass before the run record is read. */
  function Patience(p: Poller): nat {
    if p.finished || p.idleTicks % 10 == 0 then 0 else 10 - p.idleTicks % 10
  }

  lemma PatienceFalls(p: Poller)
    ensures Patience(p) == 0 <==> p.finished || p.idleTicks % 10 == 0
    ensures Patience(p) > 0 ==> Patience(p.(idleTicks := p.idleTicks + 1)) == Patience(p) - 1
  {
    NextTick(p.idleTicks);
  }

  lemma NextTick(n: nat)
    ensures (n + 1) % 10 == if n % 10 == 9 then 0 else n % 10 + 1
  {
    var tens, ones := n / 10, n % 10;
    assert n + 1 == if ones == 9 then 10 * (tens + 1) else 10 * tens + (ones + 1);
  }

  lemma {:induction false} QuietPollsEnd(w: World, n: nat)
    requires Paired(w) && Ready(w) && w.run != Some(false)
    requires Since(w.store, w.poller.after) == []
    requires n > Patience(w.poller)
    ensures Polls(w, n).poller.ends == w.poller.ends + 1
    decreases n
  {
    hide Since, Polled, Patience;
    QuietPoll(w);
    PatienceFalls(w.poller);
    if Patience(w.poller) == 0 {
      SilentPolls(Polled(w), n - 1);
    } else {
      QuietPollsEnd(Polled(w), n - 1);
    }
  }

  /** A round that finds something new writes all of it. */
  lemma BusyPoll(w: World, start: nat)
    requires Faithful(w, start) && Ready(w)
    requires Since(w.store, w.poller.after) != []
    ensures Faithful(Polled(w), start) && Ready(Polled(w))
    ensures var v := Polled(w); v.store == w.store && v.run == w.run && v.poller.ends == w.poller.ends
    ensures Since(Polled(w).store, Polled(w).poller.after) == []
  {
    hide Since, Last, Increasing;
    assert w.store[..|w.store|] == w.store;
    var asked := Answered(w.(poller := Tick(w.poller)));
    EventsKeep(asked, start);
    var one := Resumed(asked);
    GotEventsShape(asked.poller, Found(asked));
    assert Polled(w) == one;
    assert one.store[..one.asked] == one.store;
    NothingNew(one.store, start);
  }

  /** Once the run is over and nothing more is stored, eleven rounds end the stream. */
  lemma ElevenPollsEnd(w: World, start: nat)
    ensures Faithful(w, start) && EndsWell(w) && Ready(w) && w.run != Some(false) ==>
              Polls(w, 11).poller.ends == 1
  {
    if Faithful(w, start) && EndsWell(w) && Ready(w) && w.run != Some(false) {
      hide Polled, Since;
      if Since(w.store, w.poller.after) == [] {
        QuietPollsEnd(w, 11);
      } else {
        BusyPoll(w, start);
        QuietPollsEnd(Polled(w), 10);
        assert Polls(w, 11) == Polls(Polled(w), 10);
      }
    }
  }

  lemma FailureReadies(w: World)
    requires EndsWell(w) && w.poller.polling && w.poller.waiting != Nothing
    ensures var v := Step(w, ReadFails); Paired(v) && Ready(v) && v.run == w.run
  {
  }

  /** A read that fails later costs nothing: the timer goes on, and eleven rounds end the stream as before. */
  lemma LaterFailureEnds(w: World, start: nat)
    ensures Faithful(w, start) && EndsWell(w) && w.poller.polling && w.poller.waiting != Nothing
            && w.run != Some(false) ==>
              Polls(Step(w, ReadFails), 11).poller.ends == 1
  {
    if Faithful(w, start) && EndsWell(w) && w.poller.polling && w.poller.waiting != Nothing && w.run != Some(false) {
      hide Polls, Since, Last, Increasing;
      StepKeeps(w, ReadFails, start);
      FailureReadies(w);
      hide Step, Faithful, EndsWell;
      ElevenPollsEnd(Step(w, ReadFails), start);
    }
  }

  // ---- The stream object ----

  class Stream {
    var after: nat
    var closed: bool
    var writing: bool
    var finished: bool
    var idleTicks: nat
    var polling: bool
    /** Which read the write in progress awaits. */
    var waiting: Wait
    /** What has been written to the response. */
    var sent: seq<Event>
    var ends: nat

    ghost predicate Valid()
      reads this
    {
      writing <==> waiting != Nothing
    }

    ghost function State(): Poller
      reads this
    {
      Poller(after, closed, finished, idleTicks, polling, waiting, sent, ends)
    }

    /** The handler up to its first await. */
    constructor (start: nat)
      ensures Valid() && State() == Subscribed(start)
    {
      after, closed, finished, idleTicks := start, false, false, 0;
      polling, writing, waiting := false, true, ForEvents(false);
      sent, ends := [], 0;
    }

    method StopStream()
      requires Valid()
      modifies `closed, `polling
      ensures Valid() && State() == Stop(old(State()))
    {
      closed, polling := true, false;
    }

    /** The timer's callback, up to its first await. */
    method Write()
      requires Valid()
      modifies `writing, `waiting
      ensures Valid() && State() == Tick(old(State()))
    {
      if !polling || closed || writing {
        return;
      }
      writing := true;
      waiting := ForEvents(false);
    }

    method Flush(found: seq<Event>)
      modifies `after, `finished, `sent
      ensures State() == Flushed(old(State()), found)
    {
      var i := 0;
      assert found[i..] == found;
      while i < |found|
        invariant 0 <= i <= |found|
        invariant Flushed(State(), found[i..]) == Flushed(old(State()), found)
      {
        var event := found[i];
        assert found[i..][1..] == found[i + 1..];
        sent := sent + [event];
        after := event.number;
        if event.terminal {
          finished := true;
        }
        i := i + 1;
      }
    }

    /** The end of a write: `finally`, and the timer if this was the first. */
    method Leave()
      modifies `writing, `waiting, `polling
      ensures Valid() && State() == Done(old(State()))
    {
      writing := false;
      waiting := Nothing;
      polling := !closed;
    }

    method Finish()
      modifies `closed, `polling, `ends, `writing, `waiting
      requires Valid()
      ensures Valid() && State() == End(old(State()))
    {
      StopStream();
      ends := ends + 1;
      Leave();
    }

    method OnEvents(found: seq<Event>)
      requires Valid() && waiting.ForEvents?
      modifies this
      ensures Valid() && State() == GotEvents(old(State()), found)
    {
      var second := waiting.second;
      Flush(found);
      if !second {
        if |found| > 0 {
          Leave();
          return;
        }
        if !finished {
          var tick := idleTicks;
          idleTicks := idleTicks + 1;
          if tick % 10 != 0 {
            Leave();
          } else {
            waiting := ForRun;
          }
          return;
        }
      }
      Finish();
    }

    method OnRun(run: Option<bool>)
      requires Valid() && waiting.ForRun?
      modifies `writing, `waiting, `polling
      ensures Valid() && State() == GotRun(old(State()), run)
    {
      if closed || run == Some(false) {
        Leave();
      } else {
        waiting := ForEvents(true);
      }
    }

    method OnFailure()
      requires Valid()
      modifies `writing, `waiting
      ensures Valid() && State() == Failed(old(State()))
    {
      writing := false;
      waiting := Nothing;
    }
  }
}
