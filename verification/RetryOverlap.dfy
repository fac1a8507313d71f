/**
 * The promise of `runSource`'s error branch, that a retry never overlaps the writes of the attempt before
 * it (packages/workflow-engine/src/runtime/executor.ts:441-445): the source's window and the traversals of
 * the batches it has sent, side by side.
 */
module RetryOverlap {
  import opened Wrappers
  import opened Graphs
  import opened SourceWindow
  import SourceDelivery
  import Routing
  import Traversal

  /** A source in its pipeline: what it reads, and the batch at each place of its stream. What the net's
      `work` says of the source itself is that batch. `writes` says which pipes change something outside. */
  datatype Setup = Setup(c: Config, net: Routing.Net, deadline: Id -> bool, writes: Id -> bool, source: Id,
                         batchAt: nat -> Routing.Batch)

  /** `tasks` are the traversals of this attempt in reading order: the last of them are in flight, and the one
      being drained comes just before those. `earlier` are the traversals of the attempts before. */
  datatype World = World(s: State, tasks: seq<Traversal.Task>, earlier: seq<Traversal.Task>)

  function ItemAt(x: Setup, i: nat): Routing.Item {
    Routing.Item(x.source, x.batchAt(i))
  }

  function Start(x: Setup, checkpoints: map<Partition, Cursor>, processed: nat, delivered: set<nat>): World {
    World(Fresh(x.c, checkpoints, processed, delivered), [], [])
  }

  /** What the settled promises of the window say of the traversals behind them. */
  predicate Matches(ok: bool, t: Traversal.Task) {
    if ok then t.stage.Ended? else t.stage.Failed?
  }

  /** Where the window begins among the traversals, and where the one being drained is. */
  function WindowAt(w: World): int {
    |w.tasks| - |w.s.inFlight|
  }

  function HeadAt(w: World): int {
    WindowAt(w) - (if w.s.head.Some? then 1 else 0)
  }

  /** A promise settles only as its traversal has. */
  predicate Follows(w: World, a: Action)
    requires 0 <= HeadAt(w)
  {
    match a
    case Settle(at, ok) => at < |w.s.inFlight| && Matches(ok, w.tasks[WindowAt(w) + at])
    case SettleHead(ok) => w.s.head.Some? && Matches(ok, w.tasks[HeadAt(w)])
    case _ => true
  }

  ghost function After(x: Setup, w: World, a: Action): World
    requires Enabled(x.c, w.s, a)
  {
    var t := Step(x.c, w.s, a);
    if a.Read? then World(t, w.tasks + [Traversal.Root(ItemAt(x, w.s.next))], w.earlier)
    else if a.Recover? && t.phase.Starting? then World(t, [], w.earlier + w.tasks)
    else World(t, w.tasks, w.earlier)
  }

  ghost predicate SourceMoves(x: Setup, w: World, v: World) {
    exists a: Action :: !a.Restart? && CanStep(x.c, w.s, a) && 0 <= HeadAt(w) && Follows(w, a) && v == After(x, w, a)
  }

  ghost predicate OneMoves(x: Setup, ts: seq<Traversal.Task>, us: seq<Traversal.Task>) {
    exists j, t :: 0 <= j < |ts| && Traversal.Moves(x.net, x.deadline, ts[j], t) && us == ts[j := t]
  }

  /** A traversal takes a step, of this attempt or of an earlier one. */
  ghost predicate TaskMoves(x: Setup, w: World, v: World) {
    || (v == w.(tasks := v.tasks) && OneMoves(x, w.tasks, v.tasks))
    || (v == w.(earlier := v.earlier) && OneMoves(x, w.earlier, v.earlier))
  }

  ghost predicate Moves(x: Setup, w: World, v: World) {
    SourceMoves(x, w, v) || TaskMoves(x, w, v)
  }

  ghost predicate IsPath(x: Setup, p: seq<World>) {
    |p| > 0 && forall i {:trigger p[i]} :: 0 < i < |p| ==> Moves(x, p[i - 1], p[i])
  }

  ghost predicate Reached(x: Setup, v: World, w: World) {
    exists p :: IsPath(x, p) && p[0] == v && p[|p| - 1] == w
  }

  /** A new attempt reads while a write started by one before it still runs. */
  ghost predicate Overlaps(x: Setup, w: World) {
    w.s.phase.Reading? && exists t :: t in w.earlier && Traversal.Writing(x.writes, t)
  }

  // ---- the invariant ----

  /** Everything outside the window has settled, and so has what the window says has. */
  ghost predicate Aligned(w: World) {
    && 0 <= HeadAt(w)
    && (forall j :: 0 <= j < HeadAt(w) ==> Traversal.Settled(w.tasks[j]))
    && (w.s.head.Some? && w.s.head.value.settled.Some? ==> Traversal.Settled(w.tasks[HeadAt(w)]))
    && (forall k {:trigger w.s.inFlight[k]} :: 0 <= k < |w.s.inFlight| && w.s.inFlight[k].settled.Some? ==>
          Traversal.Settled(w.tasks[WindowAt(w) + k]))
  }

  ghost predicate Began(x: Setup, base: nat, w: World) {
    && base <= Resume(x.c, w.s)
    && (w.s.phase.Starting? || w.s.phase.Failed? || base <= w.s.next)
  }

  ghost predicate Sound(x: Setup, base: nat, w: World) {
    Safe(x.c, w.s) && Aligned(w) && Began(x, base, w)
  }

  /** No batch this execution reads leads to an overlap. */
  ghost predicate AllTame(x: Setup, base: nat) {
    forall i :: base <= i < |x.c.stream| ==> Traversal.Tame(x.net, x.deadline, x.writes, ItemAt(x, i))
  }

  ghost predicate TaskCalm(x: Setup, t: Traversal.Task) {
    Traversal.CalmRoot(x.net, x.writes, t) && Traversal.Tame(x.net, x.deadline, x.writes, t.item)
  }

  lemma StartIsSound(x: Setup, checkpoints: map<Partition, Cursor>, processed: nat, delivered: set<nat>)
    requires SourceDelivery.HonestStore(x.c, checkpoints, delivered)
    ensures Sound(x, ResumeFrom(x.c, checkpoints), Start(x, checkpoints, processed, delivered))
  {
    FreshIsSafe(x.c, checkpoints, processed, delivered);
  }

  lemma SourceKeepsBegan(x: Setup, base: nat, w: World, a: Action)
    requires ResumesAfterCheckpoint(x.c) && Sound(x, base, w) && !a.Restart? && CanStep(x.c, w.s, a)
    ensures Began(x, base, After(x, w, a))
  {
    hide Aligned;
    SourceDelivery.CheckpointOnlyAdvances(x.c, w.s, a);
  }

  lemma DrainKeepsAligned(x: Setup, w: World)
    requires Safe(x.c, w.s) && Aligned(w) && CanStep(x.c, w.s, DrainHead)
    ensures Aligned(After(x, w, DrainHead))
  {
    var v := After(x, w, DrainHead);
    assert w.s.inFlight[0] == v.s.head.value;
    forall k | 0 <= k < |v.s.inFlight| && v.s.inFlight[k].settled.Some?
      ensures Traversal.Settled(v.tasks[WindowAt(v) + k])
    {
      assert v.s.inFlight[k] == w.s.inFlight[k + 1];
    }
  }

  /** Recovery waits for the whole window, so nothing of this attempt is left unsettled. */
  lemma LeaveKeepsAligned(x: Setup, w: World, a: Action)
    requires Safe(x.c, w.s) && Aligned(w) && CanStep(x.c, w.s, a) && (a.Recover? || a.RecoverFails?)
    ensures Aligned(After(x, w, a))
    ensures forall t :: t in w.tasks ==> Traversal.Settled(t)
  {
    forall j | 0 <= j < |w.tasks|
      ensures Traversal.Settled(w.tasks[j])
    {
      if j >= WindowAt(w) {
        assert w.s.inFlight[j - WindowAt(w)] in w.s.inFlight;
      }
    }
  }

  lemma SettleKeepsAligned(x: Setup, w: World, a: Action)
    requires Aligned(w) && CanStep(x.c, w.s, a) && Follows(w, a) && (a.Settle? || a.SettleHead?)
    ensures Aligned(After(x, w, a))
  {
    hide CanStep, Urgent;
  }

  lemma HeadKeepsAligned(x: Setup, w: World, a: Action)
    requires Safe(x.c, w.s) && Aligned(w) && CanStep(x.c, w.s, a)
    requires a.HeadFails? || a.HeadArrives? || a.Save? || a.Mark?
    ensures Aligned(After(x, w, a))
  {
    hide WindowOk, Urgent, DeliveredBelow, PutCheckpoint;
    var v := After(x, w, a);
    assert v.tasks == w.tasks && v.s.inFlight == w.s.inFlight;
  }

  lemma OtherKeepsAligned(x: Setup, w: World, a: Action)
    requires Safe(x.c, w.s) && Aligned(w) && CanStep(x.c, w.s, a)
    requires a.Begin? || a.BeginFails? || a.Read? || a.ReadDone? || a.ReadFails? || a.Finish? || a.FinishFails?
    ensures Aligned(After(x, w, a))
  {
    hide WindowOk, Urgent, DeliveredBelow;
  }

  lemma SourceKeepsAligned(x: Setup, w: World, a: Action)
    requires Safe(x.c, w.s) && Aligned(w) && !a.Restart? && CanStep(x.c, w.s, a) && Follows(w, a)
    ensures Aligned(After(x, w, a))
  {
    hide Safe, Aligned, CanStep, Follows, After;
    match a {
      case DrainHead => DrainKeepsAligned(x, w);
      case Recover => LeaveKeepsAligned(x, w, a);
      case RecoverFails(_) => LeaveKeepsAligned(x, w, a);
      case Settle(_, _) => SettleKeepsAligned(x, w, a);
      case SettleHead(_) => SettleKeepsAligned(x, w, a);
      case HeadFails(_) => HeadKeepsAligned(x, w, a);
      case HeadArrives => HeadKeepsAligned(x, w, a);
      case Save(_) => HeadKeepsAligned(x, w, a);
      case Mark(_) => HeadKeepsAligned(x, w, a);
      case _ => OtherKeepsAligned(x, w, a);
    }
  }

  lemma SourceKeepsSound(x: Setup, base: nat, w: World, v: World)
    requires ResumesAfterCheckpoint(x.c) && Sound(x, base, w) && SourceMoves(x, w, v)
    ensures Sound(x, base, v)
  {
    var a: Action :| !a.Restart? && CanStep(x.c, w.s, a) && 0 <= HeadAt(w) && Follows(w, a) && v == After(x, w, a);
    SourceKeepsBegan(x, base, w, a);
    SourceKeepsAligned(x, w, a);
    StepKeepsSafe(x.c, w.s, a);
  }

  lemma TasksKeepSound(x: Setup, base: nat, w: World, v: World)
    requires Sound(x, base, w) && TaskMoves(x, w, v)
    ensures Sound(x, base, v)
  {
    hide Traversal.Moves, Safe;
    if v == w.(tasks := v.tasks) && OneMoves(x, w.tasks, v.tasks) {
      var j, t :| 0 <= j < |w.tasks| && Traversal.Moves(x.net, x.deadline, w.tasks[j], t) && v.tasks == w.tasks[j := t];
      Traversal.SettledStays(x.net, x.deadline, w.tasks[j], t);
    }
  }

  // ---- when it cannot happen ----

  /** No write an earlier attempt started still runs, or can still begin. */
  ghost predicate EarlierQuiet(x: Setup, w: World) {
    forall t :: t in w.earlier ==> Traversal.Quiet(x.net, x.writes, t)
  }

  ghost predicate AllCalm(x: Setup, w: World) {
    EarlierQuiet(x, w) && forall t :: t in w.tasks ==> TaskCalm(x, t)
  }

  lemma SourceKeepsCalm(x: Setup, base: nat, w: World, v: World)
    requires Sound(x, base, w) && AllTame(x, base) && AllCalm(x, w) && SourceMoves(x, w, v)
    ensures AllCalm(x, v)
  {
    hide Traversal.Tame, Traversal.Calm, Traversal.Quiet;
    var a: Action :| !a.Restart? && CanStep(x.c, w.s, a) && 0 <= HeadAt(w) && Follows(w, a) && v == After(x, w, a);
    if a.Read? {
      Traversal.FreshIsCalm(x.net, x.writes, ItemAt(x, w.s.next));
    } else if a.Recover? {
      LeaveKeepsAligned(x, w, a);
      forall t | t in w.tasks
        ensures Traversal.Quiet(x.net, x.writes, t)
      {
        Traversal.CalmIsQuiet(x.net, x.writes, t);
      }
    }
  }

  lemma OneKeepsCalm(x: Setup, ts: seq<Traversal.Task>, us: seq<Traversal.Task>)
    requires (forall t :: t in ts ==> TaskCalm(x, t)) && OneMoves(x, ts, us)
    ensures forall t :: t in us ==> TaskCalm(x, t)
  {
    hide Traversal.Moves, Traversal.Tame, Traversal.CalmRoot;
    var j, t :| 0 <= j < |ts| && Traversal.Moves(x.net, x.deadline, ts[j], t) && us == ts[j := t];
    assert TaskCalm(x, ts[j]);
    Traversal.CalmRootMoves(x.net, x.deadline, x.writes, ts[j], t);
  }

  lemma OneKeepsQuiet(x: Setup, ts: seq<Traversal.Task>, us: seq<Traversal.Task>)
    requires (forall t :: t in ts ==> Traversal.Quiet(x.net, x.writes, t)) && OneMoves(x, ts, us)
    ensures forall t :: t in us ==> Traversal.Quiet(x.net, x.writes, t)
  {
    hide Traversal.Moves, Traversal.Quiet;
    var j, t :| 0 <= j < |ts| && Traversal.Moves(x.net, x.deadline, ts[j], t) && us == ts[j := t];
    Traversal.QuietMoves(x.net, x.deadline, x.writes, ts[j], t);
  }

  lemma TasksKeepCalm(x: Setup, w: World, v: World)
    requires AllCalm(x, w) && TaskMoves(x, w, v)
    ensures AllCalm(x, v)
  {
    hide OneMoves, TaskCalm, Traversal.Quiet;
    if v == w.(tasks := v.tasks) && OneMoves(x, w.tasks, v.tasks) {
      OneKeepsCalm(x, w.tasks, v.tasks);
    } else {
      OneKeepsQuiet(x, w.earlier, v.earlier);
    }
  }

  lemma {:induction false} PathKeepsSound(x: Setup, base: nat, p: seq<World>)
    requires ResumesAfterCheckpoint(x.c) && IsPath(x, p) && Sound(x, base, p[0])
    ensures Sound(x, base, p[|p| - 1])
    decreases |p|
  {
    hide SourceMoves, TaskMoves, Sound;
    if |p| > 1 {
      var front, w, v := p[..|p| - 1], p[|p| - 2], p[|p| - 1];
      assert IsPath(x, front);
      PathKeepsSound(x, base, front);
      if SourceMoves(x, w, v) {
        SourceKeepsSound(x, base, w, v);
      } else {
        TasksKeepSound(x, base, w, v);
      }
    }
  }

  lemma {:induction false} PathKeepsCalm(x: Setup, base: nat, p: seq<World>)
    requires ResumesAfterCheckpoint(x.c) && AllTame(x, base)
    requires IsPath(x, p) && Sound(x, base, p[0]) && AllCalm(x, p[0])
    ensures AllCalm(x, p[|p| - 1])
    decreases |p|
  {
    hide SourceMoves, TaskMoves, Sound, AllCalm, AllTame;
    if |p| > 1 {
      var front, w, v := p[..|p| - 1], p[|p| - 2], p[|p| - 1];
      assert IsPath(x, front);
      PathKeepsSound(x, base, front);
      PathKeepsCalm(x, base, front);
      if SourceMoves(x, w, v) {
        SourceKeepsCalm(x, base, w, v);
      } else {
        TasksKeepCalm(x, w, v);
      }
    }
  }

  /** Without a retry there is no earlier attempt. */
  lemma NeverRetries(x: Setup, w: World, v: World)
    requires Attempts(x.c) == 0 && w.earlier == [] && Moves(x, w, v)
    ensures v.earlier == []
  {
    hide Traversal.Moves, CanStep, Follows;
  }

  lemma {:induction false} PathNeverRetries(x: Setup, p: seq<World>)
    requires Attempts(x.c) == 0 && IsPath(x, p) && p[0].earlier == []
    ensures p[|p| - 1].earlier == []
    decreases |p|
  {
    if |p| > 1 {
      hide IsPath, Moves;
      PathFront(x, p);
      PathNeverRetries(x, p[..|p| - 1]);
      NeverRetries(x, p[|p| - 2], p[|p| - 1]);
    }
  }

  lemma PathFront(x: Setup, p: seq<World>)
    requires IsPath(x, p) && |p| > 1
    ensures IsPath(x, p[..|p| - 1]) && Moves(x, p[|p| - 2], p[|p| - 1])
  {
    hide Moves;
  }

  // ---- when it can ----

  lemma ReachedOn(x: Setup, w0: World, w: World, v: World)
    requires Reached(x, w0, w) && Moves(x, w, v)
    ensures Reached(x, w0, v)
  {
    hide Moves;
    var p :| IsPath(x, p) && p[0] == w0 && p[|p| - 1] == w;
    assert IsPath(x, p + [v]);
  }

  lemma Acts(x: Setup, w0: World, w: World, a: Action) returns (v: World)
    requires Reached(x, w0, w) && !a.Restart? && CanStep(x.c, w.s, a) && 0 <= HeadAt(w) && Follows(w, a)
    ensures v == After(x, w, a) && Reached(x, w0, v)
  {
    hide Urgent, Enabled, Follows, Reached;
    v := After(x, w, a);
    assert SourceMoves(x, w, v);
    ReachedOn(x, w0, w, v);
  }

  lemma {:induction false} TaskRuns(x: Setup, w0: World, w: World, j: nat, p: seq<Traversal.Task>)
    requires Reached(x, w0, w) && j < |w.tasks|
    requires Traversal.IsPath(x.net, x.deadline, p) && p[0] == w.tasks[j]
    ensures Reached(x, w0, w.(tasks := w.tasks[j := p[|p| - 1]]))
    decreases |p|
  {
    hide Traversal.Moves, Reached;
    if |p| == 1 {
      assert w.tasks[j := p[0]] == w.tasks;
    } else {
      var front, t := p[..|p| - 1], p[|p| - 1];
      assert Traversal.IsPath(x.net, x.deadline, front);
      TaskRuns(x, w0, w, j, front);
      var before := w.(tasks := w.tasks[j := p[|p| - 2]]);
      var v := w.(tasks := w.tasks[j := t]);
      assert before.tasks[j := t] == v.tasks;
      assert Traversal.Moves(x.net, x.deadline, before.tasks[j], t);
      assert OneMoves(x, before.tasks, v.tasks);
      ReachedOn(x, w0, before, v);
    }
  }

  /** The newest traversal runs on. */
  lemma NewestBecomes(x: Setup, w0: World, w: World, t: Traversal.Task) returns (v: World)
    requires Reached(x, w0, w) && w.tasks != []
    requires Traversal.Leads(x.net, x.deadline, w.tasks[|w.tasks| - 1], t)
    ensures v == w.(tasks := w.tasks[|w.tasks| - 1 := t]) && Reached(x, w0, v)
  {
    hide Traversal.Moves, Reached;
    var p :| Traversal.IsPath(x.net, x.deadline, p) && p[0] == w.tasks[|w.tasks| - 1] && p[|p| - 1] == t;
    v := w.(tasks := w.tasks[|w.tasks| - 1 := t]);
    TaskRuns(x, w0, w, |w.tasks| - 1, p);
  }

  /** The first attempt is reading the `n`-th batch, and all in flight have arrived. */
  ghost predicate Smooth(x: Setup, base: nat, w: World, n: nat) {
    && Sound(x, base, w) && w.s.phase.Reading? && w.s.next == n && w.s.failures == 0 && w.earlier == []
    && |w.s.inFlight| < x.c.limit && forall e :: e in w.s.inFlight ==> e.settled == Some(true)
  }

  lemma {:induction false} ReachedSound(x: Setup, base: nat, w0: World, w: World)
    requires ResumesAfterCheckpoint(x.c) && Sound(x, base, w0) && Reached(x, w0, w)
    ensures Sound(x, base, w)
  {
    hide Moves, Sound;
    var p :| IsPath(x, p) && p[0] == w0 && p[|p| - 1] == w;
    PathKeepsSound(x, base, p);
  }

  /** Reading a batch, running its traversal to `t`, and its promise settling as that says. */
  lemma SendsOne(x: Setup, base: nat, w0: World, w: World, n: nat, t: Traversal.Task) returns (v: World)
    requires ResumesAfterCheckpoint(x.c) && Sound(x, base, w0) && Reached(x, w0, w) && Smooth(x, base, w, n)
    requires n < |x.c.stream|
    requires Traversal.Leads(x.net, x.deadline, Traversal.Root(ItemAt(x, n)), t) && (t.stage.Ended? || t.stage.Failed?)
    ensures Reached(x, w0, v)
    ensures v == World(v.s, w.tasks + [t], [])
         && v.s == w.s.(next := n + 1, inFlight := w.s.inFlight + [Entry(n, Some(t.stage.Ended?))], h := v.s.h)
  {
    hide Reached, Sound, Traversal.Leads;
    assert 0 <= HeadAt(w) by {
      assert Aligned(w) by { SoundParts(x, base, w); }
    }
    SoundParts(x, base, w);
    var read := Acts(x, w0, w, Read);
    assert read.tasks[|read.tasks| - 1] == Traversal.Root(ItemAt(x, n));
    var ran := NewestBecomes(x, w0, read, t);
    assert ran.tasks == w.tasks + [t];
    var last, ok := |w.s.inFlight|, t.stage.Ended?;
    assert ran.s.inFlight[last] == Entry(n, None);
    v := Acts(x, w0, ran, Settle(last, ok));
    assert v.s.inFlight == w.s.inFlight + [Entry(n, Some(ok))];
  }

  lemma SoundParts(x: Setup, base: nat, w: World)
    requires Sound(x, base, w)
    ensures Aligned(w) && Safe(x.c, w.s) && Began(x, base, w)
  {
  }

  /** The window is full: its head is taken out, */
  lemma TakesHead(x: Setup, base: nat, w0: World, w: World) returns (v: World)
    requires ResumesAfterCheckpoint(x.c) && Sound(x, base, w0) && Reached(x, w0, w)
    requires w.s.phase.Reading? && w.s.inFlight != [] && |w.s.inFlight| >= x.c.limit
    ensures Reached(x, w0, v) && v.tasks == w.tasks && v.earlier == w.earlier
    ensures v.s == w.s.(phase := Awaiting(false), head := Some(w.s.inFlight[0]), inFlight := w.s.inFlight[1..])
  {
    hide Reached, Sound, Aligned, WindowOk;
    ReachedSound(x, base, w0, w);
    Draining(x, base, w);
    v := Acts(x, w0, w, DrainHead);
  }

  /** if it has arrived its cursor is stored, */
  lemma HeadHasArrived(x: Setup, base: nat, w0: World, w: World) returns (v: World)
    requires ResumesAfterCheckpoint(x.c) && Sound(x, base, w0) && Reached(x, w0, w)
    requires w.s.phase == Awaiting(false) && w.s.head.Some? && w.s.head.value.settled == Some(true)
    ensures Reached(x, w0, v) && v.tasks == w.tasks && v.earlier == w.earlier
    ensures v.s == w.s.(phase := Saving(false), h := v.s.h) && 0 <= HeadAt(v) && v.s.head.value.index < |x.c.stream|
  {
    hide Reached, Sound, Aligned, WindowOk;
    ReachedSound(x, base, w0, w);
    Draining(x, base, w);
    v := Acts(x, w0, w, HeadArrives);
    ReachedSound(x, base, w0, v);
    Draining(x, base, v);
  }

  /** and reading may go on. */
  lemma DrainsOne(x: Setup, base: nat, w0: World, w: World) returns (v: World)
    requires ResumesAfterCheckpoint(x.c) && Sound(x, base, w0) && Reached(x, w0, w)
    requires w.s.phase.Reading? && w.s.inFlight != [] && |w.s.inFlight| >= x.c.limit
    requires w.s.inFlight[0].settled == Some(true)
    ensures Reached(x, w0, v) && v.tasks == w.tasks && v.earlier == w.earlier
    ensures v.s.phase.Reading? && v.s.inFlight == w.s.inFlight[1..] && v.s.next == w.s.next
    ensures v.s.failures == w.s.failures
  {
    hide Reached, Sound, Aligned, WindowOk, PutCheckpoint;
    var awaiting := TakesHead(x, base, w0, w);
    var saving := HeadHasArrived(x, base, w0, awaiting);
    var marking := Acts(x, w0, saving, Save(Done));
    ReachedSound(x, base, w0, marking);
    Draining(x, base, marking);
    v := Acts(x, w0, marking, Mark(Done));
  }

  lemma Draining(x: Setup, base: nat, w: World)
    requires Sound(x, base, w)
    ensures 0 <= HeadAt(w) && HeadOk(x.c, w.s)
    ensures w.s.phase.Saving? ==> w.s.head.value.index < |x.c.stream|
  {
  }

  lemma ReadsNext(x: Setup, base: nat, rank: Routing.Rank, top: nat, w0: World, w: World, n: nat) returns (v: World)
    requires ResumesAfterCheckpoint(x.c) && Routing.Ranked(x.net, rank, top) && Sound(x, base, w0)
    requires Reached(x, w0, w) && Smooth(x, base, w, n) && n < |x.c.stream|
    ensures Reached(x, w0, v) && Smooth(x, base, v, n + 1)
  {
    hide Reached, Sound, Traversal.Leads, Routing.Ranked;
    var t := Traversal.Arrives(x.net, x.deadline, rank, top, ItemAt(x, n));
    v := SendsOne(x, base, w0, w, n, t);
    if |v.s.inFlight| >= x.c.limit {
      v := DrainsOne(x, base, w0, v);
    }
    ReachedSound(x, base, w0, v);
  }

  lemma {:induction false} ReadsUpTo(x: Setup, base: nat, rank: Routing.Rank, top: nat, w0: World, w: World, n: nat)
    returns (v: World)
    requires ResumesAfterCheckpoint(x.c) && Routing.Ranked(x.net, rank, top) && Sound(x, base, w0)
    requires Reached(x, w0, w) && Smooth(x, base, w, base) && base <= n <= |x.c.stream|
    ensures Reached(x, w0, v) && Smooth(x, base, v, n)
    decreases n
  {
    hide Reached, Sound, Smooth, Routing.Ranked;
    if n == base {
      v := w;
    } else {
      v := ReadsUpTo(x, base, rank, top, w0, w, n - 1);
      v := ReadsNext(x, base, rank, top, w0, v, n - 1);
    }
  }

  /** Once all in flight have settled, an error can end the attempt. */
  lemma Breaks(x: Setup, base: nat, w0: World, w: World, f: Failure) returns (v: World)
    requires ResumesAfterCheckpoint(x.c) && Sound(x, base, w0) && Reached(x, w0, w)
    requires w.s.phase.Reading? && AllSettled(w.s.inFlight)
    ensures Reached(x, w0, v) && v.tasks == w.tasks && v.earlier == w.earlier
    ensures v.s.phase == Recovering(f) && AllSettled(v.s.inFlight) && v.s.failures == w.s.failures
  {
    hide Reached, Sound, Aligned, WindowOk, PutCheckpoint;
    ReachedSound(x, base, w0, w);
    Draining(x, base, w);
    if |w.s.inFlight| < x.c.limit {
      v := Acts(x, w0, w, ReadFails(f));
    } else {
      assert w.s.inFlight[0] in w.s.inFlight;
      var awaiting := TakesHead(x, base, w0, w);
      if awaiting.s.head.value.settled.value {
        var saving := HeadHasArrived(x, base, w0, awaiting);
        v := Acts(x, w0, saving, Save(Lost(f)));
      } else {
        ReachedSound(x, base, w0, awaiting);
        Draining(x, base, awaiting);
        v := Acts(x, w0, awaiting, HeadFails(f));
      }
    }
  }

  /** A transient error, when a retry is left: the next attempt begins with this one's traversals as they are. */
  lemma Retries(x: Setup, base: nat, w0: World, w: World) returns (v: World)
    requires ResumesAfterCheckpoint(x.c) && Sound(x, base, w0) && Reached(x, w0, w)
    requires w.s.phase.Reading? && AllSettled(w.s.inFlight) && w.s.failures < Attempts(x.c)
    ensures Reached(x, w0, v) && v.s.phase.Reading? && v.earlier == w.earlier + w.tasks
  {
    hide Reached, Sound, Aligned;
    var f := Failure(false, true, None);
    var broken := Breaks(x, base, w0, w, f);
    ReachedSound(x, base, w0, broken);
    Draining(x, base, broken);
    var waiting := Acts(x, w0, broken, Recover);
    ReachedSound(x, base, w0, waiting);
    Draining(x, base, waiting);
    v := Acts(x, w0, waiting, Begin);
  }

  lemma Overlapping(x: Setup, base: nat, rank: Routing.Rank, top: nat, w0: World, i: nat, p: seq<Routing.Item>)
    returns (v: World)
    requires ResumesAfterCheckpoint(x.c) && Routing.Ranked(x.net, rank, top) && Sound(x, base, w0)
    requires w0.s.phase.Starting? && w0.s.failures == 0 && w0.tasks == [] && w0.earlier == []
    requires Resume(x.c, w0.s) == base
    requires Attempts(x.c) > 0 && base <= i < |x.c.stream|
    requires Traversal.LeadsToOverlap(x.net, x.deadline, x.writes, p) && p[0] == ItemAt(x, i)
    ensures Reached(x, w0, v) && Overlaps(x, v)
  {
    hide Moves, Sound, Routing.Ranked, Traversal.LeadsToOverlap, Traversal.Leads, Traversal.Writing;
    assert IsPath(x, [w0]);
    hide IsPath;
    Draining(x, base, w0);
    hide Reached;
    var w := Acts(x, w0, w0, Begin);
    ReachedSound(x, base, w0, w);
    Draining(x, base, w);
    w := ReadsUpTo(x, base, rank, top, w0, w, i);
    var t := Traversal.SettlesEarly(x.net, x.deadline, x.writes, rank, top, p);
    var sent := SendsOne(x, base, w0, w, i, t);
    v := Retries(x, base, w0, sent);
    assert v.earlier[|v.earlier| - 1] == t;
  }

  // ---- exactly when ----

  /** While no batch leads to an overlap, no write of an earlier attempt runs or begins after a retry. */
  lemma TameIsQuiet(x: Setup, checkpoints: map<Partition, Cursor>, processed: nat, delivered: set<nat>, w: World)
    requires ResumesAfterCheckpoint(x.c) && SourceDelivery.HonestStore(x.c, checkpoints, delivered)
    requires Attempts(x.c) == 0 || AllTame(x, ResumeFrom(x.c, checkpoints))
    requires Reached(x, Start(x, checkpoints, processed, delivered), w)
    ensures EarlierQuiet(x, w)
  {
    hide Moves, Sound, AllTame;
    var w0 := Start(x, checkpoints, processed, delivered);
    var p :| IsPath(x, p) && p[0] == w0 && p[|p| - 1] == w;
    StartIsSound(x, checkpoints, processed, delivered);
    if Attempts(x.c) == 0 {
      PathNeverRetries(x, p);
    } else {
      PathKeepsCalm(x, ResumeFrom(x.c, checkpoints), p);
    }
  }

  /** No execution reads anew over what an earlier attempt still writes exactly when retries are off or, of the
      batches it reads, none leads through its deliveries to a pipe whose write can outlast its deadline, or to
      a port whose edges start two things at once, one of them leading to a write. */
  lemma RetryNeverOverlapsIff(x: Setup, rank: Routing.Rank, top: nat, checkpoints: map<Partition, Cursor>,
                              processed: nat, delivered: set<nat>)
    ensures Routing.Ranked(x.net, rank, top) && ResumesAfterCheckpoint(x.c)
            && SourceDelivery.HonestStore(x.c, checkpoints, delivered) ==>
              ((forall w :: Reached(x, Start(x, checkpoints, processed, delivered), w) ==> !Overlaps(x, w))
               <==> Attempts(x.c) == 0 || AllTame(x, ResumeFrom(x.c, checkpoints)))
  {
    if Routing.Ranked(x.net, rank, top) && ResumesAfterCheckpoint(x.c)
       && SourceDelivery.HonestStore(x.c, checkpoints, delivered) {
      hide Routing.Ranked, ResumesAfterCheckpoint, SourceDelivery.HonestStore, Reached, Sound;
      hide Traversal.Writing, Traversal.Quiet;
      var w0, base := Start(x, checkpoints, processed, delivered), ResumeFrom(x.c, checkpoints);
      if Attempts(x.c) == 0 || AllTame(x, base) {
        forall w | Reached(x, w0, w)
          ensures !Overlaps(x, w)
        {
          TameIsQuiet(x, checkpoints, processed, delivered, w);
          forall t | t in w.earlier
            ensures !Traversal.Writing(x.writes, t)
          {
            Traversal.QuietNotWriting(x.net, x.writes, t);
          }
        }
      } else {
        var i :| base <= i < |x.c.stream| && !Traversal.Tame(x.net, x.deadline, x.writes, ItemAt(x, i));
        hide Traversal.LeadsToOverlap;
        var p :| Traversal.LeadsToOverlap(x.net, x.deadline, x.writes, p) && p[0] == ItemAt(x, i);
        StartIsSound(x, checkpoints, processed, delivered);
        var w := Overlapping(x, base, rank, top, w0, i, p);
      }
    }
  }
}
