/** What the object events of a migration report: which step, that it began, and how it ended. */
module MigrationReports {
  import opened Wrappers
  import opened Sequences
  import opened Migration
  import opened MigrationTruth

  /** Steps reported one after the other: a skipped one by a single event, any other when it begins and as it ends. */
  function Reports(steps: seq<Step>, verdicts: seq<Status>): seq<Event>
    requires |verdicts| == |steps|
    decreases |steps|
  {
    if steps == [] then []
    else Report(steps[0], verdicts[0]) + Reports(steps[1..], verdicts[1..])
  }

  function Report(s: Step, verdict: Status): seq<Event> {
    if s.skipped then [Object(s.name, Skipped)] else [Object(s.name, Running), Object(s.name, verdict)]
  }

  function Successes(n: nat): (verdicts: seq<Status>)
    ensures |verdicts| == n
  {
    seq(n, _ => Success)
  }

  lemma {:induction false} ReportsJoin(a: seq<Step>, b: seq<Step>, v: seq<Status>, u: seq<Status>)
    requires |a| == |v| && |b| == |u|
    ensures Reports(a + b, v + u) == Reports(a, v) + Reports(b, u)
    decreases |a|
  {
    if a == [] {
      assert a + b == b && v + u == u;
    } else {
      assert (a + b)[0] == a[0] && (a + b)[1..] == a[1..] + b && (v + u)[0] == v[0] && (v + u)[1..] == v[1..] + u;
      ReportsJoin(a[1..], b, v[1..], u);
      Associative(Report(a[0], v[0]), Reports(a[1..], v[1..]), Reports(b, u));
    }
  }

  lemma ReportsOne(s: Step, verdict: Status)
    ensures Reports([s], [verdict]) == Report(s, verdict)
  {
    assert [s][1..] == [] && [verdict][1..] == [];
    assert Reports([s], [verdict]) == Report(s, verdict) + Reports([], []);
  }

  // ---- all or nothing ----

  /** Every statement of the first `k` steps runs: the operations from this one on work, and so do the statements
      on what is there. */
  predicate RunThrough(e: Engine, operation: nat, db: Db, steps: seq<Step>, k: nat)
    requires k <= |steps|
  {
    AllWork(e, operation, operation + OperationsOf(e, steps[..k])) && ApplyAll(e, steps[..k], db).Some?
  }

  /** The first `k` steps ran and were reported; the next one, if there is one, did not and was. */
  predicate StoppedAt(e: Engine, operation: nat, db: Db, steps: seq<Step>, k: nat, events: seq<Event>) {
    && k <= |steps| && RunThrough(e, operation, db, steps, k)
    && (k < |steps| ==> !steps[k].skipped && !RunThrough(e, operation, db, steps, k + 1))
    && events == Reports(steps[..k], Successes(k)) + if k < |steps| then Report(steps[k], Failed) else []
  }

  lemma RunThroughNext(e: Engine, operation: nat, db: Db, steps: seq<Step>, k: nat)
    requires steps != [] && k < |steps|
    ensures steps[0].skipped ==>
              (RunThrough(e, operation, db, steps, k + 1) <==> RunThrough(e, operation, db, steps[1..], k))
    ensures !steps[0].skipped ==>
              var n, applied := Operations(e, steps[0].statements), Apply(e, steps[0].statements, db);
              RunThrough(e, operation, db, steps, k + 1)
              <==> AllWork(e, operation, operation + n) && applied.Some?
                   && RunThrough(e, operation + n, applied.value, steps[1..], k)
  {
    var part := steps[..k + 1];
    assert part[0] == steps[0] && part[1..] == steps[1..][..k];
  }

  lemma ReportsNext(steps: seq<Step>, k: nat)
    requires steps != [] && k < |steps|
    ensures Reports(steps[..k + 1], Successes(k + 1))
         == Report(steps[0], Success) + Reports(steps[1..][..k], Successes(k))
  {
    assert steps[..k + 1][0] == steps[0] && steps[..k + 1][1..] == steps[1..][..k];
    assert Successes(k + 1)[1..] == Successes(k);
  }

  lemma StoppedNext(e: Engine, operation: nat, db: Db, steps: seq<Step>, next: nat, after: Db, k: nat,
                    events: seq<Event>)
    requires steps != [] && StoppedAt(e, next, after, steps[1..], k, events)
    requires if steps[0].skipped then next == operation && after == db
             else AllWork(e, operation, next) && next == operation + Operations(e, steps[0].statements)
                  && Apply(e, steps[0].statements, db) == Some(after)
    ensures StoppedAt(e, operation, db, steps, k + 1, Report(steps[0], Success) + events)
  {
    RunThroughNext(e, operation, db, steps, k);
    ReportsNext(steps, k);
    if k + 1 < |steps| {
      RunThroughNext(e, operation, db, steps, k + 1);
      assert steps[1..][k] == steps[k + 1];
      Associative(Report(steps[0], Success), Reports(steps[1..][..k], Successes(k)), Report(steps[k + 1], Failed));
    } else {
      assert events == Reports(steps[1..][..k], Successes(k)) + [];
      Associative(Report(steps[0], Success), Reports(steps[1..][..k], Successes(k)), []);
    }
  }

  lemma NoneRun(e: Engine, operation: nat, db: Db, steps: seq<Step>)
    ensures RunThrough(e, operation, db, steps, 0) && Reports(steps[..0], Successes(0)) == []
    ensures steps == [] ==> StoppedAt(e, operation, db, steps, 0, [])
  {
    assert steps[..0] == [];
  }

  lemma {:induction false} StepsReport(e: Engine, w: World, steps: seq<Step>) returns (k: nat)
    ensures var (u, events, ok) := RunSteps(e, w, steps);
            StoppedAt(e, w.clock, Visible(w), steps, k, events) && (ok <==> k == |steps|)
    decreases |steps|
  {
    hide StoppedAt, RunThrough, Reports;
    NoneRun(e, w.clock, Visible(w), steps);
    if steps == [] {
      k := 0;
    } else if steps[0].skipped {
      var j := StepsReport(e, w, steps[1..]);
      StoppedNext(e, w.clock, Visible(w), steps, w.clock, Visible(w), j, RunSteps(e, w, steps[1..]).1);
      k := j + 1;
    } else {
      var (v, ran) := RunStatements(e, w, steps[0].statements);
      StatementsRunIff(e, w, steps[0].statements);
      StatementsMean(e, w, steps[0].statements);
      if ran {
        var j := StepsReport(e, v, steps[1..]);
        StoppedNext(e, w.clock, Visible(w), steps, v.clock, Visible(v), j, RunSteps(e, v, steps[1..]).1);
        k := j + 1;
      } else {
        FirstFails(e, w, steps);
        k := 0;
      }
    }
  }

  lemma FirstFails(e: Engine, w: World, steps: seq<Step>)
    requires steps != [] && !steps[0].skipped && !RunStatements(e, w, steps[0].statements).1
    ensures StoppedAt(e, w.clock, Visible(w), steps, 0, Report(steps[0], Failed))
  {
    StatementsRunIff(e, w, steps[0].statements);
    NoneRun(e, w.clock, Visible(w), steps);
    RunThroughNext(e, w.clock, Visible(w), steps, 0);
    assert [] + Report(steps[0], Failed) == Report(steps[0], Failed);
  }

  /** The transaction is open, and the schema chosen if one is named. */
  predicate GetsStarted(e: Engine, schema: bool, w: World) {
    AllWork(e, w.clock, w.clock + if schema then 2 else 1)
  }

  /** An all-or-nothing run that gets started reports every step up to the first whose statements do not all run, in
      order and by name: skipped ones as skipped, the others as begun and successful, that one as begun and failed,
      and none after it. It reports success exactly when there is no such step and the commit works. A run that does
      not get started reports only that it failed. */
  lemma AtomicReports(e: Engine, dialect: string, schema: bool, w: World, steps: seq<Step>) returns (k: nat)
    ensures var events := Atomic(e, dialect, schema, w, steps).1;
            var first := w.clock + if schema then 2 else 1;
            if !GetsStarted(e, schema, w) then events == [Done(false, false)]
            else
              && |events| >= 2 && events[0] == Started(|steps|) && events[|events| - 1].Done?
              && StoppedAt(e, first, Visible(w), steps, k, events[1..|events| - 1])
              && (events[|events| - 1].success
                  <==> k == |steps| && FateOf(e, first + OperationsOf(e, steps)).Works?)
  {
    var w1 := Begin(e, w).0;
    var w2 := if schema then SetSchema(e, w1).0 else w1;
    StartIff(e, schema, w);
    hide RunSteps, StoppedAt, SupportOf;
    StepsRunIff(e, w2, steps);
    k := StepsReport(e, w2, steps);
    if GetsStarted(e, schema, w) {
      var done := Atomic(e, dialect, schema, w, steps).1;
      InTheMiddle(RunSteps(e, w2, steps).1, |steps|, done[|done| - 1]);
    }
  }

  lemma StartIff(e: Engine, schema: bool, w: World)
    ensures var (w1, begun) := Begin(e, w);
            var (w2, placed) := if schema then SetSchema(e, w1) else (w1, true);
            && (begun && placed <==> GetsStarted(e, schema, w))
            && (GetsStarted(e, schema, w) ==>
                  w2.clock == w.clock + (if schema then 2 else 1) && Visible(w2) == Visible(w))
  {
  }

  lemma InTheMiddle(events: seq<Event>, n: nat, last: Event)
    ensures var all := [Started(n)] + events + [last]; all[1..|all| - 1] == events
  {
  }

  // ---- going on after a failure ----

  /** The step's transaction and all its statements work, on what is there. */
  predicate AloneWorks(e: Engine, w: World, s: Step) {
    AllWork(e, w.clock, w.clock + Operations(e, s.statements) + 2) && Apply(e, s.statements, Visible(w)).Some?
  }

  lemma AloneReports(e: Engine, w: World, s: Step)
    ensures RunAlone(e, w, s).1
         == Report(s, if AloneWorks(e, w, s) then Success else Failed)
  {
    var w1 := Begin(e, w).0;
    StatementsRunIff(e, w1, s.statements);
    hide RunStatements, Apply, Operations;
  }

  /** How each step ends, of a run that goes on: by itself, on what the steps before it have left. */
  function OwnVerdicts(e: Engine, w: World, steps: seq<Step>): (verdicts: seq<Status>)
    ensures |verdicts| == |steps|
  {
    seq(|steps|, n requires 0 <= n < |steps| =>
      if AloneWorks(e, After(e, w, steps, n), steps[n]) then Success else Failed)
  }

  lemma {:induction false} EachReports(e: Engine, w: World, steps: seq<Step>, n: nat)
    requires n <= |steps|
    ensures RunEach(e, w, steps[..n]).1 == Reports(steps[..n], OwnVerdicts(e, w, steps)[..n])
    decreases n
  {
    if n == 0 {
      assert steps[..0] == [];
    } else {
      hide AloneWorks, RunAlone, Reports;
      var verdicts := OwnVerdicts(e, w, steps);
      var u := After(e, w, steps, n - 1);
      EachReports(e, w, steps, n - 1);
      assert steps[..n] == steps[..n - 1] + [steps[n - 1]] && verdicts[..n] == verdicts[..n - 1] + [verdicts[n - 1]];
      EachThenOne(e, w, steps[..n - 1], steps[n - 1]);
      AloneReports(e, u, steps[n - 1]);
      ReportsJoin(steps[..n - 1], [steps[n - 1]], verdicts[..n - 1], [verdicts[n - 1]]);
      ReportsOne(steps[n - 1], verdicts[n - 1]);
    }
  }

  /** A run that goes on reports every step, in order and by name, as successful exactly when its own transaction and
      statements all work. */
  lemma ContinueReports(e: Engine, schema: bool, w: World, steps: seq<Step>)
    ensures var events := ContinueOnError(e, schema, w, steps).1;
            if schema && !FateOf(e, w.clock).Works? then events == [Done(false, false)]
            else
              var x := if schema then SetSchema(e, w).0 else w;
              events == [Started(|steps|)] + Reports(steps, OwnVerdicts(e, x, steps)) + [Done(true, false)]
  {
    hide Reports, OwnVerdicts, RunEach;
    var x := if schema then SetSchema(e, w).0 else w;
    EachReports(e, x, steps, |steps|);
    assert steps[..|steps|] == steps && OwnVerdicts(e, x, steps)[..|steps|] == OwnVerdicts(e, x, steps);
  }
}
