/** Whether what a migration's events say of the target is true, and exactly when it is not. */
module MigrationTruth {
  import opened Wrappers
  import opened Strings
  import opened Migration

  // ---- the truth of an all-or-nothing run ----

  function LastDone(events: seq<Event>): Event
    requires |events| > 0
  {
    events[|events| - 1]
  }

  /** `success` means the target is the whole plan applied, on every engine. */
  lemma AtomicSuccessIsTruthful(e: Engine, dialect: string, schema: bool, w: World, steps: seq<Step>)
    requires w.tx.None?
    ensures var (u, events) := Atomic(e, dialect, schema, w, steps);
      |events| > 0 && (LastDone(events).Done? && LastDone(events).success
        ==> ApplyAll(e, steps, w.committed) == Some(u.committed) && u.tx.None?)
  {
    var w1 := Begin(e, w).0;
    var w2 := if schema then SetSchema(e, w1).0 else w1;
    StepsMean(e, w2, steps);
  }

  // ---- which operations there are ----

  /** The statements that reach the target. */
  function Operations(e: Engine, stmts: seq<string>): nat {
    if stmts == [] then 0 else (if e.executable(stmts[0]) then 1 else 0) + Operations(e, stmts[1..])
  }

  function OperationsOf(e: Engine, steps: seq<Step>): nat {
    if steps == [] then 0
    else (if steps[0].skipped then 0 else Operations(e, steps[0].statements)) + OperationsOf(e, steps[1..])
  }

  predicate AllWork(e: Engine, from: nat, upTo: nat) {
    forall i :: from <= i < upTo ==> FateOf(e, i).Works?
  }

  lemma {:induction false} StatementsRunIff(e: Engine, w: World, stmts: seq<string>)
    ensures var (u, ok) := RunStatements(e, w, stmts);
      && (ok <==> AllWork(e, w.clock, w.clock + Operations(e, stmts)) && Apply(e, stmts, Visible(w)).Some?)
      && (ok ==> u.clock == w.clock + Operations(e, stmts))
    decreases |stmts|
  {
    if stmts != [] {
      if e.executable(stmts[0]) {
        StatementsRunIff(e, Query(e, w, stmts[0]).0, stmts[1..]);
      } else {
        StatementsRunIff(e, w, stmts[1..]);
      }
    }
  }

  lemma {:induction false} StepsRunIff(e: Engine, w: World, steps: seq<Step>)
    ensures var (u, events, ok) := RunSteps(e, w, steps);
      && (ok <==> AllWork(e, w.clock, w.clock + OperationsOf(e, steps)) && ApplyAll(e, steps, Visible(w)).Some?)
      && (ok ==> u.clock == w.clock + OperationsOf(e, steps))
    decreases |steps|
  {
    if steps != [] {
      if steps[0].skipped {
        StepsRunIff(e, w, steps[1..]);
      } else {
        StatementsRunIff(e, w, steps[0].statements);
        StatementsMean(e, w, steps[0].statements);
        StepsRunIff(e, RunStatements(e, w, steps[0].statements).0, steps[1..]);
      }
    }
  }

  /** The number of the commit of a run in which everything before it works: after the begin, the choice
      of a schema if one is named, and every statement. */
  function CommitOf(e: Engine, schema: bool, w: World, steps: seq<Step>): nat {
    w.clock + 1 + (if schema then 1 else 0) + OperationsOf(e, steps)
  }

  /** The plan runs to its commit, and that commit takes effect and is reported failed. */
  predicate CommittedLate(e: Engine, schema: bool, w: World, steps: seq<Step>) {
    && AllWork(e, w.clock, CommitOf(e, schema, w, steps))
    && ApplyAll(e, steps, w.committed).Some?
    && e.lateCommits && FateOf(e, CommitOf(e, schema, w, steps)).BreaksAfterwards?
  }

  /** `rolledBack` means the target is as it was, unless the commit took effect after all: then it is the
      whole plan applied. The table must tell the truth about the plan's statements. */
  lemma RolledBackIsTruthfulIff(e: Engine, dialect: string, schema: bool, w: World, steps: seq<Step>)
    requires w.tx.None? && (SupportOf(dialect).ddl ==> PlanUndoable(e, steps))
    ensures var (u, events) := Atomic(e, dialect, schema, w, steps);
      |events| > 0 && (LastDone(events) == Done(false, true)
        ==> (u.committed == w.committed
             <==> !CommittedLate(e, schema, w, steps) || ApplyAll(e, steps, w.committed) == Some(w.committed)))
  {
    hide SupportOf, RunSteps, ApplyAll, OperationsOf, PlanUndoable;
    var w1 := Begin(e, w).0;
    var w2 := if schema then SetSchema(e, w1).0 else w1;
    StepsMean(e, w2, steps);
    StepsRunIff(e, w2, steps);
  }

  /** Every such commit is reported as rolled back, by an engine whose rollback then works. */
  lemma LateCommitReportedRolledBack(e: Engine, dialect: string, schema: bool, w: World, steps: seq<Step>)
    requires w.tx.None? && SupportOf(dialect).ddl && CommittedLate(e, schema, w, steps)
    requires e.flakyRollback ==> FateOf(e, CommitOf(e, schema, w, steps) + 1).Works?
    ensures var (u, events) := Atomic(e, dialect, schema, w, steps);
      |events| > 0 && LastDone(events) == Done(false, true) && Some(u.committed) == ApplyAll(e, steps, w.committed)
  {
    hide SupportOf, RunSteps, ApplyAll, OperationsOf, PlanUndoable;
    var w1 := Begin(e, w).0;
    var w2 := if schema then SetSchema(e, w1).0 else w1;
    StepsMean(e, w2, steps);
    StepsRunIff(e, w2, steps);
  }

  /** One statement on a PostgreSQL target: reported as rolled back, and applied. */
  lemma RolledBackButApplied()
    ensures var e := Engine((sql: string, db: Db) => Some(db["t" := sql]), sql => true, sql => true,
                            false, [Works, Works, BreaksAfterwards], true, false);
      var (u, events) := Atomic(e, "postgres", false, World(map[], None, 0), [Step("s", ["create"], false)]);
      |events| > 0 && LastDone(events) == Done(false, true) && u.committed == map["t" := "create"]
  {
    var e := Engine((sql: string, db: Db) => Some(db["t" := sql]), sql => true, sql => true,
                    false, [Works, Works, BreaksAfterwards], true, false);
    var w, steps := World(map[], None, 0), [Step("s", ["create"], false)];
    assert "create"[..] == "create" && ["create"][1..] == [] && steps[1..] == [];
    assert Operations(e, ["create"]) == 1 + Operations(e, []);
    assert OperationsOf(e, steps) == 1 + OperationsOf(e, []);
    var applied: Db := map["t" := "create"];
    assert Apply(e, ["create"], w.committed) == Apply(e, [], applied) == Some(applied);
    assert ApplyAll(e, steps, w.committed) == ApplyAll(e, [], applied) == Some(applied);
    PostgresSupportsDdl();
    LateCommitReportedRolledBack(e, "postgres", false, w, steps);
  }

  lemma PostgresSupportsDdl()
    ensures SupportOf("postgres").ddl
  {
    assert Trim("postgres") == "postgres";
    assert |Lower("postgres")| == 8;
  }

  // ---- the truth of a run that continues on error ----

  /** How many of the statements take effect: up to the first that fails, and that one if it fails afterwards. */
  function Ran(e: Engine, operation: nat, stmts: seq<string>, db: Db): (n: nat)
    ensures n <= |stmts|
    decreases |stmts|
  {
    if stmts == [] then 0
    else if !e.executable(stmts[0]) then 1 + Ran(e, operation, stmts[1..], db)
    else
      var result := e.run(stmts[0], db);
      if result.None? || FateOf(e, operation).Breaks? then 0
      else if FateOf(e, operation).BreaksAfterwards? then 1
      else 1 + Ran(e, operation + 1, stmts[1..], result.value)
  }

  /** How many of the statements no rollback undoes, from a transaction in which none has been sealed yet: those up to
      the last that cannot be undone, and where the engine goes on without a transaction all that follow it. */
  function Sealed(e: Engine, operation: nat, stmts: seq<string>, db: Db): (n: Option<nat>)
    ensures n.Some? ==> n.value <= |stmts|
    decreases |stmts|
  {
    if stmts == [] then None
    else
      var first, rest := stmts[0], stmts[1..];
      if !e.executable(first) then After1(Sealed(e, operation, rest, db))
      else
        var result := e.run(first, db);
        var fate := FateOf(e, operation);
        if e.undoable(first) then
          (if result.None? || !fate.Works? then None else After1(Sealed(e, operation + 1, rest, result.value)))
        else if fate.Breaks? then None
        else if result.None? then Some(0)
        else if fate.BreaksAfterwards? then Some(1)
        else if !e.reopens then Some(1 + Ran(e, operation + 1, rest, result.value))
        else
          var more := Sealed(e, operation + 1, rest, result.value);
          if more.None? then Some(1) else After1(more)
  }

  function After1(n: Option<nat>): Option<nat> {
    if n.None? then None else Some(n.value + 1)
  }

  /** The first `n` statements have been applied. */
  predicate Holds(e: Engine, stmts: seq<string>, n: nat, before: Db, after: Db)
    requires n <= |stmts|
  {
    Apply(e, stmts[..n], before) == Some(after)
  }

  lemma HoldsNext(e: Engine, stmts: seq<string>, n: nat, before: Db, after: Db)
    requires stmts != [] && n < |stmts|
    ensures !e.executable(stmts[0]) ==>
              (Holds(e, stmts, n + 1, before, after) <==> Holds(e, stmts[1..], n, before, after))
    ensures e.executable(stmts[0]) && e.run(stmts[0], before).Some? ==>
      (Holds(e, stmts, n + 1, before, after) <==> Holds(e, stmts[1..], n, e.run(stmts[0], before).value, after))
  {
    assert stmts[..n + 1][0] == stmts[0] && stmts[..n + 1][1..] == stmts[1..][..n];
  }

  /** Without a transaction every statement that takes effect stays. */
  lemma {:induction false} StatementsAtOnce(e: Engine, w: World, stmts: seq<string>)
    requires w.tx.None?
    ensures Holds(e, stmts, Ran(e, w.clock, stmts, w.committed), w.committed, RunStatements(e, w, stmts).0.committed)
    decreases |stmts|
  {
    var n, after := Ran(e, w.clock, stmts, w.committed), RunStatements(e, w, stmts).0.committed;
    if n == 0 {
      assert stmts[..0] == [];
    } else {
      var v := if e.executable(stmts[0]) then Query(e, w, stmts[0]).0 else w;
      if e.executable(stmts[0]) && !FateOf(e, w.clock).Works? {
        assert stmts[1..][..0] == [];
      } else {
        StatementsAtOnce(e, v, stmts[1..]);
      }
      HoldsNext(e, stmts, n - 1, w.committed, after);
    }
  }

  /** In a transaction exactly the sealed statements stay. */
  lemma {:induction false} StatementsSealed(e: Engine, w: World, stmts: seq<string>)
    requires w.tx.Some?
    ensures var n, after := Sealed(e, w.clock, stmts, w.tx.value), RunStatements(e, w, stmts).0.committed;
      if n.None? then after == w.committed else Holds(e, stmts, n.value, w.tx.value, after)
    decreases |stmts|
  {
    if stmts != [] {
      var db, rest := w.tx.value, stmts[1..];
      var after := RunStatements(e, w, stmts).0.committed;
      assert stmts[..0] == [] == rest[..0];
      if !e.executable(stmts[0]) {
        StatementsSealed(e, w, rest);
        SealedNext(e, stmts, Sealed(e, w.clock, rest, db), db, after);
      } else if e.run(stmts[0], db).Some? && !FateOf(e, w.clock).Breaks? {
        var v := Query(e, w, stmts[0]).0;
        HoldsNext(e, stmts, 0, db, after);
        if FateOf(e, w.clock).Works? {
          if v.tx.Some? {
            StatementsSealed(e, v, rest);
            SealedNext(e, stmts, Sealed(e, v.clock, rest, v.tx.value), db, after);
          } else {
            StatementsAtOnce(e, v, rest);
            SealedNext(e, stmts, Some(Ran(e, v.clock, rest, v.committed)), db, after);
          }
        }
      }
    }
  }

  lemma SealedNext(e: Engine, stmts: seq<string>, n: Option<nat>, before: Db, after: Db)
    requires stmts != [] && (n.Some? ==> n.value < |stmts|)
    ensures n.Some? && !e.executable(stmts[0]) ==>
      (Holds(e, stmts, n.value + 1, before, after) <==> Holds(e, stmts[1..], n.value, before, after))
    ensures n.Some? && e.executable(stmts[0]) && e.run(stmts[0], before).Some? ==>
      (Holds(e, stmts, n.value + 1, before, after)
       <==> Holds(e, stmts[1..], n.value, e.run(stmts[0], before).value, after))
  {
    if n.Some? {
      HoldsNext(e, stmts, n.value, before, after);
    }
  }

  /** What a step reported FAILED leaves behind: everything, if its own commit took effect late, else what its
      sealed statements made of the target. */
  function Residue(e: Engine, w: World, s: Step): Db {
    if s.skipped || !FateOf(e, w.clock).Works? then w.committed
    else if CommittedLate(e, false, w, [s]) then ApplyAll(e, [s], w.committed).value
    else
      var n := Sealed(e, w.clock + 1, s.statements, w.committed);
      if n.None? || Apply(e, s.statements[..n.value], w.committed).None? then w.committed
      else Apply(e, s.statements[..n.value], w.committed).value
  }

  lemma OneStep(e: Engine, s: Step, db: Db)
    ensures OperationsOf(e, [s]) == if s.skipped then 0 else Operations(e, s.statements)
    ensures ApplyAll(e, [s], db) == if s.skipped then Some(db) else Apply(e, s.statements, db)
  {
    assert [s][1..] == [];
    assert forall d :: ApplyAll(e, [], d) == Some(d);
  }

  /** What the statements of a step alone have left committed when they, or the commit after them, fail. */
  lemma SealedStays(e: Engine, w: World, s: Step)
    requires w.tx.None? && FateOf(e, w.clock).Works? && !s.skipped && !CommittedLate(e, false, w, [s])
    ensures RunStatements(e, Begin(e, w).0, s.statements).0.committed == Residue(e, w, s)
  {
    hide RunStatements, Sealed, Apply, CommittedLate;
    StatementsSealed(e, Begin(e, w).0, s.statements);
  }

  lemma CommitsLateIff(e: Engine, w: World, s: Step)
    requires w.tx.None? && FateOf(e, w.clock).Works? && !s.skipped
    ensures var (u, ok) := RunStatements(e, Begin(e, w).0, s.statements);
      && (ok ==> Apply(e, s.statements, w.committed) == Some(Visible(u)))
      && (CommittedLate(e, false, w, [s]) <==> ok && e.lateCommits && FateAt(e, u).BreaksAfterwards?)
  {
    hide RunStatements, Apply, Operations, ApplyAll, OperationsOf;
    var w1 := Begin(e, w).0;
    OneStep(e, s, w.committed);
    StatementsMean(e, w1, s.statements);
    StatementsRunIff(e, w1, s.statements);
  }

  lemma OneVerdict(name: string, v: Status)
    requires !v.Running?
    ensures Verdicts([Object(name, v)]) == [v] && Verdicts([Object(name, Running), Object(name, v)]) == [v]
  {
    assert [Object(name, Running), Object(name, v)][1..] == [Object(name, v)];
    assert [Object(name, v)][1..] == [];
    assert Verdicts([Object(name, v)]) == [v] + Verdicts([]);
  }

  /** A step alone, on any engine whose rollbacks work: applied when reported SUCCESS, else its residue. */
  lemma AloneIsExact(e: Engine, w: World, s: Step)
    requires w.tx.None? && !e.flakyRollback
    ensures var (u, events) := RunAlone(e, w, s);
      && u.tx.None? && |Verdicts(events)| == 1
      && if Verdicts(events)[0].Success? then Apply(e, s.statements, w.committed) == Some(u.committed)
         else u.committed == Residue(e, w, s)
  {
    hide RunStatements, Sealed, Verdicts, Apply, CommittedLate;
    OneVerdict(s.name, Skipped);
    OneVerdict(s.name, Success);
    OneVerdict(s.name, Failed);
    if FateOf(e, w.clock).Works? && !s.skipped {
      OneStep(e, s, w.committed);
      CommitsLateIff(e, w, s);
      if !CommittedLate(e, false, w, [s]) {
        SealedStays(e, w, s);
      }
    }
  }

  lemma {:induction false} VerdictsConcat(a: seq<Event>, b: seq<Event>)
    ensures Verdicts(a + b) == Verdicts(a) + Verdicts(b)
  {
    if a == [] {
      assert a + b == b;
    } else {
      assert (a + b)[1..] == a[1..] + b;
      VerdictsConcat(a[1..], b);
    }
  }

  /** The target after the first `n` steps. */
  function After(e: Engine, w: World, steps: seq<Step>, n: nat): World
    requires n <= |steps|
  {
    RunEach(e, w, steps[..n]).0
  }

  function VerdictsUpTo(e: Engine, w: World, steps: seq<Step>, n: nat): seq<Status>
    requires n <= |steps|
  {
    Verdicts(RunEach(e, w, steps[..n]).1)
  }

  /** After `n` steps the target is exactly those of them reported SUCCESS, applied in order. */
  predicate TrueAfter(e: Engine, w: World, steps: seq<Step>, n: nat)
    requires n <= |steps|
  {
    ApplyReported(e, steps[..n], VerdictsUpTo(e, w, steps, n), w.committed) == Some(After(e, w, steps, n).committed)
  }

  lemma {:induction false} EachThenOne(e: Engine, w: World, steps: seq<Step>, s: Step)
    ensures var (u, events) := RunEach(e, w, steps);
            RunEach(e, w, steps + [s]) == (RunAlone(e, u, s).0, events + RunAlone(e, u, s).1)
    decreases |steps|
  {
    if steps == [] {
      var (u, events) := RunAlone(e, w, s);
      assert [] + [s] == [s] && [s][1..] == [];
      assert RunEach(e, w, [s]) == (u, events + []);
      assert events + [] == [] + events;
    } else {
      var (u, events) := RunAlone(e, w, steps[0]);
      EachThenOne(e, u, steps[1..], s);
      assert (steps + [s])[0] == steps[0] && (steps + [s])[1..] == steps[1..] + [s];
      var (v, more) := RunEach(e, u, steps[1..]);
      assert events + (more + RunAlone(e, v, s).1) == events + more + RunAlone(e, v, s).1;
    }
  }

  /** The account of one more step. */
  function Reported(e: Engine, before: Option<Db>, s: Step, v: Status): Option<Db> {
    if before.None? || !v.Success? then before else Apply(e, s.statements, before.value)
  }

  lemma {:induction false} ReportedThenOne(e: Engine, steps: seq<Step>, verdicts: seq<Status>, s: Step, v: Status,
                                           db: Db)
    requires |steps| == |verdicts|
    ensures ApplyReported(e, steps + [s], verdicts + [v], db)
         == Reported(e, ApplyReported(e, steps, verdicts, db), s, v)
    decreases |steps|
  {
    if steps == [] {
      assert [] + [s] == [s] && [] + [v] == [v] && [s][1..] == [] && [v][1..] == [];
    } else {
      assert (steps + [s])[1..] == steps[1..] + [s] && (verdicts + [v])[1..] == verdicts[1..] + [v];
      if !verdicts[0].Success? {
        ReportedThenOne(e, steps[1..], verdicts[1..], s, v, db);
      } else if Apply(e, steps[0].statements, db).Some? {
        ReportedThenOne(e, steps[1..], verdicts[1..], s, v, Apply(e, steps[0].statements, db).value);
      }
    }
  }

  lemma StepAfter(e: Engine, w: World, steps: seq<Step>, n: nat)
    requires n < |steps|
    ensures var u := After(e, w, steps, n);
            && After(e, w, steps, n + 1) == RunAlone(e, u, steps[n]).0
            && VerdictsUpTo(e, w, steps, n + 1) == VerdictsUpTo(e, w, steps, n) + Verdicts(RunAlone(e, u, steps[n]).1)
  {
    assert steps[..n + 1] == steps[..n] + [steps[n]];
    EachThenOne(e, w, steps[..n], steps[n]);
    VerdictsConcat(RunEach(e, w, steps[..n]).1, RunAlone(e, After(e, w, steps, n), steps[n]).1);
  }

  lemma {:induction false} AfterFacts(e: Engine, w: World, steps: seq<Step>, n: nat)
    requires w.tx.None? && !e.flakyRollback && n <= |steps|
    ensures After(e, w, steps, n).tx.None? && |VerdictsUpTo(e, w, steps, n)| == n
    decreases n
  {
    if n > 0 {
      hide After, VerdictsUpTo;
      AfterFacts(e, w, steps, n - 1);
      StepAfter(e, w, steps, n - 1);
      AloneIsExact(e, After(e, w, steps, n - 1), steps[n - 1]);
    } else {
      assert steps[..0] == [];
    }
  }

  /** Step `n`, if it is not reported SUCCESS, leaves the target as it found it. */
  predicate LeavesNothing(e: Engine, w: World, steps: seq<Step>, n: nat)
    requires n < |steps|
  {
    var u := After(e, w, steps, n);
    var verdicts := Verdicts(RunAlone(e, u, steps[n]).1);
    |verdicts| == 1 && (verdicts[0].Success? || Residue(e, u, steps[n]) == u.committed)
  }

  /** What one more step does to the truth of the reports so far. */
  lemma TruthStep(e: Engine, w: World, steps: seq<Step>, n: nat)
    requires w.tx.None? && !e.flakyRollback && n < |steps| && TrueAfter(e, w, steps, n)
    ensures TrueAfter(e, w, steps, n + 1) <==> LeavesNothing(e, w, steps, n)
  {
    hide After, VerdictsUpTo, RunAlone, Residue;
    AfterFacts(e, w, steps, n);
    StepAfter(e, w, steps, n);
    var u := After(e, w, steps, n);
    AloneIsExact(e, u, steps[n]);
    assert steps[..n + 1] == steps[..n] + [steps[n]];
    var verdicts := Verdicts(RunAlone(e, u, steps[n]).1);
    assert verdicts == [verdicts[0]];
    ReportedThenOne(e, steps[..n], VerdictsUpTo(e, w, steps, n), steps[n], verdicts[0], w.committed);
  }

  lemma {:induction false} TrueWhileNothingLeft(e: Engine, w: World, steps: seq<Step>, n: nat)
    requires w.tx.None? && !e.flakyRollback && n <= |steps|
    requires forall i :: 0 <= i < n ==> LeavesNothing(e, w, steps, i)
    ensures TrueAfter(e, w, steps, n)
    decreases n
  {
    if n > 0 {
      hide TrueAfter, LeavesNothing;
      TrueWhileNothingLeft(e, w, steps, n - 1);
      TruthStep(e, w, steps, n - 1);
    } else {
      assert steps[..0] == [];
    }
  }

  /** With working rollback, on every engine: the reports are true of the target throughout the run exactly
      when no step reported FAILED leaves anything behind. */
  lemma ReportsTrueThroughoutIff(e: Engine, w: World, steps: seq<Step>)
    requires w.tx.None? && !e.flakyRollback
    ensures (forall n :: 0 <= n <= |steps| ==> TrueAfter(e, w, steps, n))
       <==> (forall i :: 0 <= i < |steps| ==> LeavesNothing(e, w, steps, i))
  {
    hide TrueAfter, LeavesNothing;
    if forall n :: 0 <= n <= |steps| ==> TrueAfter(e, w, steps, n) {
      forall i | 0 <= i < |steps|
        ensures LeavesNothing(e, w, steps, i)
      {
        TruthStep(e, w, steps, i);
      }
    }
    if forall i :: 0 <= i < |steps| ==> LeavesNothing(e, w, steps, i) {
      forall n | 0 <= n <= |steps|
        ensures TrueAfter(e, w, steps, n)
      {
        TrueWhileNothingLeft(e, w, steps, n);
      }
    }
  }

  predicate NoEffectiveLateCommit(e: Engine, u: World, s: Step) {
    !CommittedLate(e, false, u, [s]) || ApplyAll(e, [s], u.committed) == Some(u.committed)
  }

  lemma {:induction false} NothingSealed(e: Engine, operation: nat, stmts: seq<string>, db: Db)
    requires AllUndoable(e, stmts)
    ensures Sealed(e, operation, stmts, db).None?
    decreases |stmts|
  {
    if stmts != [] {
      assert stmts == [stmts[0]] + stmts[1..];
      if !e.executable(stmts[0]) {
        NothingSealed(e, operation, stmts[1..], db);
      } else if e.run(stmts[0], db).Some? {
        NothingSealed(e, operation + 1, stmts[1..], e.run(stmts[0], db).value);
      }
    }
  }

  /** Where a rollback undoes the step's statements, the step, if it fails, leaves something exactly when its commit
      took effect late and it changes something. */
  lemma LeavesNothingIff(e: Engine, w: World, steps: seq<Step>, n: nat)
    requires w.tx.None? && !e.flakyRollback && n < |steps| && AllUndoable(e, steps[n].statements)
    ensures LeavesNothing(e, w, steps, n) <==> NoEffectiveLateCommit(e, After(e, w, steps, n), steps[n])
  {
    hide After;
    var u, s := After(e, w, steps, n), steps[n];
    AfterFacts(e, w, steps, n);
    AloneIsExact(e, u, s);
    OneStep(e, s, u.committed);
    StatementsMean(e, Begin(e, u).0, s.statements);
    StatementsRunIff(e, Begin(e, u).0, s.statements);
    NothingSealed(e, u.clock + 1, s.statements, u.committed);
  }

  /** An engine whose every statement writes itself over the same object, and whose third operation commits late. */
  function Overwriting(): Engine {
    Engine((sql: string, db: Db) => Some(db["t" := sql]), sql => true, sql => true, false,
           [Works, Works, BreaksAfterwards], true, false)
  }

  lemma OverwritingAlone(db: Db, late: bool, name: string, sql: string)
    ensures RunAlone(Overwriting(), World(db, None, if late then 0 else 4), Step(name, [sql], false))
         == (World(db["t" := sql], None, if late then 4 else 7),
             [Object(name, Running), Object(name, if late then Failed else Success)])
  {
    var e, w := Overwriting(), World(db, None, if late then 0 else 4);
    var w1 := World(db, Some(db), w.clock + 1);
    var w2 := World(db, Some(db["t" := sql]), w.clock + 2);
    assert [sql][1..] == [];
    assert Query(e, w1, sql) == (w2, true);
    assert RunStatements(e, w1, [sql]) == RunStatements(e, w2, []) == (w2, true);
  }

  lemma AtTheStart(e: Engine, w: World, steps: seq<Step>)
    ensures After(e, w, steps, 0) == w && VerdictsUpTo(e, w, steps, 0) == []
    ensures ApplyReported(e, [], [], w.committed) == Some(w.committed)
  {
    assert steps[..0] == [];
  }

  lemma OneStatement(e: Engine, sql: string, db: Db)
    requires e.executable(sql)
    ensures Apply(e, [sql], db) == e.run(sql, db)
  {
    assert [sql][1..] == [];
    assert e.run(sql, db).Some? ==> Apply(e, [], e.run(sql, db).value) == e.run(sql, db);
  }

  /** The end of a run alone does not tell: a later step can write over what a late commit left. */
  lemma LaterStepCanHideIt()
    ensures var w, steps := World(map[], None, 0), [Step("a", ["one"], false), Step("b", ["two"], false)];
      !TrueAfter(Overwriting(), w, steps, 1) && TrueAfter(Overwriting(), w, steps, 2)
  {
    hide RunAlone, After, VerdictsUpTo, Verdicts, ApplyReported, Apply;
    var e, a, b := Overwriting(), Step("a", ["one"], false), Step("b", ["two"], false);
    var w, steps := World(map[], None, 0), [a, b];
    var one: Db, two: Db := map["t" := "one"], map["t" := "two"];
    assert steps[..1] == [] + [a] && steps[..2] == [a] + [b];
    AtTheStart(e, w, steps);
    StepAfter(e, w, steps, 0);
    OverwritingAlone(map[], true, "a", "one");
    OneVerdict("a", Failed);
    ReportedThenOne(e, [], [], a, Failed, map[]);
    assert [] + [Failed] == [Failed] && [] + [a] == [a];
    StepAfter(e, w, steps, 1);
    assert one["t" := "two"] == two;
    OverwritingAlone(one, false, "b", "two");
    OneVerdict("b", Success);
    ReportedThenOne(e, [a], [Failed], b, Success, map[]);
    OneStatement(e, "two", map[]);
    assert "t" in one;
  }

  lemma VerdictsWrapped(events: seq<Event>, n: nat, last: Event)
    requires last.Done?
    ensures Verdicts([Started(n)] + events + [last]) == Verdicts(events)
  {
    VerdictsConcat([Started(n)] + events, [last]);
    VerdictsConcat([Started(n)], events);
    assert [Started(n)][1..] == [] && [last][1..] == [];
  }

  /** A whole run: where no failed step leaves anything, the target is exactly the steps reported SUCCESS,
      applied in order; where no schema could be chosen, it is untouched. */
  lemma ContinueIsTruthful(e: Engine, schema: bool, w: World, steps: seq<Step>)
    requires w.tx.None? && !e.flakyRollback
    ensures var (u, events) := ContinueOnError(e, schema, w, steps);
      var x := if schema then SetSchema(e, w).0 else w;
      && u.tx.None?
      && (LastDone(events) == Done(false, false) ==> u.committed == w.committed)
      && (LastDone(events) == Done(true, false) && (forall i :: 0 <= i < |steps| ==> LeavesNothing(e, x, steps, i))
          ==> ApplyReported(e, steps, Verdicts(events), w.committed) == Some(u.committed))
  {
    var x := if schema then SetSchema(e, w).0 else w;
    assert steps[..|steps|] == steps;
    AfterFacts(e, x, steps, |steps|);
    VerdictsWrapped(RunEach(e, x, steps).1, |steps|, Done(true, false));
    if forall i :: 0 <= i < |steps| ==> LeavesNothing(e, x, steps, i) {
      TrueWhileNothingLeft(e, x, steps, |steps|);
    }
  }

  // ---- the two modes ----

  lemma {:induction false} StatementsWork(e: Engine, w: World, stmts: seq<string>)
    requires e.fate == [] && Apply(e, stmts, Visible(w)).Some?
    ensures RunStatements(e, w, stmts).1
    decreases |stmts|
  {
    if stmts != [] {
      if e.executable(stmts[0]) {
        StatementsWork(e, Query(e, w, stmts[0]).0, stmts[1..]);
      } else {
        StatementsWork(e, w, stmts[1..]);
      }
    }
  }

  lemma {:induction false} StepsWork(e: Engine, w: World, x: World, steps: seq<Step>)
    requires e.fate == [] && ApplyAll(e, steps, Visible(w)).Some? && Visible(w) == x.committed && x.tx.None?
    ensures RunSteps(e, w, steps).2
    ensures var (u, events) := RunEach(e, x, steps);
      u.tx.None? && Some(u.committed) == ApplyAll(e, steps, Visible(w)) && events == RunSteps(e, w, steps).1
    decreases |steps|
  {
    if steps != [] {
      if steps[0].skipped {
        StepsWork(e, w, x, steps[1..]);
      } else {
        var begun := Begin(e, x).0;
        StatementsWork(e, w, steps[0].statements);
        StatementsMean(e, w, steps[0].statements);
        StatementsWork(e, begun, steps[0].statements);
        StatementsMean(e, begun, steps[0].statements);
        StepsWork(e, RunStatements(e, w, steps[0].statements).0, RunAlone(e, x, steps[0]).0, steps[1..]);
      }
    }
  }

  /** When nothing fails the two modes leave the same target and emit the same events. */
  lemma ModesAgree(e: Engine, dialect: string, schema: bool, w: World, steps: seq<Step>)
    requires e.fate == [] && w.tx.None? && ApplyAll(e, steps, w.committed).Some?
    ensures var (u, events) := Atomic(e, dialect, schema, w, steps);
      var (u', events') := ContinueOnError(e, schema, w, steps);
      u.committed == u'.committed == ApplyAll(e, steps, w.committed).value && events == events'
  {
    var w1 := Begin(e, w).0;
    var w2 := if schema then SetSchema(e, w1).0 else w1;
    var x := if schema then SetSchema(e, w).0 else w;
    StepsWork(e, w2, x, steps);
    StepsMean(e, w2, steps);
  }

  /** An engine that undoes rows and not tables; every statement but "bad" writes itself over the object it is on. */
  function RowsOnly(): Engine {
    Engine((sql: string, db: Db) => if sql == "bad" then None else Some(db["t" := sql]), sql => true,
           sql => sql != "create", false, [], false, false)
  }

  /** There a step reported FAILED leaves the table it made first, and leaves nothing of the rows it put in first. */
  lemma TableStaysRowsGo(first: string)
    requires first == "create" || first == "insert"
    ensures var (u, events) := RunAlone(RowsOnly(), World(map[], None, 0), Step("s", [first, "bad"], false));
      && events == [Object("s", Running), Object("s", Failed)]
      && u.committed == if first == "create" then map["t" := "create"] else map[]
  {
    var e, w0, stmts := RowsOnly(), World(map[], None, 0), [first, "bad"];
    assert first[0] != "bad"[0];
    var w1 := Tick(World(map[], Some(map[]), 0));
    assert Begin(e, w0) == (w1, true);
    var w2 := Tick(Took(e, w1, first, Some(map["t" := first])));
    assert Query(e, w1, first) == (w2, true);
    assert "bad" != "create" by { assert "bad"[0] != "create"[0]; }
    assert "insert" != "create" by { assert "insert"[0] != "create"[0]; }
    assert Query(e, w2, "bad") == (Tick(w2), false);
    assert stmts[1..] == ["bad"];
    assert RunStatements(e, w2, ["bad"]) == (Tick(w2), false);
    assert RunStatements(e, w1, stmts) == (Tick(w2), false);
  }
}
