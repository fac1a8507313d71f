/** Running a migration plan against a target whose every operation may fail, before or
    after taking effect, and what its events then say about the target. */
module Migration {
  import opened Wrappers
  import opened Strings

  /** The target's objects and their definitions. */
  type Db = map<string, string>

  datatype Step = Step(name: string, statements: seq<string>, skipped: bool)

  datatype Status = Running | Success | Failed | Skipped

  datatype Event =
    | Started(total: nat)
    | Object(name: string, status: Status)
    | Done(success: bool, rolledBack: bool)

  // ---- what engines can undo ----

  datatype RollbackSupport = RollbackSupport(dml: bool, ddl: bool)

  const UNDO_NOTHING: set<string> := {"redis", "mongodb", "clickhouse"}

  const UNDO_ROWS_ONLY: set<string> := {"mysql", "mariadb", "tidb", "oracle", "cockroachdb"}

  /** The table of engines that cannot undo something; every other engine undoes both. */
  function SupportOf(dialect: string): (r: RollbackSupport)
    ensures r.ddl ==> r.dml
    ensures r.dml <==> Lower(Trim(dialect)) !in UNDO_NOTHING
    ensures r.ddl <==> Lower(Trim(dialect)) !in UNDO_NOTHING + UNDO_ROWS_ONLY
  {
    var d := Lower(Trim(dialect));
    if d in ["redis", "mongodb", "clickhouse"] then RollbackSupport(false, false)
    else if d in ["mysql", "mariadb", "tidb", "oracle", "cockroachdb"] then RollbackSupport(true, false)
    else RollbackSupport(true, true)
  }

  // ---- the target ----

  /** What becomes of one operation: it works, it fails, or it takes effect and then fails. */
  datatype Fate = Works | Breaks | BreaksAfterwards

  /** The engine. `run` is what a statement does, `executable` whether it is more than comments, `undoable`
      whether a rollback undoes it: any other statement commits what is open and applies at once, after which
      the engine `reopens` a transaction or goes on without one. `fate` decides each operation in turn.
      `lateCommits`: a commit may take effect and still be reported failed. `flakyRollback`: a rollback may fail. */
  datatype Engine = Engine(run: (string, Db) -> Option<Db>, executable: string -> bool, undoable: string -> bool,
                           reopens: bool, fate: seq<Fate>, lateCommits: bool, flakyRollback: bool)

  /** What others see is `committed`; `tx` is the open transaction. */
  datatype World = World(committed: Db, tx: Option<Db>, clock: nat)

  /** Operations are numbered by the clock. */
  function FateOf(e: Engine, operation: nat): Fate {
    if operation < |e.fate| then e.fate[operation] else Works
  }

  function FateAt(e: Engine, w: World): Fate {
    FateOf(e, w.clock)
  }

  function Tick(w: World): World {
    w.(clock := w.clock + 1)
  }

  /** Beginning inside an open transaction stays in it. */
  function Begin(e: Engine, w: World): (World, bool) {
    var inside := if w.tx.None? then w.(tx := Some(w.committed)) else w;
    match FateAt(e, w)
    case Works => (Tick(inside), true)
    case Breaks => (Tick(w), false)
    case BreaksAfterwards => (Tick(inside), false)
  }

  function SetSchema(e: Engine, w: World): (World, bool) {
    (Tick(w), FateAt(e, w).Works?)
  }

  function Visible(w: World): Db {
    if w.tx.Some? then w.tx.value else w.committed
  }

  function Write(w: World, db: Db): World {
    if w.tx.Some? then w.(tx := Some(db)) else w.(committed := db)
  }

  /** What is there stays, whatever is rolled back later. */
  function Seal(e: Engine, w: World, db: Db): World {
    w.(committed := db, tx := if w.tx.Some? && e.reopens then Some(db) else None)
  }

  /** A statement has been run: to this effect, or to an error, which undoes nothing but the statement. */
  function Took(e: Engine, w: World, sql: string, result: Option<Db>): World {
    var db := if result.Some? then result.value else Visible(w);
    if e.undoable(sql) then Write(w, db) else Seal(e, w, db)
  }

  function Query(e: Engine, w: World, sql: string): (World, bool) {
    var result := e.run(sql, Visible(w));
    match FateAt(e, w)
    case Works => (Tick(Took(e, w, sql, result)), result.Some?)
    case Breaks => (Tick(w), false)
    case BreaksAfterwards => (Tick(Took(e, w, sql, result)), false)
  }

  function Commit(e: Engine, w: World): (World, bool) {
    var done := World(Visible(w), None, w.clock);
    match FateAt(e, w)
    case Works => (Tick(done), true)
    case Breaks => (Tick(w), false)
    case BreaksAfterwards => (Tick(if e.lateCommits then done else w), false)
  }

  function Rollback(e: Engine, w: World): (World, bool) {
    var undone := w.(tx := None);
    if !e.flakyRollback then (Tick(undone), true) else
      match FateAt(e, w)
      case Works => (Tick(undone), true)
      case Breaks => (Tick(w), false)
      case BreaksAfterwards => (Tick(undone), false)
  }

  // ---- running steps ----

  /** Statements in order until one fails; those that are only comments are passed over. */
  function RunStatements(e: Engine, w: World, stmts: seq<string>): (World, bool)
    decreases |stmts|
  {
    if stmts == [] then (w, true)
    else if !e.executable(stmts[0]) then RunStatements(e, w, stmts[1..])
    else
      var (u, ok) := Query(e, w, stmts[0]);
      if ok then RunStatements(e, u, stmts[1..]) else (u, false)
  }

  /** The steps of an all-or-nothing run: stops at the first that fails. */
  function RunSteps(e: Engine, w: World, steps: seq<Step>): (World, seq<Event>, bool)
    decreases |steps|
  {
    if steps == [] then (w, [], true) else
      var s := steps[0];
      if s.skipped then
        var (u, events, ok) := RunSteps(e, w, steps[1..]);
        (u, [Object(s.name, Skipped)] + events, ok)
      else
        var (v, ran) := RunStatements(e, w, s.statements);
        if !ran then (v, [Object(s.name, Running), Object(s.name, Failed)], false) else
          var (u, events, ok) := RunSteps(e, v, steps[1..]);
          (u, [Object(s.name, Running), Object(s.name, Success)] + events, ok)
  }

  /** `executeAtomic`. `schema` says whether a schema was named. */
  function Atomic(e: Engine, dialect: string, schema: bool, w: World, steps: seq<Step>): (World, seq<Event>) {
    var (w1, begun) := Begin(e, w);
    if !begun then (w1, [Done(false, false)]) else
    var (w2, placed) := if schema then SetSchema(e, w1) else (w1, true);
    if !placed then (w2, [Done(false, false)]) else
    var (w3, events, ran) := RunSteps(e, w2, steps);
    var (w4, committed) := if ran then Commit(e, w3) else (w3, false);
    if ran && committed then (w4, [Started(|steps|)] + events + [Done(true, false)]) else
    var (w5, undone) := Rollback(e, w4);
    (w5, [Started(|steps|)] + events + [Done(false, undone && SupportOf(dialect).ddl)])
  }

  /** One step of `executeContinueOnError`: a transaction of its own. */
  function RunAlone(e: Engine, w: World, s: Step): (World, seq<Event>) {
    if s.skipped then (w, [Object(s.name, Skipped)]) else
    var (w1, begun) := Begin(e, w);
    var (w2, ran) := if begun then RunStatements(e, w1, s.statements) else (w1, false);
    var (w3, committed) := if ran then Commit(e, w2) else (w2, false);
    if committed then (w3, [Object(s.name, Running), Object(s.name, Success)])
    else (Rollback(e, w3).0, [Object(s.name, Running), Object(s.name, Failed)])
  }

  function RunEach(e: Engine, w: World, steps: seq<Step>): (World, seq<Event>)
    decreases |steps|
  {
    if steps == [] then (w, []) else
      var (u, events) := RunAlone(e, w, steps[0]);
      var (v, more) := RunEach(e, u, steps[1..]);
      (v, events + more)
  }

  function ContinueOnError(e: Engine, schema: bool, w: World, steps: seq<Step>): (World, seq<Event>) {
    var (w1, placed) := if schema then SetSchema(e, w) else (w, true);
    if !placed then (w1, [Done(false, false)]) else
      var (w2, events) := RunEach(e, w1, steps);
      (w2, [Started(|steps|)] + events + [Done(true, false)])
  }

  // ---- what a plan means, without an engine that fails ----

  function Apply(e: Engine, stmts: seq<string>, db: Db): Option<Db> {
    if stmts == [] then Some(db)
    else if !e.executable(stmts[0]) then Apply(e, stmts[1..], db)
    else
      var r := e.run(stmts[0], db);
      if r.None? then None else Apply(e, stmts[1..], r.value)
  }

  /** All steps that are not skipped, in order. */
  function ApplyAll(e: Engine, steps: seq<Step>, db: Db): Option<Db> {
    if steps == [] then Some(db)
    else if steps[0].skipped then ApplyAll(e, steps[1..], db)
    else
      var r := Apply(e, steps[0].statements, db);
      if r.None? then None else ApplyAll(e, steps[1..], r.value)
  }

  /** The final status of each object, in order. */
  function Verdicts(events: seq<Event>): seq<Status> {
    if events == [] then []
    else (if events[0].Object? && !events[0].status.Running? then [events[0].status] else []) + Verdicts(events[1..])
  }

  /** The steps reported SUCCESS, in order. */
  function ApplyReported(e: Engine, steps: seq<Step>, verdicts: seq<Status>, db: Db): Option<Db> {
    if steps == [] || verdicts == [] then Some(db)
    else if !verdicts[0].Success? then ApplyReported(e, steps[1..], verdicts[1..], db)
    else
      var r := Apply(e, steps[0].statements, db);
      if r.None? then None else ApplyReported(e, steps[1..], verdicts[1..], r.value)
  }

  // ---- exactly one done, last ----

  predicate OnlyObjects(events: seq<Event>) {
    forall v :: v in events ==> v.Object?
  }

  ghost predicate OneDoneLast(events: seq<Event>) {
    && |events| > 0 && events[|events| - 1].Done?
    && forall i :: 0 <= i < |events| - 1 ==> !events[i].Done?
  }

  lemma {:induction false} StepsEmitObjects(e: Engine, w: World, steps: seq<Step>)
    ensures OnlyObjects(RunSteps(e, w, steps).1) && OnlyObjects(RunEach(e, w, steps).1)
    decreases |steps|
  {
    if steps != [] {
      StepsEmitObjects(e, w, steps[1..]);
      StepsEmitObjects(e, RunStatements(e, w, steps[0].statements).0, steps[1..]);
      StepsEmitObjects(e, RunAlone(e, w, steps[0]).0, steps[1..]);
    }
  }

  lemma WrapsUp(events: seq<Event>, n: nat, last: Event)
    requires OnlyObjects(events) && last.Done?
    ensures OneDoneLast([Started(n)] + events + [last])
  {
    var all := [Started(n)] + events + [last];
    forall i | 0 <= i < |all| - 1 ensures !all[i].Done? {
      assert i > 0 ==> all[i] == events[i - 1] && events[i - 1] in events;
    }
  }

  lemma ExactlyOneDone(e: Engine, dialect: string, schema: bool, w: World, steps: seq<Step>)
    ensures OneDoneLast(Atomic(e, dialect, schema, w, steps).1)
    ensures OneDoneLast(ContinueOnError(e, schema, w, steps).1)
  {
    var w2 := if schema then SetSchema(e, Begin(e, w).0).0 else Begin(e, w).0;
    var x := if schema then SetSchema(e, w).0 else w;
    StepsEmitObjects(e, w2, steps);
    StepsEmitObjects(e, x, steps);
    forall last: Event | last.Done?
      ensures OneDoneLast([Started(|steps|)] + RunSteps(e, w2, steps).1 + [last])
      ensures OneDoneLast([Started(|steps|)] + RunEach(e, x, steps).1 + [last])
    {
      WrapsUp(RunSteps(e, w2, steps).1, |steps|, last);
      WrapsUp(RunEach(e, x, steps).1, |steps|, last);
    }
  }

  // ---- what statements do to the transaction ----

  predicate AllUndoable(e: Engine, stmts: seq<string>) {
    forall sql :: sql in stmts && e.executable(sql) ==> e.undoable(sql)
  }

  predicate PlanUndoable(e: Engine, steps: seq<Step>) {
    forall s :: s in steps && !s.skipped ==> AllUndoable(e, s.statements)
  }

  /** Statements that all ran have done what they mean; those a rollback undoes are not visible yet. */
  lemma {:induction false} StatementsMean(e: Engine, w: World, stmts: seq<string>)
    ensures var (u, ok) := RunStatements(e, w, stmts);
      && (w.tx.None? ==> u.tx.None?)
      && (w.tx.Some? && AllUndoable(e, stmts) ==> u.tx.Some? && u.committed == w.committed)
      && (ok ==> Apply(e, stmts, Visible(w)) == Some(Visible(u)))
    decreases |stmts|
  {
    if stmts != [] {
      assert stmts == [stmts[0]] + stmts[1..];
      if e.executable(stmts[0]) {
        StatementsMean(e, Query(e, w, stmts[0]).0, stmts[1..]);
      } else {
        StatementsMean(e, w, stmts[1..]);
      }
    }
  }

  lemma {:induction false} StepsMean(e: Engine, w: World, steps: seq<Step>)
    ensures var (u, events, ok) := RunSteps(e, w, steps);
      && (w.tx.None? ==> u.tx.None?)
      && (w.tx.Some? && PlanUndoable(e, steps) ==> u.tx.Some? && u.committed == w.committed)
      && (ok ==> ApplyAll(e, steps, Visible(w)) == Some(Visible(u)))
    decreases |steps|
  {
    if steps != [] {
      assert steps == [steps[0]] + steps[1..];
      if steps[0].skipped {
        StepsMean(e, w, steps[1..]);
      } else {
        StatementsMean(e, w, steps[0].statements);
        StepsMean(e, RunStatements(e, w, steps[0].statements).0, steps[1..]);
      }
    }
  }
}
