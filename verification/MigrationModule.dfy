/** The migration runner as the loops it is, driving one connection and emitting events. */
module MigrationModule {
  import opened Wrappers
  import opened Sequences
  import opened Migration

  /** A dedicated connection to the target. */
  class Connection {
    const engine: Engine
    var committed: Db
    var tx: Option<Db>
    var clock: nat

    ghost function Now(): World
      reads this
    {
      World(committed, tx, clock)
    }

    constructor (engine: Engine, db: Db)
      ensures this.engine == engine && Now() == World(db, None, 0)
    {
      this.engine, committed, tx, clock := engine, db, None, 0;
    }

    method Move(w: World)
      modifies this
      ensures Now() == w
    {
      committed, tx, clock := w.committed, w.tx, w.clock;
    }

    method BeginTransaction() returns (ok: bool)
      modifies this
      ensures (Now(), ok) == Begin(engine, old(Now()))
    {
      var r := Begin(engine, World(committed, tx, clock));
      Move(r.0);
      ok := r.1;
    }

    method SetCurrentSchema() returns (ok: bool)
      modifies this
      ensures (Now(), ok) == SetSchema(engine, old(Now()))
    {
      var r := SetSchema(engine, World(committed, tx, clock));
      Move(r.0);
      ok := r.1;
    }

    method Send(sql: string) returns (ok: bool)
      modifies this
      ensures (Now(), ok) == Query(engine, old(Now()), sql)
    {
      var r := Query(engine, World(committed, tx, clock), sql);
      Move(r.0);
      ok := r.1;
    }

    method CommitTransaction() returns (ok: bool)
      modifies this
      ensures (Now(), ok) == Commit(engine, old(Now()))
    {
      var r := Commit(engine, World(committed, tx, clock));
      Move(r.0);
      ok := r.1;
    }

    method RollbackTransaction() returns (ok: bool)
      modifies this
      ensures (Now(), ok) == Rollback(engine, old(Now()))
    {
      var r := Rollback(engine, World(committed, tx, clock));
      Move(r.0);
      ok := r.1;
    }
  }

  /** `for (const raw of step.statements) await this.runStatement(...)`. */
  method RunAll(conn: Connection, stmts: seq<string>) returns (ok: bool)
    modifies conn
    ensures (conn.Now(), ok) == RunStatements(conn.engine, old(conn.Now()), stmts)
  {
    var i := 0;
    while i < |stmts|
      invariant 0 <= i <= |stmts|
      invariant RunStatements(conn.engine, conn.Now(), stmts[i..]) == RunStatements(conn.engine, old(conn.Now()), stmts)
    {
      assert stmts[i..][0] == stmts[i] && stmts[i..][1..] == stmts[i + 1..];
      if conn.engine.executable(stmts[i]) {
        ok := conn.Send(stmts[i]);
        if !ok { return; }
      }
      i := i + 1;
    }
    ok := true;
  }

  /** The step loop of `executeAtomic`. */
  method RunUntilFailure(conn: Connection, steps: seq<Step>) returns (events: seq<Event>, ok: bool)
    modifies conn
    ensures (conn.Now(), events, ok) == RunSteps(conn.engine, old(conn.Now()), steps)
  {
    events := [];
    var i := 0;
    ghost var all := RunSteps(conn.engine, conn.Now(), steps);
    assert steps[0..] == steps;
    Associative(all.1, [], []);
    while i < |steps|
      invariant 0 <= i <= |steps|
      invariant var rest := RunSteps(conn.engine, conn.Now(), steps[i..]);
        all == (rest.0, events + rest.1, rest.2)
    {
      var s := steps[i];
      ghost var rest := RunSteps(conn.engine, conn.Now(), steps[i..]);
      assert steps[i..][0] == s && steps[i..][1..] == steps[i + 1..];
      if s.skipped {
        Associative(events, [Object(s.name, Skipped)], RunSteps(conn.engine, conn.Now(), steps[i + 1..]).1);
        events := events + [Object(s.name, Skipped)];
      } else {
        var ran := RunAll(conn, s.statements);
        if !ran {
          return events + [Object(s.name, Running), Object(s.name, Failed)], false;
        }
        Associative(events, [Object(s.name, Running), Object(s.name, Success)],
                RunSteps(conn.engine, conn.Now(), steps[i + 1..]).1);
        events := events + [Object(s.name, Running), Object(s.name, Success)];
      }
      i := i + 1;
    }
    Associative(events, [], []);
    ok := true;
  }

  method ExecuteAtomic(conn: Connection, dialect: string, schema: bool, steps: seq<Step>) returns (events: seq<Event>)
    modifies conn
    ensures (conn.Now(), events) == Atomic(conn.engine, dialect, schema, old(conn.Now()), steps)
  {
    var ok := conn.BeginTransaction();
    if ok && schema { ok := conn.SetCurrentSchema(); }
    if !ok { return [Done(false, false)]; }
    var emitted;
    emitted, ok := RunUntilFailure(conn, steps);
    events := [Started(|steps|)] + emitted;
    if ok {
      ok := conn.CommitTransaction();
      if ok { return events + [Done(true, false)]; }
    }
    var undone := conn.RollbackTransaction();
    var rolledBack := if undone then SupportOf(dialect).ddl else false;
    events := events + [Done(false, rolledBack)];
  }

  method ExecuteContinueOnError(conn: Connection, schema: bool, steps: seq<Step>) returns (events: seq<Event>)
    modifies conn
    ensures (conn.Now(), events) == ContinueOnError(conn.engine, schema, old(conn.Now()), steps)
  {
    if schema {
      var placed := conn.SetCurrentSchema();
      if !placed { return [Done(false, false)]; }
    }
    ghost var all := RunEach(conn.engine, conn.Now(), steps);
    var emitted: seq<Event> := [];
    var i := 0;
    assert steps[0..] == steps;
    Associative(all.1, [], []);
    while i < |steps|
      invariant 0 <= i <= |steps|
      invariant var rest := RunEach(conn.engine, conn.Now(), steps[i..]);
        all == (rest.0, emitted + rest.1)
    {
      assert steps[i..][0] == steps[i] && steps[i..][1..] == steps[i + 1..];
      var one := RunOne(conn, steps[i]);
      Associative(emitted, one, RunEach(conn.engine, conn.Now(), steps[i + 1..]).1);
      emitted := emitted + one;
      i := i + 1;
    }
    Associative(emitted, [], []);
    events := [Started(|steps|)] + emitted + [Done(true, false)];
  }

  /** One turn of the loop: a step in a transaction of its own. */
  method RunOne(conn: Connection, s: Step) returns (events: seq<Event>)
    modifies conn
    ensures (conn.Now(), events) == RunAlone(conn.engine, old(conn.Now()), s)
  {
    if s.skipped { return [Object(s.name, Skipped)]; }
    var ok := conn.BeginTransaction();
    if ok { ok := RunAll(conn, s.statements); }
    if ok { ok := conn.CommitTransaction(); }
    if ok { return [Object(s.name, Running), Object(s.name, Success)]; }
    var undone := conn.RollbackTransaction();
    events := [Object(s.name, Running), Object(s.name, Failed)];
  }
}
