/**
 * The server's own schema upgrades (packages/server/src/database/schema.ts): run
 * again after a stop at any statement, they end with the schema of one clean run.
 */
module SchemaUpgrade {
  import opened Wrappers
  import opened Sequences

  /** What a statement does to tables, columns and indexes; `ChangeRows` stands for UPDATE and DELETE. */
  datatype Statement =
    | CreateTable(table: string, columns: set<string>)
    | AddColumn(table: string, column: string)
    | CreateIndex(index: string)
    | DropIndex(index: string)
    | ChangeRows

  datatype Migration = Migration(id: nat, statements: seq<Statement>)

  datatype Schema = Schema(tables: map<string, set<string>>, indexes: set<string>)

  /** The schema and the ids recorded in schema_migrations, in the order they were recorded. */
  datatype Store = Store(schema: Schema, applied: seq<nat>)

  datatype StoreError = MissingTable | DuplicateColumn | IndexExists | MissingIndex

  /** Tables are created only if they do not exist; columns and indexes fail if they do. */
  function Exec(s: Schema, stmt: Statement): Result<Schema, StoreError> {
    match stmt
    case CreateTable(t, columns) => Ok(if t in s.tables then s else s.(tables := s.tables[t := columns]))
    case AddColumn(t, c) =>
      if t !in s.tables then Err(MissingTable)
      else if c in s.tables[t] then Err(DuplicateColumn)
      else Ok(s.(tables := s.tables[t := s.tables[t] + {c}]))
    case CreateIndex(i) => if i in s.indexes then Err(IndexExists) else Ok(s.(indexes := s.indexes + {i}))
    case DropIndex(i) => if i in s.indexes then Ok(s.(indexes := s.indexes - {i})) else Err(MissingIndex)
    case ChangeRows => Ok(s)
  }

  /** The errors a run goes on after. */
  predicate Tolerated(stmt: Statement, e: StoreError) {
    || stmt.CreateIndex?
    || (stmt.AddColumn? && e == DuplicateColumn)
    || stmt.DropIndex?
  }

  predicate Throws(s: Schema, stmt: Statement) {
    match Exec(s, stmt)
    case Ok(_) => false
    case Err(e) => !Tolerated(stmt, e)
  }

  function Effect(s: Schema, stmt: Statement): Schema {
    match Exec(s, stmt)
    case Ok(t) => t
    case Err(_) => s
  }

  function EffectAll(s: Schema, stmts: seq<Statement>): Schema
    decreases |stmts|
  {
    if |stmts| == 0 then s else EffectAll(Effect(s, stmts[0]), stmts[1..])
  }

  /** No statement throws when all are run in order. */
  predicate Clean(s: Schema, stmts: seq<Statement>)
    decreases |stmts|
  {
    |stmts| == 0 || (!Throws(s, stmts[0]) && Clean(Effect(s, stmts[0]), stmts[1..]))
  }

  // ---- A run that may stop anywhere ----

  /** A run stops when its steps are used up, or at a statement that throws. */
  datatype Progress = Progress(store: Store, steps: nat, stopped: bool)

  function RunStatements(p: Progress, stmts: seq<Statement>): Progress
    decreases |stmts|
  {
    if p.stopped || |stmts| == 0 then p
    else if p.steps == 0 || Throws(p.store.schema, stmts[0]) then p.(stopped := true)
    else
      RunStatements(p.(store := p.store.(schema := Effect(p.store.schema, stmts[0])), steps := p.steps - 1), stmts[1..])
  }

  function Record(p: Progress, id: nat): Progress {
    if p.stopped then p
    else if p.steps == 0 then p.(stopped := true)
    else p.(store := p.store.(applied := p.store.applied + [id]), steps := p.steps - 1)
  }

  /** `known` is what was recorded when the run started. */
  function RunAll(p: Progress, known: seq<nat>, migrations: seq<Migration>): Progress
    decreases |migrations|
  {
    if |migrations| == 0 then p
    else
      var m := migrations[0];
      RunAll(if m.id in known then p else Record(RunStatements(p, m.statements), m.id), known, migrations[1..])
  }

  function Run(store: Store, migrations: seq<Migration>, steps: nat): Progress {
    RunAll(Progress(store, steps, false), store.applied, migrations)
  }

  /** Runs one after another, each with its own number of steps. */
  function Runs(store: Store, migrations: seq<Migration>, steps: seq<nat>): Store
    decreases |steps|
  {
    if |steps| == 0 then store else Runs(Run(store, migrations, steps[0]).store, migrations, steps[1..])
  }

  class MetadataStore {
    var schema: Schema
    var applied: seq<nat>

    ghost function State(): Store
      reads this
    {
      Store(schema, applied)
    }

    method RunMigrations(migrations: seq<Migration>, budget: nat) returns (completed: bool)
      modifies this
      ensures var p := Run(old(State()), migrations, budget);
              State() == p.store && completed == !p.stopped
    {
      var known := applied;
      var steps := budget;
      ghost var goal := Run(State(), migrations, budget);
      assert migrations[0..] == migrations;
      for n := 0 to |migrations|
        invariant RunAll(Progress(State(), steps, false), known, migrations[n..]) == goal
      {
        var m := migrations[n];
        assert migrations[n..][1..] == migrations[n + 1..];
        if m.id in known { continue; }
        ghost var before := Progress(State(), steps, false);
        assert m.statements[0..] == m.statements;
        for k := 0 to |m.statements|
          invariant RunStatements(Progress(State(), steps, false), m.statements[k..])
                 == RunStatements(before, m.statements)
          invariant applied == before.store.applied
        {
          var stmt := m.statements[k];
          assert m.statements[k..][1..] == m.statements[k + 1..];
          if steps == 0 {
            StoppedStays(RunStatements(before, m.statements), known, migrations[n + 1..], m.id);
            return false;
          }
          match Exec(schema, stmt) {
            case Ok(s) => schema := s;
            case Err(e) =>
              if !Tolerated(stmt, e) {
                StoppedStays(RunStatements(before, m.statements), known, migrations[n + 1..], m.id);
                return false;
              }
          }
          steps := steps - 1;
        }
        if steps == 0 {
          StoppedStays(Record(RunStatements(before, m.statements), m.id), known, migrations[n + 1..], m.id);
          return false;
        }
        applied := applied + [m.id];
        steps := steps - 1;
      }
      completed := true;
    }
  }

  lemma {:induction false} StoppedStays(p: Progress, known: seq<nat>, migrations: seq<Migration>, id: nat)
    requires p.stopped
    ensures Record(p, id) == p && RunAll(p, known, migrations) == p
    decreases |migrations|
  {
    if |migrations| > 0 {
      StoppedStays(p, known, migrations[1..], migrations[0].id);
    }
  }

  // ---- What a stopped run leaves, a later run puts right ----

  function FirstCreate(stmts: seq<Statement>, t: string): Option<set<string>>
    decreases |stmts|
  {
    if |stmts| == 0 then None
    else if stmts[0].CreateTable? && stmts[0].table == t then Some(stmts[0].columns)
    else FirstCreate(stmts[1..], t)
  }

  /** The columns table `t` has, or is created with. */
  function Initially(s: Schema, rest: seq<Statement>, t: string): Option<set<string>> {
    if t in s.tables then Some(s.tables[t]) else FirstCreate(rest, t)
  }

  predicate Touches(rest: seq<Statement>, i: string) {
    CreateIndex(i) in rest || DropIndex(i) in rest
  }

  /** `u` differs from `s` only in what the statements of `rest` will settle. */
  ghost predicate Heals(s: Schema, u: Schema, rest: seq<Statement>) {
    && (forall i :: (i in s.indexes) != (i in u.indexes) ==> Touches(rest, i))
    && (forall t :: t in s.tables ==> t in u.tables)
    && (forall t :: t in u.tables ==>
          && Initially(s, rest, t).Some?
          && Initially(s, rest, t).value <= u.tables[t]
          && forall c :: c in u.tables[t] && c !in Initially(s, rest, t).value ==> AddColumn(t, c) in rest)
  }

  lemma HealsSelf(s: Schema, rest: seq<Statement>)
    ensures Heals(s, s, rest)
  {
  }

  lemma HealedAll(s: Schema, u: Schema)
    requires Heals(s, u, [])
    ensures s == u
  {
    assert s.indexes == u.indexes;
    forall t
      ensures t in s.tables <==> t in u.tables
      ensures t in s.tables ==> s.tables[t] == u.tables[t]
    {
    }
    assert s.tables == u.tables;
  }

  /** Run next to each other, a clean schema and one that differs come closer at every statement. */
  lemma HealsStep(s: Schema, u: Schema, stmts: seq<Statement>)
    requires |stmts| > 0 && Heals(s, u, stmts) && !Throws(s, stmts[0])
    ensures !Throws(u, stmts[0])
    ensures Heals(Effect(s, stmts[0]), Effect(u, stmts[0]), stmts[1..])
  {
    var stmt, rest := stmts[0], stmts[1..];
    assert stmts == [stmt] + rest;
    var s', u' := Effect(s, stmt), Effect(u, stmt);
    forall t | t in u'.tables
      ensures Initially(s', rest, t).Some?
      ensures Initially(s', rest, t).value <= u'.tables[t]
      ensures forall c :: c in u'.tables[t] && c !in Initially(s', rest, t).value ==> AddColumn(t, c) in rest
    {
    }
  }

  lemma {:induction false} HealsRun(s: Schema, u: Schema, stmts: seq<Statement>)
    requires Heals(s, u, stmts) && Clean(s, stmts)
    ensures Clean(u, stmts) && EffectAll(u, stmts) == EffectAll(s, stmts)
    decreases |stmts|
  {
    if |stmts| == 0 {
      HealedAll(s, u);
    } else {
      hide Heals, Effect, Throws;
      HealsStep(s, u, stmts);
      HealsRun(Effect(s, stmts[0]), Effect(u, stmts[0]), stmts[1..]);
    }
  }

  /** The statement at `k` is run after all before it, so a table it creates is created by none of them. */
  lemma PartStep(s: Schema, u: Schema, stmts: seq<Statement>, k: nat)
    requires k < |stmts| && Heals(s, u, stmts)
    requires forall i :: 0 <= i < k && stmts[i].CreateTable? ==> stmts[i].table in u.tables
    ensures Heals(s, Effect(u, stmts[k]), stmts)
    ensures forall i :: 0 <= i <= k && stmts[i].CreateTable? ==> stmts[i].table in Effect(u, stmts[k]).tables
  {
    var stmt := stmts[k];
    if stmt.CreateTable? && stmt.table !in u.tables {
      FirstAt(stmts, k);
    }
  }

  lemma {:induction false} FirstAt(stmts: seq<Statement>, k: nat)
    requires k < |stmts| && stmts[k].CreateTable?
    requires forall i :: 0 <= i < k && stmts[i].CreateTable? ==> stmts[i].table != stmts[k].table
    ensures FirstCreate(stmts, stmts[k].table) == Some(stmts[k].columns)
    decreases |stmts|
  {
    if k > 0 {
      assert forall i :: 0 <= i < |stmts| - 1 ==> stmts[1..][i] == stmts[i + 1];
      FirstAt(stmts[1..], k - 1);
    }
  }

  /** However far a run gets, what it leaves can still be put right. */
  lemma {:induction false} PartHeals(s: Schema, p: Progress, stmts: seq<Statement>, k: nat)
    requires k <= |stmts| && Heals(s, p.store.schema, stmts)
    requires forall i :: 0 <= i < k && stmts[i].CreateTable? ==> stmts[i].table in p.store.schema.tables
    ensures Heals(s, RunStatements(p, stmts[k..]).store.schema, stmts)
    decreases |stmts| - k
  {
    if !p.stopped && k < |stmts| && p.steps > 0 && !Throws(p.store.schema, stmts[k]) {
      hide Heals, Effect, Throws;
      var u := p.store.schema;
      PartStep(s, u, stmts, k);
      var q := p.(store := p.store.(schema := Effect(u, stmts[k])), steps := p.steps - 1);
      PartHeals(s, q, stmts, k + 1);
      assert stmts[k..][1..] == stmts[k + 1..];
    }
  }

  // ---- Runs after runs ----

  function Pending(migrations: seq<Migration>, known: seq<nat>): seq<Migration>
    decreases |migrations|
  {
    if |migrations| == 0 then []
    else (if migrations[0].id in known then [] else [migrations[0]]) + Pending(migrations[1..], known)
  }

  function Ids(migrations: seq<Migration>): (ids: seq<nat>)
    ensures |ids| == |migrations|
  {
    seq(|migrations|, i requires 0 <= i < |migrations| => migrations[i].id)
  }

  predicate DistinctIds(migrations: seq<Migration>) {
    forall i, j :: 0 <= i < j < |migrations| ==> migrations[i].id != migrations[j].id
  }

  /** The schema after all the migrations, each run once from start to end. */
  function Upgraded(s: Schema, migrations: seq<Migration>): Schema
    decreases |migrations|
  {
    if |migrations| == 0 then s else Upgraded(EffectAll(s, migrations[0].statements), migrations[1..])
  }

  /** One uninterrupted upgrade throws nowhere. */
  predicate CleanUpgrade(s: Schema, migrations: seq<Migration>)
    decreases |migrations|
  {
    |migrations| == 0
    || (Clean(s, migrations[0].statements) && CleanUpgrade(EffectAll(s, migrations[0].statements), migrations[1..]))
  }

  function Cost(migrations: seq<Migration>): nat
    decreases |migrations|
  {
    if |migrations| == 0 then 0 else |migrations[0].statements| + 1 + Cost(migrations[1..])
  }

  lemma {:induction false} PendingRuns(p: Progress, known: seq<nat>, migrations: seq<Migration>)
    ensures RunAll(p, known, migrations) == RunAll(p, [], Pending(migrations, known))
    decreases |migrations|
  {
    if |migrations| > 0 {
      hide RunStatements, Record;
      var m := migrations[0];
      var q := if m.id in known then p else Record(RunStatements(p, m.statements), m.id);
      PendingRuns(q, known, migrations[1..]);
      if m.id in known {
        assert Pending(migrations, known) == Pending(migrations[1..], known);
      } else {
        assert Pending(migrations, known)[1..] == Pending(migrations[1..], known);
      }
    }
  }

  lemma {:induction false} StatementsDone(p: Progress, stmts: seq<Statement>)
    ensures var q := RunStatements(p, stmts);
            && q.store.applied == p.store.applied
            && (!q.stopped ==> q.store.schema == EffectAll(p.store.schema, stmts) && q.steps == p.steps - |stmts|)
            && (!p.stopped && Clean(p.store.schema, stmts) && |stmts| <= p.steps ==> !q.stopped)
    decreases |stmts|
  {
    if !p.stopped && |stmts| > 0 && p.steps > 0 && !Throws(p.store.schema, stmts[0]) {
      hide Effect, Throws;
      StatementsDone(p.(store := p.store.(schema := Effect(p.store.schema, stmts[0])), steps := p.steps - 1),
                     stmts[1..]);
    }
  }

  function Next(todo: seq<Migration>): seq<Statement> {
    if |todo| == 0 then [] else todo[0].statements
  }

  /** A store part of the way: the first `n` migrations recorded, and the next one begun any number of times. */
  ghost predicate PartWay(from: Store, todo: seq<Migration>, n: nat, st: Store) {
    && n <= |todo|
    && st.applied == from.applied + Ids(todo[..n])
    && Heals(Upgraded(from.schema, todo[..n]), st.schema, Next(todo[n..]))
  }

  /** A run of what is pending ends part of the way, and at the end if it is not stopped. */
  lemma {:induction false} RunGetsSomewhere(s: Schema, p: Progress, todo: seq<Migration>) returns (n: nat)
    requires Heals(s, p.store.schema, Next(todo)) && CleanUpgrade(s, todo) && !p.stopped
    ensures var q := RunAll(p, [], todo);
            && PartWay(Store(s, p.store.applied), todo, n, q.store)
            && (!q.stopped ==> n == |todo|)
            && (Cost(todo) <= p.steps ==> !q.stopped)
    decreases |todo|
  {
    if |todo| == 0 {
      n := 0;
      AtStart(s, todo, p.store);
    } else {
      hide Heals, Clean, EffectAll, RunStatements, Upgraded, PartWay;
      var m, rest := todo[0], todo[1..];
      var q := RunStatements(p, m.statements);
      PartHeals(s, p, m.statements, 0);
      assert m.statements[0..] == m.statements;
      StatementsDone(p, m.statements);
      HealsRun(s, p.store.schema, m.statements);
      var r := Record(q, m.id);
      if r.stopped {
        n := 0;
        StoppedStays(r, [], rest, m.id);
        AtStart(s, todo, r.store);
      } else {
        HealsSelf(q.store.schema, Next(rest));
        var k := RunGetsSomewhere(q.store.schema, r, rest);
        n := k + 1;
        AfterFirst(s, p.store.applied, todo, k, RunAll(r, [], rest).store);
      }
    }
  }

  lemma AtStart(s: Schema, todo: seq<Migration>, st: Store)
    requires Heals(s, st.schema, Next(todo))
    ensures PartWay(Store(s, st.applied), todo, 0, st)
  {
    assert todo[0..] == todo && todo[..0] == [] && Ids([]) == [] && st.applied + [] == st.applied;
  }

  lemma AfterFirst(s: Schema, applied: seq<nat>, todo: seq<Migration>, k: nat, q: Store)
    requires |todo| > 0
    requires PartWay(Store(EffectAll(s, todo[0].statements), applied + [todo[0].id]), todo[1..], k, q)
    ensures PartWay(Store(s, applied), todo, k + 1, q)
  {
    hide Heals, EffectAll, Ids;
    FirstOnes(todo, k + 1);
    Associative(applied, [todo[0].id], Ids(todo[1..][..k]));
  }

  lemma FirstOnes(todo: seq<Migration>, n: nat)
    requires 0 < n <= |todo|
    ensures todo[..n] == [todo[0]] + todo[1..][..n - 1]
    ensures Ids(todo[..n]) == [todo[0].id] + Ids(todo[1..][..n - 1])
    ensures todo[n..] == todo[1..][n - 1..]
    ensures forall s :: Upgraded(s, todo[..n]) == Upgraded(EffectAll(s, todo[0].statements), todo[1..][..n - 1])
  {
    assert todo[..n][1..] == todo[1..][..n - 1];
  }

  lemma {:induction false} UpgradedInParts(s: Schema, a: seq<Migration>, b: seq<Migration>)
    ensures Upgraded(s, a + b) == Upgraded(Upgraded(s, a), b)
    ensures CleanUpgrade(s, a + b) ==> CleanUpgrade(Upgraded(s, a), b)
    decreases |a|
  {
    if |a| == 0 {
      assert a + b == b;
    } else {
      hide EffectAll, Clean;
      assert (a + b)[0] == a[0] && (a + b)[1..] == a[1..] + b;
      UpgradedInParts(EffectAll(s, a[0].statements), a[1..], b);
    }
  }

  /** What is pending part of the way is the rest of what was pending. */
  lemma {:induction false} PendingAfter(migrations: seq<Migration>, known: seq<nat>, n: nat)
    requires DistinctIds(migrations) && n <= |Pending(migrations, known)|
    ensures var todo := Pending(migrations, known);
            Pending(migrations, known + Ids(todo[..n])) == todo[n..]
    decreases |migrations|
  {
    hide Upgraded, EffectAll;
    var todo := Pending(migrations, known);
    if n == 0 {
      assert known + Ids(todo[..0]) == known;
    } else if migrations[0].id in known {
      hide Ids;
      assert todo == Pending(migrations[1..], known);
      PendingAfter(migrations[1..], known, n);
      PendingHead(migrations, known + Ids(todo[..n]));
    } else {
      hide Ids;
      var m, rest := migrations[0], migrations[1..];
      var later := Ids(todo[1..][..n - 1]);
      assert todo[1..] == Pending(rest, known);
      FirstOnes(todo, n);
      PendingAfter(rest, known, n - 1);
      SameIfUnmentioned(rest, known + later, known + ([m.id] + later), m.id);
      assert m.id in [m.id] + later;
      PendingHead(migrations, known + ([m.id] + later));
    }
  }

  lemma PendingHead(migrations: seq<Migration>, known: seq<nat>)
    requires |migrations| > 0 && migrations[0].id in known
    ensures Pending(migrations, known) == Pending(migrations[1..], known)
  {
  }

  lemma {:induction false} SameIfUnmentioned(migrations: seq<Migration>, a: seq<nat>, b: seq<nat>, id: nat)
    requires forall i :: 0 <= i < |migrations| ==> migrations[i].id != id
    requires forall x :: x != id ==> (x in a <==> x in b)
    ensures Pending(migrations, a) == Pending(migrations, b)
    decreases |migrations|
  {
    if |migrations| > 0 {
      SameIfUnmentioned(migrations[1..], a, b, id);
    }
  }

  /** From part of the way, a run gets at least as far, and to the end if it is not stopped. */
  lemma RunFromPartWay(from: Store, migrations: seq<Migration>, n: nat, st: Store, steps: nat) returns (k: nat)
    requires DistinctIds(migrations) && CleanUpgrade(from.schema, Pending(migrations, from.applied))
    requires PartWay(from, Pending(migrations, from.applied), n, st)
    ensures var todo, p := Pending(migrations, from.applied), Run(st, migrations, steps);
            && PartWay(from, todo, k, p.store) && n <= k
            && (!p.stopped ==> k == |todo|)
            && (Cost(todo[n..]) <= steps ==> !p.stopped)
  {
    hide Heals, Clean, EffectAll, RunAll, CleanUpgrade, Upgraded, Pending, Cost, Ids;
    var todo := Pending(migrations, from.applied);
    PendingAfter(migrations, from.applied, n);
    PendingRuns(Progress(st, steps, false), st.applied, migrations);
    assert todo == todo[..n] + todo[n..];
    UpgradedInParts(from.schema, todo[..n], todo[n..]);
    var j := RunGetsSomewhere(Upgraded(from.schema, todo[..n]), Progress(st, steps, false), todo[n..]);
    k := n + j;
    PartWayOn(from, todo, n, st, j, Run(st, migrations, steps).store);
  }

  lemma PartWayOn(from: Store, todo: seq<Migration>, n: nat, st: Store, j: nat, q: Store)
    requires PartWay(from, todo, n, st)
    requires PartWay(Store(Upgraded(from.schema, todo[..n]), st.applied), todo[n..], j, q)
    ensures PartWay(from, todo, n + j, q)
  {
    hide Heals, EffectAll, Upgraded, Ids;
    var a, b := todo[..n], todo[n..][..j];
    assert todo[..n + j] == a + b;
    assert todo[n + j..] == todo[n..][j..];
    UpgradedInParts(from.schema, a, b);
    IdsJoin(a, b);
    Associative(from.applied, Ids(a), Ids(b));
  }

  lemma IdsJoin(a: seq<Migration>, b: seq<Migration>)
    ensures Ids(a + b) == Ids(a) + Ids(b)
  {
  }

  lemma {:induction false} RunsFromPartWay(from: Store, migrations: seq<Migration>, n: nat, st: Store, steps: seq<nat>)
    returns (k: nat)
    requires DistinctIds(migrations) && CleanUpgrade(from.schema, Pending(migrations, from.applied))
    requires PartWay(from, Pending(migrations, from.applied), n, st)
    ensures PartWay(from, Pending(migrations, from.applied), k, Runs(st, migrations, steps))
    decreases |steps|
  {
    if |steps| == 0 {
      k := n;
    } else {
      hide PartWay, Run, CleanUpgrade, DistinctIds;
      var j := RunFromPartWay(from, migrations, n, st, steps[0]);
      k := RunsFromPartWay(from, migrations, j, Run(st, migrations, steps[0]).store, steps[1..]);
    }
  }

  /**
   * After any number of runs stopped anywhere, a run that completes leaves the schema
   * of one clean upgrade and each migration recorded once, in list order.
   */
  lemma InterruptedUpgradesConverge(from: Store, migrations: seq<Migration>, steps: seq<nat>, last: nat)
    requires DistinctIds(migrations) && CleanUpgrade(from.schema, Pending(migrations, from.applied))
    ensures var todo := Pending(migrations, from.applied);
            var p := Run(Runs(from, migrations, steps), migrations, last);
            !p.stopped ==> p.store == Store(Upgraded(from.schema, todo), from.applied + Ids(todo))
  {
    hide Run, Runs, CleanUpgrade;
    var todo := Pending(migrations, from.applied);
    Untouched(from, todo);
    var n := RunsFromPartWay(from, migrations, 0, from, steps);
    var k := RunFromPartWay(from, migrations, n, Runs(from, migrations, steps), last);
    if k == |todo| {
      assert todo[..k] == todo && todo[k..] == [];
      HealedAll(Upgraded(from.schema, todo), Run(Runs(from, migrations, steps), migrations, last).store.schema);
    }
  }

  // ---- When one clean upgrade exists ----

  /** Every statement of the list, in order. */
  function Flattened(migrations: seq<Migration>): seq<Statement>
    decreases |migrations|
  {
    if |migrations| == 0 then [] else migrations[0].statements + Flattened(migrations[1..])
  }

  predicate Creates(stmts: seq<Statement>, before: nat, t: string) {
    exists j :: 0 <= j < before && j < |stmts| && stmts[j].CreateTable? && stmts[j].table == t
  }

  /** Every added column names a table that exists or that an earlier statement creates. */
  predicate TablesFirst(s: Schema, stmts: seq<Statement>) {
    forall k :: 0 <= k < |stmts| && stmts[k].AddColumn? ==>
      stmts[k].table in s.tables || Creates(stmts, k, stmts[k].table)
  }

  lemma TablesFirstStep(s: Schema, stmts: seq<Statement>)
    requires |stmts| > 0 && !Throws(s, stmts[0])
    ensures TablesFirst(s, stmts) <==> TablesFirst(Effect(s, stmts[0]), stmts[1..])
  {
    var s', rest := Effect(s, stmts[0]), stmts[1..];
    forall k | 0 <= k < |rest|
      ensures rest[k] == stmts[k + 1]
      ensures forall t :: t in s'.tables || Creates(rest, k, t) <==> t in s.tables || Creates(stmts, k + 1, t)
    {
      forall t
        ensures t in s'.tables || Creates(rest, k, t) <==> t in s.tables || Creates(stmts, k + 1, t)
      {
        if j :| 0 <= j < k && rest[j].CreateTable? && rest[j].table == t {
          assert stmts[j + 1] == rest[j];
        }
        if j :| 0 <= j < k + 1 && stmts[j].CreateTable? && stmts[j].table == t {
          assert j > 0 ==> rest[j - 1] == stmts[j];
        }
      }
    }
    assert TablesFirst(s', rest) ==> TablesFirst(s, stmts) by {
      forall k | 0 < k < |stmts| && stmts[k].AddColumn? && TablesFirst(s', rest)
        ensures stmts[k].table in s.tables || Creates(stmts, k, stmts[k].table)
      {
        assert rest[k - 1] == stmts[k];
      }
    }
  }

  lemma {:induction false} CleanIff(s: Schema, stmts: seq<Statement>)
    ensures Clean(s, stmts) <==> TablesFirst(s, stmts)
    decreases |stmts|
  {
    if |stmts| > 0 {
      if Throws(s, stmts[0]) {
        assert !Creates(stmts, 0, stmts[0].table);
      } else {
        hide TablesFirst, Effect, Throws;
        TablesFirstStep(s, stmts);
        CleanIff(Effect(s, stmts[0]), stmts[1..]);
      }
    }
  }

  lemma {:induction false} CleanInParts(s: Schema, a: seq<Statement>, b: seq<Statement>)
    ensures Clean(s, a + b) <==> Clean(s, a) && Clean(EffectAll(s, a), b)
    decreases |a|
  {
    if |a| == 0 {
      assert a + b == b;
    } else {
      hide Effect, Throws;
      assert (a + b)[0] == a[0] && (a + b)[1..] == a[1..] + b;
      CleanInParts(Effect(s, a[0]), a[1..], b);
    }
  }

  /** An upgrade can be run clean exactly when no column is added to a table that is not there yet. */
  lemma {:induction false} CleanUpgradeIff(s: Schema, migrations: seq<Migration>)
    ensures CleanUpgrade(s, migrations) <==> TablesFirst(s, Flattened(migrations))
    decreases |migrations|
  {
    if |migrations| > 0 {
      hide TablesFirst, Clean, EffectAll;
      var first, rest := migrations[0].statements, Flattened(migrations[1..]);
      CleanUpgradeIff(EffectAll(s, first), migrations[1..]);
      CleanIff(EffectAll(s, first), rest);
      CleanInParts(s, first, rest);
      CleanIff(s, first + rest);
    }
  }

  lemma Untouched(from: Store, todo: seq<Migration>)
    ensures PartWay(from, todo, 0, from)
  {
    assert todo[..0] == [] && Ids([]) == [] && from.applied + [] == from.applied;
    HealsSelf(from.schema, Next(todo[0..]));
  }

  lemma {:induction false} CostShrinks(todo: seq<Migration>, n: nat)
    requires n <= |todo|
    ensures Cost(todo[n..]) <= Cost(todo)
    decreases n
  {
    if n > 0 {
      CostShrinks(todo[1..], n - 1);
      assert todo[n..] == todo[1..][n - 1..];
    } else {
      assert todo[0..] == todo;
    }
  }

  /** No interruption keeps a later run from completing. */
  lemma LaterRunCompletes(from: Store, migrations: seq<Migration>, steps: seq<nat>, last: nat)
    requires DistinctIds(migrations) && CleanUpgrade(from.schema, Pending(migrations, from.applied))
    ensures Cost(Pending(migrations, from.applied)) <= last ==>
              !Run(Runs(from, migrations, steps), migrations, last).stopped
  {
    hide Run, Runs, CleanUpgrade;
    var todo := Pending(migrations, from.applied);
    Untouched(from, todo);
    var n := RunsFromPartWay(from, migrations, 0, from, steps);
    CostShrinks(todo, n);
    var k := RunFromPartWay(from, migrations, n, Runs(from, migrations, steps), last);
  }
}
