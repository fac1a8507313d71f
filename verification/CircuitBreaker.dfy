/** The per-target circuit breaker as values: what each synchronous stretch of its
    methods does to the table of circuits. */
module CircuitBreaker {
  import opened Wrappers
  import opened Sequences

  const MAX_CIRCUITS: nat := 5000

  datatype CircuitState = Closed | Open | HalfOpen

  /** `serial` is the identity of the circuit object. `period` counts its half-open periods so far:
      a history the code does not keep. */
  datatype Circuit = Circuit(state: CircuitState, failures: nat, successes: nat, openUntil: int,
                             trialInFlight: bool, serial: nat, period: nat)

  datatype Config = Config(failureThreshold: nat, resetAfterMs: nat, successThreshold: nat)

  /** A `Map`: `order` is insertion order. */
  datatype Table = Table(order: seq<string>, circuits: map<string, Circuit>, nextSerial: nat)

  /** A call let through: the circuit object it was let through by, and whether it holds the trial slot. */
  datatype Ticket = Ticket(key: string, serial: nat, holdingTrial: bool)

  function Fresh(serial: nat): Circuit {
    Circuit(Closed, 0, 0, 0, false, serial, 0)
  }

  predicate Healthy(c: Circuit) {
    c.state.Closed? && c.failures == 0
  }

  // ---- the map ----

  function Delete(t: Table, key: string): Table {
    t.(order := Without(t.order, key), circuits := map k | k in t.circuits && k != key :: t.circuits[k])
  }

  function Put(t: Table, key: string, c: Circuit): Table {
    t.(order := if key in t.circuits then t.order else t.order + [key], circuits := t.circuits[key := c])
  }

  /** The keys left after deleting every healthy circuit. */
  function Unhealthy(order: seq<string>, circuits: map<string, Circuit>): seq<string> {
    if order == [] then []
    else
      (if order[0] in circuits && Healthy(circuits[order[0]]) then [] else [order[0]])
      + Unhealthy(order[1..], circuits)
  }

  function DropHealthy(t: Table): Table {
    t.(order := Unhealthy(t.order, t.circuits),
       circuits := map k | k in t.circuits && !Healthy(t.circuits[k]) :: t.circuits[k])
  }

  /** Room for one more: healthy circuits go first, and if none is, the oldest. */
  function MakeRoom(t: Table): Table {
    if |t.order| < MAX_CIRCUITS then t else
      var u := DropHealthy(t);
      if |u.order| < MAX_CIRCUITS then u else Delete(u, u.order[0])
  }

  /** `circuit(key)`: afterwards the key has a circuit. */
  function Ensure(t: Table, key: string): Table {
    if key in t.circuits then t else
      var u := MakeRoom(t);
      Put(u, key, Fresh(u.nextSerial)).(nextSerial := u.nextSerial + 1)
  }

  // ---- well-formed tables ----

  /** The order lists the keys once each, serials are distinct and below the next one, and the bound holds. */
  ghost predicate WellFormed(t: Table) {
    && Distinct(t.order)
    && (forall k :: k in t.order <==> k in t.circuits)
    && |t.order| <= MAX_CIRCUITS
    && (forall k :: k in t.circuits ==> t.circuits[k].serial < t.nextSerial)
    && (forall k, m :: k in t.circuits && m in t.circuits && k != m ==> t.circuits[k].serial != t.circuits[m].serial)
  }

  lemma {:induction false} UnhealthyMembers(order: seq<string>, circuits: map<string, Circuit>)
    requires Distinct(order)
    ensures forall k :: k in Unhealthy(order, circuits) <==> k in order && !(k in circuits && Healthy(circuits[k]))
    ensures Distinct(Unhealthy(order, circuits)) && |Unhealthy(order, circuits)| <= |order|
  {
    if order != [] {
      UnhealthyMembers(order[1..], circuits);
      assert order == [order[0]] + order[1..];
      assert order[0] !in order[1..];
    }
  }

  lemma DeleteOk(t: Table, key: string)
    requires WellFormed(t)
    ensures WellFormed(Delete(t, key))
    ensures forall k :: k in Delete(t, key).circuits <==> k in t.circuits && k != key
    ensures |Delete(t, key).order| == |t.order| - (if key in t.circuits then 1 else 0)
  {
    WithoutMembers(t.order, key);
  }

  /** Replacing a circuit by one of the same identity. */
  lemma ReplaceOk(t: Table, key: string, c: Circuit)
    requires WellFormed(t) && key in t.circuits && c.serial == t.circuits[key].serial
    ensures WellFormed(Put(t, key, c)) && Put(t, key, c).nextSerial == t.nextSerial
  {
  }

  predicate AnyHealthy(t: Table) {
    exists k :: k in t.circuits && Healthy(t.circuits[k])
  }

  /** What making room takes away: nothing below the bound, else the healthy circuits, else the oldest. */
  predicate Evicted(t: Table, k: string) {
    && k in t.circuits && |t.order| >= MAX_CIRCUITS
    && if AnyHealthy(t) then Healthy(t.circuits[k]) else k == t.order[0]
  }

  lemma UnhealthyShrinks(order: seq<string>, circuits: map<string, Circuit>, k: string)
    requires k in order && k in circuits && Healthy(circuits[k])
    ensures |Unhealthy(order, circuits)| < |order|
  {
    if order[0] != k {
      UnhealthyShrinks(order[1..], circuits, k);
    } else {
      UnhealthyNoLonger(order[1..], circuits);
    }
  }

  lemma UnhealthyNoLonger(order: seq<string>, circuits: map<string, Circuit>)
    ensures |Unhealthy(order, circuits)| <= |order|
    ensures (forall k :: k in order && k in circuits ==> !Healthy(circuits[k])) ==> Unhealthy(order, circuits) == order
  {
    if order != [] {
      UnhealthyNoLonger(order[1..], circuits);
      assert order == [order[0]] + order[1..];
    }
  }

  lemma MakeRoomOk(t: Table)
    requires WellFormed(t)
    ensures WellFormed(MakeRoom(t)) && |MakeRoom(t).order| < MAX_CIRCUITS
    ensures MakeRoom(t).nextSerial == t.nextSerial
    ensures forall k :: k in MakeRoom(t).circuits <==> k in t.circuits && !Evicted(t, k)
    ensures forall k :: k in MakeRoom(t).circuits ==> MakeRoom(t).circuits[k] == t.circuits[k]
  {
    if |t.order| >= MAX_CIRCUITS {
      UnhealthyMembers(t.order, t.circuits);
      UnhealthyNoLonger(t.order, t.circuits);
      var u := DropHealthy(t);
      if AnyHealthy(t) {
        var k :| k in t.circuits && Healthy(t.circuits[k]);
        UnhealthyShrinks(t.order, t.circuits, k);
      } else {
        assert u.order == t.order;
        assert u.order[0] in u.order;
        DeleteOk(u, u.order[0]);
      }
    }
  }

  /** Making sure a key has a circuit changes no other, and loses exactly what has to make room. */
  lemma EnsureOk(t: Table, key: string)
    requires WellFormed(t)
    ensures WellFormed(Ensure(t, key)) && key in Ensure(t, key).circuits
    ensures key in t.circuits ==> Ensure(t, key) == t
    ensures key !in t.circuits ==> Ensure(t, key).circuits[key] == Fresh(t.nextSerial)
    ensures t.nextSerial <= Ensure(t, key).nextSerial
    ensures forall k :: k in Ensure(t, key).circuits && k != key ==>
      k in t.circuits && Ensure(t, key).circuits[k] == t.circuits[k]
    ensures key !in t.circuits ==> forall k :: k in t.circuits ==> (k in Ensure(t, key).circuits <==> !Evicted(t, k))
  {
    if key !in t.circuits {
      MakeRoomOk(t);
    }
  }

  lemma CoolOk(t: Table, key: string, now: int)
    requires WellFormed(t)
    ensures WellFormed(Cool(t, key, now)) && Cool(t, key, now).nextSerial == t.nextSerial
    ensures forall k :: k in Cool(t, key, now).circuits <==> k in t.circuits
    ensures forall k :: k in t.circuits ==> Cool(t, key, now).circuits[k].serial == t.circuits[k].serial
    ensures forall k :: k in t.circuits && k != key ==> Cool(t, key, now).circuits[k] == t.circuits[k]
  {
  }

  // ---- the breaker ----

  /** `stateOf(key)`: an elapsed cooldown turns open into half-open. */
  function Cool(t: Table, key: string, now: int): Table {
    if key in t.circuits && t.circuits[key].state.Open? && now >= t.circuits[key].openUntil then
      var c := t.circuits[key];
      Put(t, key, c.(state := HalfOpen, successes := 0, trialInFlight := false, period := c.period + 1))
    else t
  }

  function StateIn(t: Table, key: string): CircuitState {
    if key in t.circuits then t.circuits[key].state else Closed
  }

  /** `run` up to the call of `fn`: no ticket where it throws CircuitOpenError. */
  function Begin(t: Table, key: string, now: int): (Table, Option<Ticket>)
    requires WellFormed(t)
  {
    CoolOk(t, key, now);
    EnsureOk(Cool(t, key, now), key);
    var state := StateIn(Cool(t, key, now), key);
    var u := Ensure(Cool(t, key, now), key);
    var c := u.circuits[key];
    match state
    case Open => (u, None)
    case HalfOpen =>
      if c.trialInFlight then (u, None)
      else (Put(u, key, c.(trialInFlight := true)), Some(Ticket(key, c.serial, true)))
    case Closed => (u, Some(Ticket(key, c.serial, false)))
  }

  function RecordSuccess(cfg: Config, t: Table, key: string): Table
    requires WellFormed(t)
  {
    EnsureOk(t, key);
    var u := Ensure(t, key);
    var c := u.circuits[key];
    if c.state.HalfOpen? then
      var d := c.(successes := c.successes + 1);
      if d.successes >= cfg.successThreshold then Delete(u, key) else Put(u, key, d)
    else Put(u, key, c.(failures := 0))
  }

  function RecordFailure(cfg: Config, t: Table, key: string, now: int): Table
    requires WellFormed(t)
  {
    EnsureOk(t, key);
    var u := Ensure(t, key);
    var c := u.circuits[key];
    if c.state.HalfOpen? then
      Put(u, key, c.(state := Open, openUntil := now + cfg.resetAfterMs, successes := 0))
    else
      var d := c.(failures := c.failures + 1);
      Put(u, key,
          if d.failures >= cfg.failureThreshold then d.(state := Open, openUntil := now + cfg.resetAfterMs) else d)
  }

  /** `finally`: the holder of a trial frees the slot of the circuit object it was let through by. */
  function Release(t: Table, ticket: Ticket): Table {
    if ticket.holdingTrial && ticket.key in t.circuits && t.circuits[ticket.key].serial == ticket.serial
    then Put(t, ticket.key, t.circuits[ticket.key].(trialInFlight := false))
    else t
  }

  /** `run` from the end of `fn`. `available` is false only for an availability failure. */
  function End(cfg: Config, t: Table, ticket: Ticket, available: bool, now: int): Table
    requires WellFormed(t)
  {
    Release(if available then RecordSuccess(cfg, t, ticket.key) else RecordFailure(cfg, t, ticket.key, now), ticket)
  }

  // ---- every operation keeps the table well formed ----

  lemma BeginOk(t: Table, key: string, now: int)
    requires WellFormed(t)
    ensures WellFormed(Begin(t, key, now).0)
  {
    CoolOk(t, key, now);
    EnsureOk(Cool(t, key, now), key);
    var u := Ensure(Cool(t, key, now), key);
    ReplaceOk(u, key, u.circuits[key].(trialInFlight := true));
  }

  lemma RecordSuccessOk(cfg: Config, t: Table, key: string)
    requires WellFormed(t)
    ensures WellFormed(RecordSuccess(cfg, t, key))
  {
    hide Ensure, Delete, Put, WellFormed;
    EnsureOk(t, key);
    var u := Ensure(t, key);
    var c := u.circuits[key];
    DeleteOk(u, key);
    ReplaceOk(u, key, c.(successes := c.successes + 1));
    ReplaceOk(u, key, c.(failures := 0));
  }

  lemma RecordFailureOk(cfg: Config, t: Table, key: string, now: int)
    requires WellFormed(t)
    ensures WellFormed(RecordFailure(cfg, t, key, now))
  {
    hide Ensure, Evicted, AnyHealthy;
    EnsureOk(t, key);
  }

  lemma EndOk(cfg: Config, t: Table, ticket: Ticket, available: bool, now: int)
    requires WellFormed(t)
    ensures WellFormed(End(cfg, t, ticket, available, now))
  {
    hide RecordSuccess, RecordFailure;
    RecordSuccessOk(cfg, t, ticket.key);
    RecordFailureOk(cfg, t, ticket.key, now);
  }
}
