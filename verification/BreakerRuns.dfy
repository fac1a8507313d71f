/** The breaker under every interleaving of overlapping calls: calls begin and end
    at any times in any order, and keys are observed or reset in between. */
module BreakerRuns {
  import opened Wrappers
  import opened Sequences
  import opened CircuitBreaker

  /** A circuit let an ordinary call through, recorded how a call ended, opened (or stayed open longer), or let a
      trial through in one of its half-open periods. */
  datatype Event =
    | Admitted(serial: nat, at: int)
    | Outcome(serial: nat, at: int, period: nat, available: bool)
    | Opened(serial: nat, at: int)
    | Trial(serial: nat, at: int, period: nat)

  /** `calls` are the calls in flight. */
  datatype System = System(t: Table, now: int, calls: seq<Ticket>, log: seq<Event>)

  datatype Action =
    | Tick(to: int)
    | Enter(key: string)
    | Leave(call: nat, available: bool)
    | Observe(seen: string)
    | Reset(dropped: string)
    | ResetAll

  ghost predicate Enabled(s: System, a: Action) {
    match a
    case Tick(to) => to >= s.now
    case Leave(call, _) => call < |s.calls|
    case _ => true
  }

  /** It is open, for a full cooldown from now. */
  predicate JustOpened(cfg: Config, c: Circuit, now: int) {
    c.state.Open? && c.openUntil == now + cfg.resetAfterMs
  }

  /** What the end of a call adds to the log: how it ended, as the circuit its key has now records it, and the
      opening of that circuit, if it is one. */
  ghost function Logged(cfg: Config, s: System, key: string, available: bool): seq<Event>
    requires WellFormed(s.t)
  {
    EnsureOk(s.t, key);
    var c := Ensure(s.t, key).circuits[key];
    [Outcome(c.serial, s.now, c.period, available)]
    + if !available && JustOpened(cfg, RecordFailure(cfg, s.t, key, s.now).circuits[key], s.now)
      then [Opened(c.serial, s.now)] else []
  }

  function Entry(t: Table, ticket: Ticket, now: int): Event {
    if ticket.holdingTrial && ticket.key in t.circuits
    then Trial(ticket.serial, now, t.circuits[ticket.key].period) else Admitted(ticket.serial, now)
  }

  ghost function Step(cfg: Config, s: System, a: Action): System
    requires WellFormed(s.t) && Enabled(s, a)
  {
    match a
    case Tick(to) => s.(now := to)
    case Enter(key) =>
      var (u, ticket) := Begin(s.t, key, s.now);
      if ticket.None? then s.(t := u)
      else s.(t := u, calls := s.calls + [ticket.value], log := s.log + [Entry(u, ticket.value, s.now)])
    case Leave(call, available) =>
      var ticket := s.calls[call];
      System(End(cfg, s.t, ticket, available, s.now), s.now, s.calls[..call] + s.calls[call + 1..],
             s.log + Logged(cfg, s, ticket.key, available))
    case Observe(key) => s.(t := Cool(s.t, key, s.now))
    case Reset(key) => s.(t := Delete(s.t, key))
    case ResetAll => s.(t := Table([], map[], s.t.nextSerial))
  }

  // ---- what holds of each circuit ----

  /** After one of these a circuit is not closed any more. */
  predicate Marking(e: Event) {
    e.Opened? || e.Trial?
  }

  /** The events of this circuit against its state now. */
  ghost predicate CircuitOk(cfg: Config, c: Circuit, now: int, log: seq<Event>) {
    forall e :: e in log && e.serial == c.serial && Marking(e) ==>
      && e.at <= now
      && !c.state.Closed?
      && (e.Trial? ==> e.period <= c.period)
      && (e.Trial? && e.period == c.period && c.state.HalfOpen? ==> c.trialInFlight)
      && (c.state.Open? ==> e.at + cfg.resetAfterMs <= c.openUntil)
      && (c.state.HalfOpen? && !c.trialInFlight ==> e.at + cfg.resetAfterMs <= now)
  }

  /** A trial comes at least a full cooldown after every earlier opening and trial of its circuit, in a period of
      its own, and once a circuit has opened only trials get through it. */
  ghost predicate Spaced(cfg: Config, log: seq<Event>) {
    forall i, j :: 0 <= i < j < |log| && Marking(log[i]) && log[i].serial == log[j].serial ==>
      Follows(cfg, log[i], log[j])
  }

  /** What a later event of the same circuit may be, after an opening or a trial. */
  predicate Follows(cfg: Config, d: Event, e: Event) {
    && !e.Admitted?
    && (e.Trial? ==> d.at + cfg.resetAfterMs <= e.at && (d.Trial? ==> d.period != e.period))
  }

  ghost predicate Inv(cfg: Config, s: System) {
    && WellFormed(s.t)
    && (forall k :: k in s.t.circuits ==> CircuitOk(cfg, s.t.circuits[k], s.now, s.log))
    && (forall e :: e in s.log ==> e.serial < s.t.nextSerial)
    && (forall c :: c in s.calls ==> CallOk(s.t, c))
    && Spaced(cfg, s.log)
  }

  /** The holder of a trial was let through by a circuit that had opened; while it stays in the table it never
      closes. */
  ghost predicate CallOk(t: Table, c: Ticket) {
    && c.serial < t.nextSerial
    && (c.holdingTrial && c.key in t.circuits && t.circuits[c.key].serial == c.serial ==>
          !t.circuits[c.key].state.Closed?)
  }

  lemma Parts(cfg: Config, s: System)
    requires Inv(cfg, s)
    ensures WellFormed(s.t) && Spaced(cfg, s.log)
    ensures forall k :: k in s.t.circuits ==> CircuitOk(cfg, s.t.circuits[k], s.now, s.log)
    ensures forall c :: c in s.calls ==> CallOk(s.t, c)
  {
  }

  /** Counters do not matter to the events. */
  lemma CountersFree(cfg: Config, c: Circuit, d: Circuit, now: int, log: seq<Event>)
    requires CircuitOk(cfg, c, now, log)
    requires d.state == c.state && d.openUntil == c.openUntil && d.serial == c.serial && d.period == c.period
    requires d.trialInFlight == c.trialInFlight || !c.state.HalfOpen?
    ensures CircuitOk(cfg, d, now, log)
  {
  }

  /** A circuit that opens now, with the opening logged. */
  lemma OpeningFits(cfg: Config, c: Circuit, d: Circuit, now: int, log: seq<Event>)
    requires CircuitOk(cfg, c, now, log)
    requires d.state.Open? && d.openUntil == now + cfg.resetAfterMs && d.serial == c.serial && d.period == c.period
    ensures CircuitOk(cfg, d, now, log + [Opened(c.serial, now)])
  {
  }

  lemma AppendSpaced(cfg: Config, log: seq<Event>, e: Event)
    requires Spaced(cfg, log)
    requires forall d :: d in log && Marking(d) && d.serial == e.serial ==> Follows(cfg, d, e)
    ensures Spaced(cfg, log + [e])
  {
    var more := log + [e];
    forall i, j | 0 <= i < j < |more| && Marking(more[i]) && more[i].serial == more[j].serial
      ensures Follows(cfg, more[i], more[j])
    {
      assert more[i] in log;
    }
  }

  /** A fresh circuit has no events. */
  lemma EnsureKeeps(cfg: Config, s: System, key: string)
    requires Inv(cfg, s)
    ensures Inv(cfg, s.(t := Ensure(s.t, key)))
  {
    EnsureOk(s.t, key);
    var u := Ensure(s.t, key);
    forall k | k in u.circuits ensures CircuitOk(cfg, u.circuits[k], s.now, s.log) {
    }
    forall c | c in s.calls ensures CallOk(u, c) {
      assert CallOk(s.t, c);
    }
  }

  lemma CoolKeeps(cfg: Config, s: System, key: string)
    requires Inv(cfg, s)
    ensures Inv(cfg, s.(t := Cool(s.t, key, s.now)))
  {
    CoolOk(s.t, key, s.now);
    var u := Cool(s.t, key, s.now);
    forall k | k in u.circuits ensures CircuitOk(cfg, u.circuits[k], s.now, s.log) {
      assert CircuitOk(cfg, s.t.circuits[k], s.now, s.log);
    }
    forall c | c in s.calls ensures CallOk(u, c) {
      assert CallOk(s.t, c);
    }
  }

  lemma DeleteKeeps(cfg: Config, s: System, key: string)
    requires Inv(cfg, s)
    ensures Inv(cfg, s.(t := Delete(s.t, key)))
  {
    DeleteOk(s.t, key);
    forall c | c in s.calls ensures CallOk(Delete(s.t, key), c) {
      assert CallOk(s.t, c);
    }
  }

  lemma ReplaceKeeps(cfg: Config, s: System, key: string, c: Circuit, log: seq<Event>)
    requires Inv(cfg, s) && key in s.t.circuits && c.serial == s.t.circuits[key].serial
    requires log == s.log || (|log| > 0 && log[..|log| - 1] == s.log && log[|log| - 1].serial == c.serial)
    requires CircuitOk(cfg, c, s.now, log) && Spaced(cfg, log)
    requires !s.t.circuits[key].state.Closed? ==> !c.state.Closed?
    ensures Inv(cfg, s.(t := Put(s.t, key, c), log := log))
  {
    ReplaceOk(s.t, key, c);
    var u := Put(s.t, key, c);
    assert log != s.log ==> log == s.log + [log[|log| - 1]];
    forall k | k in u.circuits ensures CircuitOk(cfg, u.circuits[k], s.now, log) {
      assert k != key ==> CircuitOk(cfg, s.t.circuits[k], s.now, s.log);
    }
    forall d | d in s.calls ensures CallOk(u, d) {
      assert CallOk(s.t, d);
    }
  }

  // ---- calls begin ----

  lemma EnterKeeps(cfg: Config, s: System, key: string)
    requires Inv(cfg, s) && WellFormed(s.t)
    ensures Inv(cfg, Step(cfg, s, Enter(key)))
  {
    hide Inv, CircuitOk, Cool, Ensure, Put, WellFormed, Spaced;
    CoolKeeps(cfg, s, key);
    CoolOk(s.t, key, s.now);
    var cooled := s.(t := Cool(s.t, key, s.now));
    EnsureKeeps(cfg, cooled, key);
    EnsureOk(cooled.t, key);
    var v := s.(t := Ensure(cooled.t, key));
    Parts(cfg, v);
    var c := v.t.circuits[key];
    var (u, ticket) := Begin(s.t, key, s.now);
    if ticket.Some? && ticket.value.holdingTrial {
      var e := Trial(c.serial, s.now, c.period);
      var claimed := c.(trialInFlight := true);
      TrialFits(cfg, c, s.now, s.log);
      ReplaceKeeps(cfg, v, key, claimed, s.log + [e]);
      PutGets(v.t, key, claimed);
      AdmitKeeps(cfg, v.(t := u, log := s.log + [e]), ticket.value);
    } else if ticket.Some? {
      var e := Admitted(c.serial, s.now);
      AdmissionFits(cfg, c, s.now, s.log);
      LogKeeps(cfg, v, key, e);
      AdmitKeeps(cfg, v.(log := s.log + [e]), ticket.value);
    }
  }

  lemma PutGets(t: Table, key: string, c: Circuit)
    ensures key in Put(t, key, c).circuits && Put(t, key, c).circuits[key] == c
  {
  }

  /** A half-open circuit whose slot is free may log a trial now. */
  lemma TrialFits(cfg: Config, c: Circuit, now: int, log: seq<Event>)
    requires CircuitOk(cfg, c, now, log) && Spaced(cfg, log) && c.state.HalfOpen? && !c.trialInFlight
    ensures CircuitOk(cfg, c.(trialInFlight := true), now, log + [Trial(c.serial, now, c.period)])
    ensures Spaced(cfg, log + [Trial(c.serial, now, c.period)])
  {
    AppendSpaced(cfg, log, Trial(c.serial, now, c.period));
  }

  /** A closed circuit has never opened. */
  lemma AdmissionFits(cfg: Config, c: Circuit, now: int, log: seq<Event>)
    requires CircuitOk(cfg, c, now, log) && Spaced(cfg, log) && c.state.Closed?
    ensures Spaced(cfg, log + [Admitted(c.serial, now)])
  {
    AppendSpaced(cfg, log, Admitted(c.serial, now));
  }

  lemma LogKeeps(cfg: Config, s: System, key: string, e: Event)
    requires Inv(cfg, s) && key in s.t.circuits && e.serial == s.t.circuits[key].serial && !Marking(e)
    requires Spaced(cfg, s.log + [e])
    ensures Inv(cfg, s.(log := s.log + [e]))
  {
    var log := s.log + [e];
    forall k | k in s.t.circuits ensures CircuitOk(cfg, s.t.circuits[k], s.now, log) {
      assert CircuitOk(cfg, s.t.circuits[k], s.now, s.log);
    }
  }

  lemma AdmitKeeps(cfg: Config, s: System, ticket: Ticket)
    requires Inv(cfg, s) && ticket.key in s.t.circuits && s.t.circuits[ticket.key].serial == ticket.serial
    requires ticket.holdingTrial ==> !s.t.circuits[ticket.key].state.Closed?
    ensures Inv(cfg, s.(calls := s.calls + [ticket]))
  {
  }

  // ---- calls end ----

  /** How a call ended says nothing about openings and trials. */
  lemma OutcomeKeeps(cfg: Config, s: System, key: string, available: bool)
    requires Inv(cfg, s) && key in s.t.circuits
    ensures var c := s.t.circuits[key];
            Inv(cfg, s.(log := s.log + [Outcome(c.serial, s.now, c.period, available)]))
  {
    var c := s.t.circuits[key];
    var e := Outcome(c.serial, s.now, c.period, available);
    AppendSpaced(cfg, s.log, e);
    LogKeeps(cfg, s, key, e);
  }

  lemma SuccessKeeps(cfg: Config, s: System, key: string)
    requires Inv(cfg, s) && WellFormed(s.t)
    ensures Inv(cfg, s.(t := RecordSuccess(cfg, s.t, key), log := s.log + Logged(cfg, s, key, true)))
  {
    hide Inv, CircuitOk, Ensure, Put, Delete, WellFormed, Spaced;
    EnsureKeeps(cfg, s, key);
    EnsureOk(s.t, key);
    var v := s.(t := Ensure(s.t, key));
    var c := v.t.circuits[key];
    OutcomeKeeps(cfg, v, key, true);
    var log := s.log + [Outcome(c.serial, s.now, c.period, true)];
    assert s.log + Logged(cfg, s, key, true) == log;
    var w := v.(log := log);
    Parts(cfg, w);
    if c.state.HalfOpen? {
      var d := c.(successes := c.successes + 1);
      DeleteKeeps(cfg, w, key);
      CountersFree(cfg, c, d, s.now, log);
      ReplaceKeeps(cfg, w, key, d, log);
    } else {
      CountersFree(cfg, c, c.(failures := 0), s.now, log);
      ReplaceKeeps(cfg, w, key, c.(failures := 0), log);
    }
  }

  lemma FailureKeeps(cfg: Config, s: System, key: string)
    requires Inv(cfg, s) && WellFormed(s.t)
    ensures Inv(cfg, s.(t := RecordFailure(cfg, s.t, key, s.now), log := s.log + Logged(cfg, s, key, false)))
  {
    hide Inv, CircuitOk, Ensure, Delete, WellFormed, Spaced;
    EnsureKeeps(cfg, s, key);
    EnsureOk(s.t, key);
    var v := s.(t := Ensure(s.t, key));
    var c := v.t.circuits[key];
    OutcomeKeeps(cfg, v, key, false);
    var log := s.log + [Outcome(c.serial, s.now, c.period, false)];
    var w := v.(log := log);
    Parts(cfg, w);
    var d := RecordFailure(cfg, s.t, key, s.now).circuits[key];
    assert RecordFailure(cfg, s.t, key, s.now) == Put(v.t, key, d);
    if JustOpened(cfg, d, s.now) {
      var e := Opened(c.serial, s.now);
      AppendSpaced(cfg, log, e);
      OpeningFits(cfg, c, d, s.now, log);
      ReplaceKeeps(cfg, w, key, d, log + [e]);
      assert s.log + Logged(cfg, s, key, false) == log + [e];
    } else {
      CountersFree(cfg, c, d, s.now, log);
      ReplaceKeeps(cfg, w, key, d, log);
      assert s.log + Logged(cfg, s, key, false) == log;
    }
  }

  /** With one success enough to close, a finished trial has left the half-open period it belonged to
      before it frees the slot, whichever circuit its key now has. */
  lemma NoLongerHalfOpen(cfg: Config, t: Table, ticket: Ticket, available: bool, now: int)
    requires WellFormed(t) && cfg.successThreshold <= 1 && ticket.serial < t.nextSerial
    ensures var u := if available then RecordSuccess(cfg, t, ticket.key) else RecordFailure(cfg, t, ticket.key, now);
      ticket.key in u.circuits && u.circuits[ticket.key].serial == ticket.serial ==>
        !u.circuits[ticket.key].state.HalfOpen?
  {
    EnsureOk(t, ticket.key);
    DeleteOk(Ensure(t, ticket.key), ticket.key);
  }

  lemma ReleaseKeeps(cfg: Config, s: System, ticket: Ticket)
    requires Inv(cfg, s)
    requires ticket.key in s.t.circuits && s.t.circuits[ticket.key].serial == ticket.serial ==>
      !s.t.circuits[ticket.key].state.HalfOpen?
    ensures Inv(cfg, s.(t := Release(s.t, ticket)))
  {
    if ticket.holdingTrial && ticket.key in s.t.circuits && s.t.circuits[ticket.key].serial == ticket.serial {
      var c := s.t.circuits[ticket.key];
      assert CircuitOk(cfg, c, s.now, s.log);
      ReplaceKeeps(cfg, s, ticket.key, c.(trialInFlight := false), s.log);
    }
  }

  lemma LeaveKeeps(cfg: Config, s: System, call: nat, available: bool)
    requires Inv(cfg, s) && WellFormed(s.t) && call < |s.calls| && cfg.successThreshold <= 1
    ensures Inv(cfg, Step(cfg, s, Leave(call, available)))
  {
    hide CircuitOk, RecordSuccess, RecordFailure, Release, WellFormed, Spaced;
    var ticket := s.calls[call];
    assert CallOk(s.t, ticket);
    NoLongerHalfOpen(cfg, s.t, ticket, available, s.now);
    var rest := s.(calls := s.calls[..call] + s.calls[call + 1..]);
    assert forall c :: c in rest.calls ==> c in s.calls;
    if available {
      SuccessKeeps(cfg, rest, ticket.key);
      var log := s.log + Logged(cfg, s, ticket.key, true);
      ReleaseKeeps(cfg, rest.(t := RecordSuccess(cfg, s.t, ticket.key), log := log), ticket);
    } else {
      FailureKeeps(cfg, rest, ticket.key);
      var log := s.log + Logged(cfg, s, ticket.key, false);
      ReleaseKeeps(cfg, rest.(t := RecordFailure(cfg, s.t, ticket.key, s.now), log := log), ticket);
    }
  }

  lemma StepKeeps(cfg: Config, s: System, a: Action)
    requires Inv(cfg, s) && WellFormed(s.t) && Enabled(s, a) && cfg.successThreshold <= 1
    ensures Inv(cfg, Step(cfg, s, a))
  {
    match a {
      case Tick(to) =>
        forall k | k in s.t.circuits ensures CircuitOk(cfg, s.t.circuits[k], to, s.log) {
          assert CircuitOk(cfg, s.t.circuits[k], s.now, s.log);
        }
      case Enter(key) => EnterKeeps(cfg, s, key);
      case Leave(call, available) => LeaveKeeps(cfg, s, call, available);
      case Observe(key) => CoolKeeps(cfg, s, key);
      case Reset(key) => DeleteKeeps(cfg, s, key);
      case ResetAll =>
        forall c | c in s.calls ensures CallOk(Step(cfg, s, a).t, c) {
          assert CallOk(s.t, c);
        }
    }
  }

  /** `t` is reached from `s` by the actions in order. */
  ghost predicate Run(cfg: Config, s: System, trace: seq<Action>, t: System)
    decreases |trace|
  {
    if trace == [] then s == t
    else WellFormed(s.t) && Enabled(s, trace[0]) && Run(cfg, Step(cfg, s, trace[0]), trace[1..], t)
  }

  function Start(now: int): System {
    System(Table([], map[], 0), now, [], [])
  }

  lemma {:induction false} RunKeeps(cfg: Config, s: System, trace: seq<Action>, t: System)
    requires Inv(cfg, s) && cfg.successThreshold <= 1 && Run(cfg, s, trace, t)
    ensures Inv(cfg, t)
    decreases |trace|
  {
    if trace != [] {
      StepKeeps(cfg, s, trace[0]);
      RunKeeps(cfg, Step(cfg, s, trace[0]), trace[1..], t);
    }
  }

  /** Two trials of one circuit are never in the same half-open period, a trial comes at least `resetAfterMs` after
      every earlier trial and opening of its circuit, and no other call gets through a circuit that has opened. */
  lemma OneTrialPerPeriod(cfg: Config, now: int, trace: seq<Action>, s: System)
    ensures cfg.successThreshold <= 1 && Run(cfg, Start(now), trace, s) ==> Spaced(cfg, s.log)
  {
    if cfg.successThreshold <= 1 && Run(cfg, Start(now), trace, s) {
      RunKeeps(cfg, Start(now), trace, s);
    }
  }

  // ---- bounds for every configuration ----

  lemma StepWellFormed(cfg: Config, s: System, a: Action)
    requires WellFormed(s.t) && Enabled(s, a)
    ensures WellFormed(Step(cfg, s, a).t)
  {
    match a {
      case Tick(_) =>
      case Enter(key) => BeginOk(s.t, key, s.now);
      case Leave(call, available) => EndOk(cfg, s.t, s.calls[call], available, s.now);
      case Observe(key) => CoolOk(s.t, key, s.now);
      case Reset(key) => DeleteOk(s.t, key);
      case ResetAll =>
    }
  }

  /** The map never outgrows its bound, with any thresholds. */
  lemma {:induction false} NeverMoreThanMaxCircuits(cfg: Config, s: System, trace: seq<Action>, t: System)
    requires WellFormed(s.t) && Run(cfg, s, trace, t)
    ensures WellFormed(t.t) && |t.t.circuits| <= MAX_CIRCUITS
    decreases |trace|
  {
    if trace == [] {
      KeysCounted(t.t);
    } else {
      StepWellFormed(cfg, s, trace[0]);
      NeverMoreThanMaxCircuits(cfg, Step(cfg, s, trace[0]), trace[1..], t);
    }
  }

  lemma KeysCounted(t: Table)
    requires WellFormed(t)
    ensures |t.circuits| == |t.order|
  {
    DistinctWithin(t.order, t.circuits.Keys);
  }

  // ---- when one success does not close ----

  /** A table holding one circuit. */
  function Solo(c: Circuit): Table {
    Table(["k"], map["k" := c], 1)
  }

  lemma SoloFacts(c: Circuit)
    requires c.serial == 0
    ensures WellFormed(Solo(c)) && Ensure(Solo(c), "k") == Solo(c)
    ensures forall d :: Put(Solo(c), "k", d) == Solo(d)
  {
  }

  /** A closed circuit lets a call in and, when it fails, counts it or opens. */
  lemma FailOnce(cfg: Config, c: Circuit, now: int, log: seq<Event>) returns (d: Circuit, log': seq<Event>)
    requires c.serial == 0 && c.state.Closed?
    ensures Run(cfg, System(Solo(c), now, [], log), [Enter("k"), Leave(0, false)], System(Solo(d), now, [], log'))
    ensures d.serial == 0 && d.failures == c.failures + 1
    ensures if d.failures >= cfg.failureThreshold then d.state.Open? && d.openUntil == now + cfg.resetAfterMs
      else d.state.Closed?
  {
    SoloFacts(c);
    var s := System(Solo(c), now, [], log);
    var t := Step(cfg, s, Enter("k"));
    assert t == System(Solo(c), now, [Ticket("k", 0, false)], log + [Admitted(0, now)]);
    d := c.(failures := c.failures + 1);
    if d.failures >= cfg.failureThreshold { d := d.(state := Open, openUntil := now + cfg.resetAfterMs); }
    log' := t.log + Logged(cfg, t, "k", false);
    var u := Step(cfg, t, Leave(0, false));
    assert u == System(Solo(d), now, [], log');
    assert Run(cfg, u, [], u);
    assert [Enter("k"), Leave(0, false)][1..] == [Leave(0, false)];
    assert [Leave(0, false)][1..] == [];
  }

  lemma {:induction false} RunConcat(cfg: Config, s: System, p: seq<Action>, m: System, q: seq<Action>, t: System)
    requires Run(cfg, s, p, m) && Run(cfg, m, q, t)
    ensures Run(cfg, s, p + q, t)
    decreases |p|
  {
    if p == [] {
      assert p + q == q;
    } else {
      assert (p + q)[1..] == p[1..] + q;
      RunConcat(cfg, Step(cfg, s, p[0]), p[1..], m, q, t);
    }
  }

  lemma {:induction false} FailUntilOpen(cfg: Config, c: Circuit, now: int, log: seq<Event>)
    returns (trace: seq<Action>, d: Circuit, log': seq<Event>)
    requires c.serial == 0 && c.state.Closed?
    ensures Run(cfg, System(Solo(c), now, [], log), trace, System(Solo(d), now, [], log'))
    ensures d.serial == 0 && d.state.Open? && d.openUntil == now + cfg.resetAfterMs
    decreases if c.failures < cfg.failureThreshold then cfg.failureThreshold - c.failures else 0
  {
    d, log' := FailOnce(cfg, c, now, log);
    trace := [Enter("k"), Leave(0, false)];
    if d.state.Closed? {
      var m, logM := d, log';
      var rest;
      rest, d, log' := FailUntilOpen(cfg, m, now, logM);
      RunConcat(cfg, System(Solo(c), now, [], log), trace, System(Solo(m), now, [], logM), rest,
                System(Solo(d), now, [], log'));
      trace := trace + rest;
    }
  }

  lemma OneStep(cfg: Config, s: System, a: Action, t: System)
    requires WellFormed(s.t) && Enabled(s, a) && Step(cfg, s, a) == t
    ensures Run(cfg, s, [a], t)
  {
    assert [a][1..] == [];
    assert Run(cfg, t, [], t);
  }

  /** The circuit as a call finds it at `now`. */
  function Cooled(c: Circuit, now: int): Circuit {
    if c.state.Open? && now >= c.openUntil
    then c.(state := HalfOpen, successes := 0, trialInFlight := false, period := c.period + 1) else c
  }

  /** A half-open circuit with a free slot lets a trial in and logs it. */
  lemma TrialEnters(cfg: Config, c: Circuit, now: int, log: seq<Event>)
    requires c.serial == 0 && Cooled(c, now).state.HalfOpen? && !Cooled(c, now).trialInFlight
    ensures var d := Cooled(c, now);
      Run(cfg, System(Solo(c), now, [], log), [Enter("k")],
          System(Solo(d.(trialInFlight := true)), now, [Ticket("k", 0, true)], log + [Trial(0, now, d.period)]))
  {
    var d := Cooled(c, now);
    SoloFacts(c);
    SoloFacts(d);
    var s, t := System(Solo(c), now, [], log),
      System(Solo(d.(trialInFlight := true)), now, [Ticket("k", 0, true)], log + [Trial(0, now, d.period)]);
    assert Cool(s.t, "k", now) == Solo(d);
    OneStep(cfg, s, Enter("k"), t);
  }

  /** A trial's success that is not yet enough frees the slot and leaves the period as it is. */
  lemma TrialSucceeds(cfg: Config, c: Circuit, now: int, log: seq<Event>)
    requires c.serial == 0 && c.state.HalfOpen? && c.successes + 1 < cfg.successThreshold
    ensures Run(cfg, System(Solo(c), now, [Ticket("k", 0, true)], log), [Leave(0, true)],
                System(Solo(c.(successes := c.successes + 1, trialInFlight := false)), now, [],
                       log + [Outcome(0, now, c.period, true)]))
  {
    SoloFacts(c);
    var d := c.(successes := c.successes + 1);
    SoloFacts(d);
    var s := System(Solo(c), now, [Ticket("k", 0, true)], log);
    assert RecordSuccess(cfg, s.t, "k") == Solo(d);
    var outcome := [Outcome(0, now, c.period, true)];
    assert Logged(cfg, s, "k", true) == outcome;
    OneStep(cfg, s, Leave(0, true), System(Solo(d.(trialInFlight := false)), now, [], log + outcome));
  }

  /** An open circuit, once cooled, lets a trial in; its success leaves the circuit half-open, and another trial
      follows. */
  lemma TwoTrials(cfg: Config, c: Circuit, now: int, log: seq<Event>) returns (trace: seq<Action>, s: System)
    requires c.serial == 0 && c.state.Open? && c.openUntil == now + cfg.resetAfterMs && cfg.successThreshold >= 2
    ensures Run(cfg, System(Solo(c), now, [], log), trace, s) && !Spaced(cfg, s.log)
  {
    hide Step, Run, Solo;
    var later := now + cfg.resetAfterMs;
    var half := Cooled(c, later);
    var e, call := Trial(0, later, half.period), [Ticket("k", 0, true)];
    var s0, s1 := System(Solo(c), now, [], log), System(Solo(c), later, [], log);
    var s2 := System(Solo(half.(trialInFlight := true)), later, call, log + [e]);
    var freed := half.(successes := 1);
    var outcome := [Outcome(0, later, half.period, true)];
    var s3 := System(Solo(freed), later, [], log + [e] + outcome);
    s := System(Solo(freed.(trialInFlight := true)), later, call, log + [e] + outcome + [e]);
    TickOn(cfg, c, now, later, log);
    TrialEnters(cfg, c, later, log);
    TrialSucceeds(cfg, half.(trialInFlight := true), later, log + [e]);
    assert Cooled(freed, later) == freed;
    TrialEnters(cfg, freed, later, log + [e] + outcome);
    RunConcat(cfg, s0, [Tick(later)], s1, [Enter("k")], s2);
    RunConcat(cfg, s0, [Tick(later)] + [Enter("k")], s2, [Leave(0, true)], s3);
    trace := [Tick(later)] + [Enter("k")] + [Leave(0, true)] + [Enter("k")];
    RunConcat(cfg, s0, [Tick(later)] + [Enter("k")] + [Leave(0, true)], s3, [Enter("k")], s);
    assert s.log[|log|] == e && s.log[|log| + 2] == e;
  }

  lemma TickOn(cfg: Config, c: Circuit, now: int, later: int, log: seq<Event>)
    requires c.serial == 0 && now <= later
    ensures Run(cfg, System(Solo(c), now, [], log), [Tick(later)], System(Solo(c), later, [], log))
  {
    SoloFacts(c);
    OneStep(cfg, System(Solo(c), now, [], log), Tick(later), System(Solo(c), later, [], log));
  }

  /** A first successful call puts the circuit in the table. */
  lemma FirstCall(cfg: Config) returns (log: seq<Event>)
    ensures Run(cfg, Start(0), [Enter("k")] + [Leave(0, true)], System(Solo(Fresh(0)), 0, [], log))
  {
    var s0, s1 := Start(0), System(Solo(Fresh(0)), 0, [Ticket("k", 0, false)], [Admitted(0, 0)]);
    assert [] + [Admitted(0, 0)] == [Admitted(0, 0)];
    OneStep(cfg, s0, Enter("k"), s1);
    SoloFacts(Fresh(0));
    log := s1.log + Logged(cfg, s1, "k", true);
    OneStep(cfg, s1, Leave(0, true), System(Solo(Fresh(0)), 0, [], log));
    RunConcat(cfg, s0, [Enter("k")], s1, [Leave(0, true)], System(Solo(Fresh(0)), 0, [], log));
  }

  /** Fail until the circuit opens, then let two trials into one period. */
  lemma SharedPeriod(cfg: Config) returns (trace: seq<Action>, s: System)
    requires cfg.successThreshold >= 2
    ensures Run(cfg, Start(0), trace, s) && !Spaced(cfg, s.log)
  {
    hide Run, Solo, Start;
    var log0 := FirstCall(cfg);
    var calm := System(Solo(Fresh(0)), 0, [], log0);
    var start := [Enter("k")] + [Leave(0, true)];
    var failing, c, log := FailUntilOpen(cfg, Fresh(0), 0, log0);
    var trying;
    trying, s := TwoTrials(cfg, c, 0, log);
    RunConcat(cfg, Start(0), start, calm, failing, System(Solo(c), 0, [], log));
    RunConcat(cfg, Start(0), start + failing, System(Solo(c), 0, [], log), trying, s);
    trace := start + failing + trying;
  }

  /** One trial per half-open period holds in every run exactly when one success closes the circuit. */
  lemma OneTrialPerPeriodIff(cfg: Config)
    ensures (forall trace, s :: Run(cfg, Start(0), trace, s) ==> Spaced(cfg, s.log)) <==> cfg.successThreshold <= 1
  {
    forall trace, s | Run(cfg, Start(0), trace, s) && cfg.successThreshold <= 1 ensures Spaced(cfg, s.log) {
      OneTrialPerPeriod(cfg, 0, trace, s);
    }
    if cfg.successThreshold >= 2 {
      var trace, s := SharedPeriod(cfg);
    }
  }
}
