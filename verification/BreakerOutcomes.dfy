/** What opens a circuit and what closes it, told from how its calls ended alone, in every interleaving. */
module BreakerOutcomes {
  import opened Wrappers
  import opened Sequences
  import opened CircuitBreaker
  import opened BreakerRuns

  // ---- how the calls of a circuit ended ----

  /** The calls a circuit recorded, in order: whether each found its target available. */
  function OutcomesOf(log: seq<Event>, serial: nat): seq<bool>
    decreases |log|
  {
    if log == [] then []
    else
      var last := log[|log| - 1];
      OutcomesOf(log[..|log| - 1], serial)
      + if last.Outcome? && last.serial == serial then [last.available] else []
  }

  /** How many of them were successes in one half-open period. */
  function PeriodSuccesses(log: seq<Event>, serial: nat, period: nat): nat
    decreases |log|
  {
    if log == [] then 0
    else
      var last := log[|log| - 1];
      PeriodSuccesses(log[..|log| - 1], serial, period)
      + if last.Outcome? && last.serial == serial && last.period == period && last.available then 1 else 0
  }

  predicate AllFailures(outcomes: seq<bool>) {
    forall i :: 0 <= i < |outcomes| ==> !outcomes[i]
  }

  predicate FailuresFrom(outcomes: seq<bool>, k: nat, n: nat) {
    k + n <= |outcomes| && AllFailures(outcomes[k..k + n])
  }

  /** `n` failures in a row, at some time. */
  ghost predicate Streak(outcomes: seq<bool>, n: nat) {
    exists k: nat :: FailuresFrom(outcomes, k, n)
  }

  /** The last `n` were failures. */
  predicate EndsInFailures(outcomes: seq<bool>, n: nat) {
    n <= |outcomes| && AllFailures(outcomes[|outcomes| - n..])
  }

  /** The failures since the last success. */
  function Trailing(outcomes: seq<bool>): nat
    decreases |outcomes|
  {
    if outcomes == [] || outcomes[|outcomes| - 1] then 0 else 1 + Trailing(outcomes[..|outcomes| - 1])
  }

  /** A threshold of 0 works as one of 1. */
  function AtLeastOne(threshold: nat): (n: nat)
    ensures n >= 1
  {
    if threshold == 0 then 1 else threshold
  }

  lemma {:induction false} TrailingIs(outcomes: seq<bool>, n: nat)
    ensures n <= Trailing(outcomes) <==> EndsInFailures(outcomes, n)
    decreases |outcomes|
  {
    if n == 0 {
    } else if outcomes != [] {
      var front, last := outcomes[..|outcomes| - 1], outcomes[|outcomes| - 1];
      TrailingIs(front, n - 1);
      if n <= |outcomes| {
        var end := outcomes[|outcomes| - n..];
        assert end == front[|front| - (n - 1)..] + [last];
        assert end[n - 1] == last;
        assert AllFailures(end) <==> AllFailures(front[|front| - (n - 1)..]) && !last;
      }
    }
  }

  /** One more outcome completes a streak, or leaves things as they were. */
  lemma StreakGrows(outcomes: seq<bool>, available: bool, n: nat)
    requires n >= 1
    ensures var more := outcomes + [available];
            Streak(more, n) <==> Streak(outcomes, n) || EndsInFailures(more, n)
  {
    var more := outcomes + [available];
    if k: nat :| FailuresFrom(more, k, n) {
      if k + n <= |outcomes| {
        assert more[k..k + n] == outcomes[k..k + n];
        assert FailuresFrom(outcomes, k, n);
      } else {
        assert more[k..k + n] == more[|more| - n..];
      }
    }
    if k: nat :| FailuresFrom(outcomes, k, n) {
      assert more[k..k + n] == outcomes[k..k + n];
      assert FailuresFrom(more, k, n);
    }
    if EndsInFailures(more, n) {
      var k := |more| - n;
      assert more[k..k + n] == more[|more| - n..];
      assert FailuresFrom(more, k, n);
    }
  }

  // ---- the log grows ----

  predicate IsOutcomeOf(e: Event, serial: nat) {
    e.Outcome? && e.serial == serial
  }

  lemma LogGrows(log: seq<Event>, e: Event, serial: nat, period: nat)
    ensures OutcomesOf(log + [e], serial)
         == OutcomesOf(log, serial) + if IsOutcomeOf(e, serial) then [e.available] else []
    ensures PeriodSuccesses(log + [e], serial, period)
         == PeriodSuccesses(log, serial, period)
            + if IsOutcomeOf(e, serial) && e.period == period && e.available then 1 else 0
  {
    assert (log + [e])[..|log|] == log;
  }

  lemma {:induction false} NoOutcomes(log: seq<Event>, serial: nat, period: nat)
    requires forall e :: e in log ==> !(IsOutcomeOf(e, serial) && e.period == period)
    ensures PeriodSuccesses(log, serial, period) == 0
    ensures (forall e :: e in log ==> !IsOutcomeOf(e, serial)) ==> OutcomesOf(log, serial) == []
    decreases |log|
  {
    if log != [] {
      var front, last := log[..|log| - 1], log[|log| - 1];
      assert log == front + [last] && last in log;
      NoOutcomes(front, serial, period);
    }
  }

  // ---- what holds of each circuit ----

  /** A circuit is closed until enough calls in a row have failed, and half-open until enough have succeeded in the
      period it is in; its counters count exactly that. */
  ghost predicate Told(cfg: Config, c: Circuit, log: seq<Event>) {
    var outcomes := OutcomesOf(log, c.serial);
    && (c.state.Closed? <==> !Streak(outcomes, AtLeastOne(cfg.failureThreshold)))
    && (c.state.Closed? ==> c.failures == Trailing(outcomes))
    && (c.state.HalfOpen? ==>
          c.successes == PeriodSuccesses(log, c.serial, c.period) < AtLeastOne(cfg.successThreshold))
    && (forall e :: e in log && IsOutcomeOf(e, c.serial) ==> e.period <= c.period)
  }

  ghost predicate AllTold(cfg: Config, s: System) {
    && WellFormed(s.t)
    && (forall k :: k in s.t.circuits ==> Told(cfg, s.t.circuits[k], s.log))
    && (forall e :: e in s.log ==> e.serial < s.t.nextSerial)
  }

  lemma NoStreak(n: nat)
    requires n >= 1
    ensures !Streak([], n)
  {
  }

  lemma FreshTold(cfg: Config, serial: nat, log: seq<Event>)
    requires forall e :: e in log ==> e.serial < serial
    ensures Told(cfg, Fresh(serial), log)
  {
    NoOutcomes(log, serial, 0);
    NoStreak(AtLeastOne(cfg.failureThreshold));
  }

  /** An event that is no outcome of the circuit. */
  lemma OtherTold(cfg: Config, c: Circuit, log: seq<Event>, e: Event)
    requires Told(cfg, c, log) && !IsOutcomeOf(e, c.serial)
    ensures Told(cfg, c, log + [e])
  {
    LogGrows(log, e, c.serial, c.period);
    assert OutcomesOf(log, c.serial) + [] == OutcomesOf(log, c.serial);
  }

  lemma EnsureTold(cfg: Config, s: System, key: string)
    requires AllTold(cfg, s)
    ensures AllTold(cfg, s.(t := Ensure(s.t, key)))
  {
    EnsureOk(s.t, key);
    hide Told, Ensure, WellFormed;
    if key !in s.t.circuits {
      FreshTold(cfg, s.t.nextSerial, s.log);
      assert Ensure(s.t, key).nextSerial >= s.t.nextSerial;
    }
  }

  lemma CoolTold(cfg: Config, s: System, key: string)
    requires AllTold(cfg, s)
    ensures AllTold(cfg, s.(t := Cool(s.t, key, s.now)))
  {
    hide Streak, Trailing, OutcomesOf, PeriodSuccesses;
    CoolOk(s.t, key, s.now);
    var u := Cool(s.t, key, s.now);
    if key in s.t.circuits {
      var c := s.t.circuits[key];
      assert Told(cfg, c, s.log);
      NoOutcomes(s.log, c.serial, c.period + 1);
    }
  }

  lemma DeleteTold(cfg: Config, s: System, key: string)
    requires AllTold(cfg, s)
    ensures AllTold(cfg, s.(t := Delete(s.t, key)))
  {
    hide Told;
    DeleteOk(s.t, key);
  }

  /** The circuit of a key changes, and perhaps its log grows by an event of its own. */
  lemma PutTold(cfg: Config, s: System, key: string, c: Circuit, e: Event)
    requires AllTold(cfg, s) && key in s.t.circuits && c.serial == s.t.circuits[key].serial == e.serial
    requires Told(cfg, c, s.log + [e])
    ensures AllTold(cfg, s.(t := Put(s.t, key, c), log := s.log + [e]))
  {
    hide Told;
    ReplaceOk(s.t, key, c);
    forall k | k in s.t.circuits && k != key
      ensures Told(cfg, s.t.circuits[k], s.log + [e])
    {
      OtherTold(cfg, s.t.circuits[k], s.log, e);
    }
  }

  lemma SlotTold(cfg: Config, s: System, key: string, c: Circuit)
    requires AllTold(cfg, s) && key in s.t.circuits
    requires var d := s.t.circuits[key]; c == d.(trialInFlight := c.trialInFlight)
    ensures AllTold(cfg, s.(t := Put(s.t, key, c)))
  {
    ReplaceOk(s.t, key, c);
    assert Told(cfg, s.t.circuits[key], s.log);
  }

  lemma EventTold(cfg: Config, s: System, e: Event)
    requires AllTold(cfg, s) && !e.Outcome? && e.serial < s.t.nextSerial
    ensures AllTold(cfg, s.(log := s.log + [e]))
  {
    hide Told;
    forall k | k in s.t.circuits
      ensures Told(cfg, s.t.circuits[k], s.log + [e])
    {
      OtherTold(cfg, s.t.circuits[k], s.log, e);
    }
  }

  // ---- calls end ----

  /** The event a call's end is logged by. */
  function OutcomeAt(c: Circuit, now: int, available: bool): Event {
    Outcome(c.serial, now, c.period, available)
  }

  /** One more outcome of a circuit, seen by its counts. */
  lemma Heard(cfg: Config, c: Circuit, log: seq<Event>, now: int, available: bool)
    requires Told(cfg, c, log)
    ensures var more := log + [OutcomeAt(c, now, available)];
            var n := AtLeastOne(cfg.failureThreshold);
            var outcomes := OutcomesOf(more, c.serial);
            && Trailing(outcomes) == (if available then 0 else Trailing(OutcomesOf(log, c.serial)) + 1)
            && (Streak(outcomes, n) <==> !c.state.Closed? || n <= Trailing(outcomes))
            && PeriodSuccesses(more, c.serial, c.period)
               == PeriodSuccesses(log, c.serial, c.period) + (if available then 1 else 0)
            && (forall e :: e in more && IsOutcomeOf(e, c.serial) ==> e.period <= c.period)
  {
    hide Streak, OutcomesOf, PeriodSuccesses, EndsInFailures;
    var n := AtLeastOne(cfg.failureThreshold);
    var before := OutcomesOf(log, c.serial);
    LogGrows(log, OutcomeAt(c, now, available), c.serial, c.period);
    var outcomes := before + [available];
    assert outcomes[..|before|] == before;
    StreakGrows(before, available, n);
    TrailingIs(outcomes, n);
  }

  lemma SuccessTold(cfg: Config, s: System, key: string)
    requires AllTold(cfg, s)
    ensures AllTold(cfg, s.(t := RecordSuccess(cfg, s.t, key), log := s.log + Logged(cfg, s, key, true)))
  {
    EnsureTold(cfg, s, key);
    EnsureOk(s.t, key);
    var v := s.(t := Ensure(s.t, key));
    var c := v.t.circuits[key];
    assert Told(cfg, c, s.log);
    Heard(cfg, c, s.log, s.now, true);
    hide Streak, Trailing, OutcomesOf, PeriodSuccesses, Put, Delete, Ensure;
    var e := OutcomeAt(c, s.now, true);
    assert s.log + Logged(cfg, s, key, true) == s.log + [e];
    if c.state.HalfOpen? {
      var d := c.(successes := c.successes + 1);
      if d.successes >= cfg.successThreshold {
        DeleteThenLog(cfg, v, key, e);
      } else {
        PutTold(cfg, v, key, d, e);
      }
    } else {
      PutTold(cfg, v, key, c.(failures := 0), e);
    }
  }

  lemma DeleteThenLog(cfg: Config, s: System, key: string, e: Event)
    requires AllTold(cfg, s) && key in s.t.circuits && e.serial == s.t.circuits[key].serial
    ensures AllTold(cfg, s.(t := Delete(s.t, key), log := s.log + [e]))
  {
    hide Told;
    DeleteTold(cfg, s, key);
    DeleteOk(s.t, key);
    var u := Delete(s.t, key);
    forall k | k in u.circuits
      ensures Told(cfg, u.circuits[k], s.log + [e])
    {
      OtherTold(cfg, s.t.circuits[k], s.log, e);
    }
  }

  /** What recording a failure makes of the circuit. */
  lemma FailureGives(cfg: Config, t: Table, key: string, now: int)
    requires WellFormed(t)
    ensures key in Ensure(t, key).circuits && key in RecordFailure(cfg, t, key, now).circuits
    ensures var c, d := Ensure(t, key).circuits[key], RecordFailure(cfg, t, key, now).circuits[key];
            && RecordFailure(cfg, t, key, now) == Put(Ensure(t, key), key, d)
            && d.serial == c.serial && d.period == c.period && !d.state.HalfOpen?
            && (c.state.HalfOpen? ==> d.state.Open?)
            && (!c.state.HalfOpen? ==>
                  && d.failures == c.failures + 1
                  && d.state == if c.failures + 1 >= cfg.failureThreshold then Open else c.state)
  {
    EnsureOk(t, key);
  }

  lemma FailedTold(cfg: Config, c: Circuit, d: Circuit, log: seq<Event>, now: int)
    requires Told(cfg, c, log) && d.serial == c.serial && d.period == c.period && !d.state.HalfOpen?
    requires c.state.HalfOpen? ==> d.state.Open?
    requires !c.state.HalfOpen? ==>
               && d.failures == c.failures + 1
               && d.state == if c.failures + 1 >= cfg.failureThreshold then Open else c.state
    ensures Told(cfg, d, log + [OutcomeAt(c, now, false)])
  {
    Heard(cfg, c, log, now, false);
    hide Streak, Trailing, OutcomesOf, PeriodSuccesses;
  }

  lemma FailureTold(cfg: Config, s: System, key: string)
    requires AllTold(cfg, s)
    ensures AllTold(cfg, s.(t := RecordFailure(cfg, s.t, key, s.now), log := s.log + Logged(cfg, s, key, false)))
  {
    hide Told, RecordFailure, Delete, Ensure, Put;
    EnsureTold(cfg, s, key);
    FailureGives(cfg, s.t, key, s.now);
    var v := s.(t := Ensure(s.t, key));
    var c, d := v.t.circuits[key], RecordFailure(cfg, s.t, key, s.now).circuits[key];
    var e := OutcomeAt(c, s.now, false);
    FailedTold(cfg, c, d, s.log, s.now);
    PutTold(cfg, v, key, d, e);
    ReplaceOk(v.t, key, d);
    EventTold(cfg, v.(t := Put(v.t, key, d), log := s.log + [e]), Opened(c.serial, s.now));
    assert s.log + [e] + [Opened(c.serial, s.now)] == s.log + ([e] + [Opened(c.serial, s.now)]);
    assert s.log + ([e] + []) == s.log + [e];
  }

  lemma LeaveTold(cfg: Config, s: System, call: nat, available: bool)
    requires AllTold(cfg, s) && call < |s.calls|
    ensures AllTold(cfg, Step(cfg, s, Leave(call, available)))
  {
    var ticket := s.calls[call];
    if available {
      SuccessTold(cfg, s, ticket.key);
    } else {
      FailureTold(cfg, s, ticket.key);
    }
    hide Told, RecordSuccess, RecordFailure, Logged;
    var t := if available then RecordSuccess(cfg, s.t, ticket.key) else RecordFailure(cfg, s.t, ticket.key, s.now);
    var u := s.(t := t, log := s.log + Logged(cfg, s, ticket.key, available));
    if ticket.holdingTrial && ticket.key in t.circuits && t.circuits[ticket.key].serial == ticket.serial {
      SlotTold(cfg, u, ticket.key, t.circuits[ticket.key].(trialInFlight := false));
    }
  }

  lemma EnterTold(cfg: Config, s: System, key: string)
    requires AllTold(cfg, s)
    ensures AllTold(cfg, Step(cfg, s, Enter(key)))
  {
    hide Told, Cool, Ensure, Put;
    CoolTold(cfg, s, key);
    CoolOk(s.t, key, s.now);
    var cooled := s.(t := Cool(s.t, key, s.now));
    EnsureTold(cfg, cooled, key);
    EnsureOk(cooled.t, key);
    var v := s.(t := Ensure(cooled.t, key));
    var c := v.t.circuits[key];
    var (u, ticket) := Begin(s.t, key, s.now);
    if ticket.Some? {
      SlotTold(cfg, v, key, c.(trialInFlight := true));
      var w := s.(t := u);
      assert AllTold(cfg, w);
      ReplaceOk(v.t, key, c.(trialInFlight := true));
      EventTold(cfg, w, Entry(u, ticket.value, s.now));
    }
  }

  lemma StepTold(cfg: Config, s: System, a: Action)
    requires AllTold(cfg, s) && Enabled(s, a)
    ensures AllTold(cfg, Step(cfg, s, a))
  {
    hide Told;
    match a {
      case Tick(_) =>
      case Enter(key) => EnterTold(cfg, s, key);
      case Leave(call, available) => LeaveTold(cfg, s, call, available);
      case Observe(key) => CoolTold(cfg, s, key);
      case Reset(key) => DeleteTold(cfg, s, key);
      case ResetAll =>
    }
  }

  lemma {:induction false} RunTold(cfg: Config, s: System, trace: seq<Action>, t: System)
    requires AllTold(cfg, s) && Run(cfg, s, trace, t)
    ensures AllTold(cfg, t)
    decreases |trace|
  {
    if trace != [] {
      StepTold(cfg, s, trace[0]);
      RunTold(cfg, Step(cfg, s, trace[0]), trace[1..], t);
    }
  }

  /** In every run and with any thresholds: a circuit in the table is closed exactly while its calls have not failed
      `failureThreshold` times in a row, and counts the failures since its last success; half-open, it counts the
      successes of its period, fewer than `successThreshold`. */
  lemma OutcomesDecide(cfg: Config, now: int, trace: seq<Action>, s: System)
    ensures Run(cfg, Start(now), trace, s) ==>
              forall k :: k in s.t.circuits ==> Told(cfg, s.t.circuits[k], s.log)
  {
    if Run(cfg, Start(now), trace, s) {
      RunTold(cfg, Start(now), trace, s);
    }
  }

  // ---- one call ----

  lemma OutcomeLogged(cfg: Config, s: System, call: nat, available: bool)
    requires WellFormed(s.t) && call < |s.calls|
    ensures var key := s.calls[call].key;
            var c := Ensure(s.t, key).circuits[key];
            var log := Step(cfg, s, Leave(call, available)).log;
            && OutcomesOf(log, c.serial) == OutcomesOf(s.log, c.serial) + [available]
            && PeriodSuccesses(log, c.serial, c.period)
               == PeriodSuccesses(s.log, c.serial, c.period) + if available then 1 else 0
  {
    hide RecordFailure, Ensure, OutcomesOf, PeriodSuccesses;
    var key := s.calls[call].key;
    EnsureOk(s.t, key);
    var c := Ensure(s.t, key).circuits[key];
    var e, more := OutcomeAt(c, s.now, available), s.log + [OutcomeAt(c, s.now, available)];
    LogGrows(s.log, e, c.serial, c.period);
    LogGrows(more, Opened(c.serial, s.now), c.serial, c.period);
    assert more + [Opened(c.serial, s.now)] == s.log + ([e] + [Opened(c.serial, s.now)]);
    assert s.log + ([e] + []) == more;
    assert OutcomesOf(more, c.serial) + [] == OutcomesOf(more, c.serial);
  }

  /** What the end of a call does to the circuit that records it. */
  lemma EndGives(cfg: Config, t: Table, ticket: Ticket, available: bool, now: int)
    requires WellFormed(t)
    ensures ticket.key in Ensure(t, ticket.key).circuits
    ensures var c, after := Ensure(t, ticket.key).circuits[ticket.key], End(cfg, t, ticket, available, now).circuits;
            && (c.state.Closed? ==>
                  && ticket.key in after && after[ticket.key].serial == c.serial
                  && (if !available && c.failures + 1 >= cfg.failureThreshold
                      then JustOpened(cfg, after[ticket.key], now) else after[ticket.key].state.Closed?))
            && (c.state.HalfOpen? ==>
                  if available then ticket.key !in after <==> c.successes + 1 >= cfg.successThreshold
                  else ticket.key in after && JustOpened(cfg, after[ticket.key], now))
  {
    EnsureOk(t, ticket.key);
    hide Ensure, WellFormed;
  }

  /** At the end of a call, in any run: a closed circuit opens, for the whole cooldown, exactly when the last
      `failureThreshold` of its calls have all failed; a half-open one does when the call failed, and goes away, so
      that the target counts as healthy, exactly when its period has seen `successThreshold` successes. */
  lemma OpensAndClosesIff(cfg: Config, now: int, trace: seq<Action>, s: System, call: nat, available: bool)
    requires Run(cfg, Start(now), trace, s) && WellFormed(s.t) && call < |s.calls|
    ensures var key := s.calls[call].key;
            var c := Ensure(s.t, key).circuits[key];
            var t := Step(cfg, s, Leave(call, available));
            var after := t.t.circuits;
            && (c.state.Closed? ==>
                  && key in after && after[key].serial == c.serial
                  && (after[key].state.Open?
                      <==> EndsInFailures(OutcomesOf(t.log, c.serial), AtLeastOne(cfg.failureThreshold)))
                  && (after[key].state.Closed? || JustOpened(cfg, after[key], s.now)))
            && (c.state.HalfOpen? ==>
                  && (available ==>
                        (key !in after
                         <==> PeriodSuccesses(t.log, c.serial, c.period) >= AtLeastOne(cfg.successThreshold)))
                  && (!available ==> key in after && JustOpened(cfg, after[key], s.now)))
  {
    hide Step, Told, Trailing, Ensure, End;
    RunTold(cfg, Start(now), trace, s);
    var ticket := s.calls[call];
    EndGives(cfg, s.t, ticket, available, s.now);
    EnsureTold(cfg, s, ticket.key);
    var c := Ensure(s.t, ticket.key).circuits[ticket.key];
    assert Told(cfg, c, s.log);
    EndIsStep(cfg, s, call, available);
    OutcomeLogged(cfg, s, call, available);
    CountsTell(cfg, c, s.log, available);
  }

  lemma EndIsStep(cfg: Config, s: System, call: nat, available: bool)
    requires WellFormed(s.t) && call < |s.calls|
    ensures Step(cfg, s, Leave(call, available)).t == End(cfg, s.t, s.calls[call], available, s.now)
  {
    hide End;
  }

  /** The counters of a circuit against its outcomes and one more. */
  lemma CountsTell(cfg: Config, c: Circuit, log: seq<Event>, available: bool)
    requires Told(cfg, c, log)
    ensures c.state.Closed? ==>
              (EndsInFailures(OutcomesOf(log, c.serial) + [available], AtLeastOne(cfg.failureThreshold))
               <==> !available && c.failures + 1 >= cfg.failureThreshold)
    ensures c.state.HalfOpen? ==> c.successes == PeriodSuccesses(log, c.serial, c.period)
  {
    hide Streak, OutcomesOf, PeriodSuccesses, EndsInFailures;
    var more := OutcomesOf(log, c.serial) + [available];
    assert more[..|more| - 1] == OutcomesOf(log, c.serial);
    TrailingIs(more, AtLeastOne(cfg.failureThreshold));
  }

  /** A call gets through exactly when its key has no circuit or a closed one, or one whose cooldown is over or that
      is half-open, and no trial is in flight there. */
  lemma GetsThroughIff(cfg: Config, s: System, key: string)
    requires WellFormed(s.t)
    ensures var t := Step(cfg, s, Enter(key));
            |t.calls| == |s.calls| + 1 <==>
              || key !in s.t.circuits || s.t.circuits[key].state.Closed?
              || (s.t.circuits[key].state.Open? && s.t.circuits[key].openUntil <= s.now)
              || (s.t.circuits[key].state.HalfOpen? && !s.t.circuits[key].trialInFlight)
  {
    hide MakeRoom;
    CoolOk(s.t, key, s.now);
  }
}
