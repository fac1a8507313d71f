/** The breaker as the object it is: a map of circuits changed in place by each
    synchronous stretch of its methods. BreakerRuns says what any interleaving of them keeps. */
module BreakerObject {
  import opened Wrappers
  import opened Sequences
  import opened CircuitBreaker

  /** What is left once the first `i` keys have been looked at. */
  ghost predicate Swept(keys: seq<string>, all: map<string, Circuit>, i: nat, left: map<string, Circuit>)
    requires i <= |keys|
  {
    forall k :: if k in left then k in all && left[k] == all[k] && !(k in keys[..i] && Healthy(all[k]))
                else k in all ==> k in keys[..i] && Healthy(all[k])
  }

  lemma SweepOne(keys: seq<string>, all: map<string, Circuit>, i: nat, left: map<string, Circuit>)
    requires i < |keys| && Distinct(keys) && keys[i] in all && Swept(keys, all, i, left)
    ensures keys[i] in left && left[keys[i]] == all[keys[i]]
    ensures Swept(keys, all, i + 1, if Healthy(all[keys[i]]) then left - {keys[i]} else left)
  {
    assert keys[..i + 1] == keys[..i] + [keys[i]];
    assert keys[i] !in keys[..i];
  }

  method Sweep(keys: seq<string>, all: map<string, Circuit>) returns (kept: seq<string>, left: map<string, Circuit>)
    requires Distinct(keys) && forall k :: k in keys <==> k in all
    ensures kept == Unhealthy(keys, all)
    ensures left == map k | k in all && !Healthy(all[k]) :: all[k]
  {
    hide Swept, Unhealthy;
    kept, left := [], all;
    SweepStarts(keys, all);
    for i := 0 to |keys|
      invariant kept + Unhealthy(keys[i..], all) == Unhealthy(keys, all)
      invariant Swept(keys, all, i, left)
    {
      var key := keys[i];
      assert key in keys;
      SweepOne(keys, all, i, left);
      UnhealthyNext(keys, all, i);
      if Healthy(left[key]) { left := left - {key}; } else { kept := kept + [key]; }
    }
    SweepEnds(keys, all, left);
  }

  lemma SweepStarts(keys: seq<string>, all: map<string, Circuit>)
    ensures Swept(keys, all, 0, all) && [] + Unhealthy(keys[0..], all) == Unhealthy(keys, all)
  {
    assert keys[0..] == keys;
  }

  lemma UnhealthyNext(keys: seq<string>, all: map<string, Circuit>, i: nat)
    requires i < |keys| && keys[i] in all
    ensures Unhealthy(keys[i..], all) == (if Healthy(all[keys[i]]) then [] else [keys[i]])
                                        + Unhealthy(keys[i + 1..], all)
  {
    assert keys[i..][1..] == keys[i + 1..];
  }

  lemma SweepEnds(keys: seq<string>, all: map<string, Circuit>, left: map<string, Circuit>)
    requires Swept(keys, all, |keys|, left) && forall k :: k in keys <==> k in all
    ensures left == map k | k in all && !Healthy(all[k]) :: all[k]
    ensures Unhealthy(keys[|keys|..], all) == []
  {
    assert keys[..|keys|] == keys;
  }

  class Breaker {
    const cfg: Config
    var order: seq<string>
    var circuits: map<string, Circuit>
    var nextSerial: nat

    ghost function Now(): Table
      reads this
    {
      Table(order, circuits, nextSerial)
    }

    constructor (cfg: Config)
      ensures this.cfg == cfg && Now() == Table([], map[], 0) && WellFormed(Now())
    {
      this.cfg := cfg;
      order, circuits, nextSerial := [], map[], 0;
    }

    method Store(key: string, c: Circuit)
      modifies this
      ensures Now() == Put(old(Now()), key, c)
    {
      if key !in circuits { order := order + [key]; }
      circuits := circuits[key := c];
    }

    /** `circuits.delete(key)`. */
    method Remove(key: string)
      modifies this
      ensures Now() == Delete(old(Now()), key)
    {
      order := Without(order, key);
      circuits := map k | k in circuits && k != key :: circuits[k];
    }

    /** The eviction loop: forget every circuit that is closed and has no failures. */
    method ForgetHealthy()
      requires WellFormed(Now())
      modifies this
      ensures Now() == DropHealthy(old(Now()))
    {
      var keys := order;
      order, circuits := Sweep(keys, circuits);
    }

    /** `circuit(key)`. */
    method EnsureCircuit(key: string)
      requires WellFormed(Now())
      modifies this
      ensures Now() == Ensure(old(Now()), key) && WellFormed(Now()) && key in circuits
    {
      ghost var t := Now();
      if key !in circuits {
        if |order| >= MAX_CIRCUITS {
          MakeRoomOk(t);
          UnhealthyMembers(order, circuits);
          ForgetHealthy();
          if |order| >= MAX_CIRCUITS {
            Remove(order[0]);
          }
        }
        Store(key, Fresh(nextSerial));
        nextSerial := nextSerial + 1;
      }
      EnsureOk(t, key);
    }

    /** `stateOf(key)`. */
    method StateOf(key: string, now: int) returns (state: CircuitState)
      requires WellFormed(Now())
      modifies this
      ensures Now() == Cool(old(Now()), key, now) && WellFormed(Now())
      ensures state == StateIn(Now(), key)
    {
      CoolOk(Now(), key, now);
      if key !in circuits { return Closed; }
      var c := circuits[key];
      if c.state.Open? && now >= c.openUntil {
        Store(key, c.(state := HalfOpen, successes := 0, trialInFlight := false, period := c.period + 1));
      }
      state := circuits[key].state;
    }

    /** `run` before `await fn()`: a ticket, or `None` where it throws CircuitOpenError. */
    method RunBegins(key: string, now: int) returns (ticket: Option<Ticket>)
      requires WellFormed(Now())
      modifies this
      ensures (Now(), ticket) == Begin(old(Now()), key, now) && WellFormed(Now())
    {
      BeginOk(Now(), key, now);
      var state := StateOf(key, now);
      EnsureCircuit(key);
      var c := circuits[key];
      if state.Open? { return None; }
      if state.HalfOpen? {
        if c.trialInFlight { return None; }
        Store(key, c.(trialInFlight := true));
      }
      ticket := Some(Ticket(key, c.serial, state.HalfOpen?));
    }

    method OnSuccess(key: string)
      requires WellFormed(Now())
      modifies this
      ensures Now() == RecordSuccess(cfg, old(Now()), key) && WellFormed(Now())
    {
      hide WellFormed, Ensure, Put, Delete;
      RecordSuccessOk(cfg, Now(), key);
      EnsureCircuit(key);
      var c := circuits[key];
      if c.state.HalfOpen? {
        if c.successes + 1 >= cfg.successThreshold {
          Remove(key);
        } else {
          Store(key, c.(successes := c.successes + 1));
        }
        return;
      }
      Store(key, c.(failures := 0));
    }

    method OnFailure(key: string, now: int)
      requires WellFormed(Now())
      modifies this
      ensures Now() == RecordFailure(cfg, old(Now()), key, now) && WellFormed(Now())
    {
      hide WellFormed, Ensure, Put;
      RecordFailureOk(cfg, Now(), key, now);
      EnsureCircuit(key);
      var c := circuits[key];
      if c.state.HalfOpen? {
        Store(key, c.(state := Open, openUntil := now + cfg.resetAfterMs, successes := 0));
        return;
      }
      var d := c.(failures := c.failures + 1);
      if d.failures >= cfg.failureThreshold {
        Store(key, d.(state := Open, openUntil := now + cfg.resetAfterMs));
      } else {
        Store(key, d);
      }
    }

    /** `run` after `fn` settled, the `finally` included. */
    method RunEnds(ticket: Ticket, available: bool, now: int)
      requires WellFormed(Now())
      modifies this
      ensures Now() == End(cfg, old(Now()), ticket, available, now) && WellFormed(Now())
    {
      EndOk(cfg, Now(), ticket, available, now);
      if available { OnSuccess(ticket.key); } else { OnFailure(ticket.key, now); }
      if ticket.holdingTrial && ticket.key in circuits && circuits[ticket.key].serial == ticket.serial {
        Store(ticket.key, circuits[ticket.key].(trialInFlight := false));
      }
    }

    method ResetKey(key: string)
      requires WellFormed(Now())
      modifies this
      ensures Now() == Delete(old(Now()), key) && WellFormed(Now())
    {
      DeleteOk(Now(), key);
      Remove(key);
    }
  }
}
