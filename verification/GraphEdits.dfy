/** What adding or removing one node of a graph does to its cycles and levels. */
module GraphEdits {
  import opened Graphs

  /** The arcs of `E` and those into or out of `p`. */
  ghost function Wired(E: set<Arc>, p: Id, sources: set<Id>, targets: set<Id>): set<Arc> {
    E + (set d | d in sources :: Arc(d, p)) + (set f | f in targets :: Arc(p, f))
  }

  ghost predicate Untouched(E: set<Arc>, p: Id) {
    forall e :: e in E ==> e.from != p && e.to != p
  }

  lemma MoreArcs(E: set<Arc>, F: set<Arc>, w: seq<Id>)
    requires E <= F && IsWalk(E, w)
    ensures IsWalk(F, w)
  {
  }

  // ---- a node nothing leaves ----

  /** A walk that never leaves `p` before its last step, and does not end there, avoids it. */
  lemma AvoidsSink(E: set<Arc>, F: set<Arc>, p: Id, w: seq<Id>)
    requires forall e :: e in F ==> e.from != p
    requires forall e :: e in F && e.to != p ==> e in E
    requires IsWalk(F, w) && w[|w| - 1] != p
    ensures IsWalk(E, w)
  {
    forall i | 0 < i < |w| ensures Arc(w[i - 1], w[i]) in E {
      assert Arc(w[i - 1], w[i]) in F;
      if i < |w| - 1 {
        assert Arc(w[i], w[i + 1]) in F;
      }
    }
  }

  /** Arcs into a node that none leaves change no other level, and make no cycle. */
  lemma SinkAside(E: set<Arc>, F: set<Arc>, p: Id)
    requires E <= F
    requires forall e :: e in F ==> e.from != p
    requires forall e :: e in F && e.to != p ==> e in E
    ensures forall n, k: nat :: n != p ==> (WalkEndsAt(F, n, k) <==> WalkEndsAt(E, n, k))
    ensures Acyclic(F) <==> Acyclic(E)
  {
    forall n, k: nat | n != p ensures WalkEndsAt(F, n, k) <==> WalkEndsAt(E, n, k) {
      if WalkEndsAt(F, n, k) {
        var w :| IsWalk(F, w) && |w| == k + 1 && w[k] == n;
        AvoidsSink(E, F, p, w);
      }
      if WalkEndsAt(E, n, k) {
        var w :| IsWalk(E, w) && |w| == k + 1 && w[k] == n;
        MoreArcs(E, F, w);
      }
    }
    if w :| ClosedWalk(F, w) {
      assert Arc(w[0], w[1]) in F;
      AvoidsSink(E, F, p, w);
      assert ClosedWalk(E, w);
    }
    if w :| ClosedWalk(E, w) {
      MoreArcs(E, F, w);
      assert ClosedWalk(F, w);
    }
  }

  // ---- a node wired in ----

  /** A closed walk through `p` can be started there. */
  lemma RotateTo(E: set<Arc>, c: seq<Id>, i: nat) returns (v: seq<Id>)
    requires ClosedWalk(E, c) && i < |c|
    ensures ClosedWalk(E, v) && v[0] == c[i]
  {
    if i == 0 || i == |c| - 1 {
      v := c;
    } else {
      SubWalk(E, c, i, |c|);
      SubWalk(E, c, 0, i + 1);
      JoinWalks(E, c[i..], c[..i + 1]);
      v := c[i..] + c[..i + 1][1..];
      assert c[..i + 1] == c[0..i + 1];
    }
  }

  /** The first return to `p` of a walk that starts and ends there. */
  lemma {:induction false} FirstReturn(v: seq<Id>, p: Id, j: nat) returns (k: nat)
    requires 0 < j < |v| && v[j] == p
    ensures 0 < k <= j && v[k] == p && forall i :: 0 < i < k ==> v[i] != p
    decreases j
  {
    if i :| 0 < i < j && v[i] == p {
      k := FirstReturn(v, p, i);
    } else {
      k := j;
    }
  }

  /** Between leaving the new node and coming back, a walk uses old arcs only. */
  lemma OldBetween(E: set<Arc>, p: Id, sources: set<Id>, targets: set<Id>, v: seq<Id>, k: nat)
    requires Untouched(E, p)
    requires IsWalk(Wired(E, p, sources, targets), v) && 1 < k < |v| && v[0] == p == v[k]
    requires forall i :: 0 < i < k ==> v[i] != p
    ensures v[1] in targets && v[k - 1] in sources && Reachable(E, v[1], v[k - 1])
  {
    var F := Wired(E, p, sources, targets);
    assert Arc(v[0], v[1]) in F && Arc(v[k - 1], v[k]) in F;
    var s := v[1..k];
    forall i | 0 < i < |s| ensures Arc(s[i - 1], s[i]) in E {
      assert s[i - 1] == v[i] && s[i] == v[i + 1];
      assert Arc(v[i], v[i + 1]) in F;
    }
    assert IsWalk(E, s) && s[0] == v[1] && s[|s| - 1] == v[k - 1];
  }

  /** Wiring in a node makes a cycle exactly when it feeds itself, or something that leads back to what it waits for. */
  lemma WiredAcyclicIff(E: set<Arc>, p: Id, sources: set<Id>, targets: set<Id>)
    requires Untouched(E, p)
    ensures Acyclic(Wired(E, p, sources, targets)) <==>
      && Acyclic(E) && p !in sources && p !in targets
      && forall d, f :: d in sources && f in targets ==> !Reachable(E, f, d)
  {
    var F := Wired(E, p, sources, targets);
    if Acyclic(F) {
      WiredNeedsNoWayBack(E, p, sources, targets);
    } else {
      var c :| ClosedWalk(F, c);
      if i :| 0 <= i < |c| && c[i] == p {
        var v := RotateTo(F, c, i);
        var k := FirstReturn(v, p, |v| - 1);
        if k == 1 {
          assert Arc(v[0], v[1]) in F;
        } else {
          OldBetween(E, p, sources, targets, v, k);
        }
      } else {
        forall i | 0 < i < |c| ensures Arc(c[i - 1], c[i]) in E {
          assert Arc(c[i - 1], c[i]) in F;
        }
        assert ClosedWalk(E, c);
      }
    }
  }

  lemma WiredNeedsNoWayBack(E: set<Arc>, p: Id, sources: set<Id>, targets: set<Id>)
    requires Acyclic(Wired(E, p, sources, targets))
    ensures Acyclic(E) && p !in sources && p !in targets
    ensures forall d, f :: d in sources && f in targets ==> !Reachable(E, f, d)
  {
    var F := Wired(E, p, sources, targets);
    if w :| ClosedWalk(E, w) {
      MoreArcs(E, F, w);
      assert ClosedWalk(F, w);
    }
    if p in sources || p in targets {
      assert Arc(p, p) in F;
      assert ClosedWalk(F, [p, p]);
    }
    forall d, f | d in sources && f in targets ensures !Reachable(E, f, d) {
      if Reachable(E, f, d) {
        var w :| IsWalk(E, w) && w[0] == f && w[|w| - 1] == d;
        MoreArcs(E, F, w);
        assert Arc(p, f) in F && Arc(d, p) in F;
        JoinWalks(F, [p, f], w);
        var u := [p, f] + w[1..];
        JoinWalks(F, u, [d, p]);
        assert ClosedWalk(F, u + [d, p][1..]);
      }
    }
  }
}
