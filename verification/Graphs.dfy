/** Directed graphs over string ids: walks, levels and cycles. The planner, the
    sub-workflow cycle check and the document edits all speak about these. */
module Graphs {

  type Id = string

  datatype Arc = Arc(from: Id, to: Id)

  /** Consecutive nodes of `w` are joined by arcs of `E`; one node alone is a walk of no arcs. */
  ghost predicate IsWalk(E: set<Arc>, w: seq<Id>) {
    |w| > 0 && forall i {:trigger w[i]} :: 0 < i < |w| ==> Arc(w[i - 1], w[i]) in E
  }

  /** Some walk of exactly `k` arcs ends at `n`. */
  ghost predicate WalkEndsAt(E: set<Arc>, n: Id, k: nat) {
    exists w :: IsWalk(E, w) && |w| == k + 1 && w[k] == n
  }

  /** The longest walk ending at `n` has exactly `k` arcs (see LevelIsLongest). */
  ghost predicate Level(E: set<Arc>, n: Id, k: nat) {
    WalkEndsAt(E, n, k) && !WalkEndsAt(E, n, k + 1)
  }

  ghost predicate ClosedWalk(E: set<Arc>, w: seq<Id>) {
    IsWalk(E, w) && |w| > 1 && w[0] == w[|w| - 1]
  }

  ghost predicate Acyclic(E: set<Arc>) {
    forall w :: !ClosedWalk(E, w)
  }

  ghost predicate Reachable(E: set<Arc>, a: Id, b: Id) {
    exists w :: IsWalk(E, w) && w[0] == a && w[|w| - 1] == b
  }

  /** Every arc starts and ends in `V`. */
  ghost predicate Within(E: set<Arc>, V: set<Id>) {
    forall e :: e in E ==> e.from in V && e.to in V
  }

  /** Every node of `R` has a predecessor inside `R`. */
  ghost predicate BackClosed(E: set<Arc>, R: set<Id>) {
    forall n :: n in R ==> HasPredecessorIn(E, R, n)
  }

  ghost predicate HasPredecessorIn(E: set<Arc>, R: set<Id>, n: Id) {
    exists p :: p in R && Arc(p, n) in E
  }

  // ---- walks ----

  lemma WalkZero(E: set<Arc>, n: Id)
    ensures WalkEndsAt(E, n, 0)
  {
    assert IsWalk(E, [n]);
  }

  lemma JoinWalks(E: set<Arc>, u: seq<Id>, v: seq<Id>)
    requires IsWalk(E, u) && IsWalk(E, v) && u[|u| - 1] == v[0]
    ensures IsWalk(E, u + v[1..])
    ensures (u + v[1..])[0] == u[0]
    ensures (u + v[1..])[|u| + |v| - 2] == v[|v| - 1]
  {
    var w := u + v[1..];
    forall i | 0 < i < |w| ensures Arc(w[i - 1], w[i]) in E {
      if i >= |u| {
        assert w[i] == v[i - |u| + 1];
        assert w[i - 1] == v[i - |u|];
      }
    }
  }

  lemma SubWalk(E: set<Arc>, w: seq<Id>, i: nat, j: nat)
    requires IsWalk(E, w) && i < j <= |w|
    ensures IsWalk(E, w[i..j])
  {
    var s := w[i..j];
    forall k | 0 < k < |s| ensures Arc(s[k - 1], s[k]) in E {
      assert s[k] == w[i + k] && s[k - 1] == w[i + k - 1];
    }
  }

  lemma StepBack(E: set<Arc>, n: Id, k: nat)
    ensures WalkEndsAt(E, n, k + 1) <==> exists p :: Arc(p, n) in E && WalkEndsAt(E, p, k)
  {
    if WalkEndsAt(E, n, k + 1) {
      var w :| IsWalk(E, w) && |w| == k + 2 && w[k + 1] == n;
      SubWalk(E, w, 0, k + 1);
      assert Arc(w[k], n) in E && WalkEndsAt(E, w[k], k);
    }
    if p :| Arc(p, n) in E && WalkEndsAt(E, p, k) {
      var w :| IsWalk(E, w) && |w| == k + 1 && w[k] == p;
      JoinWalks(E, w, [p, n]);
      assert (w + [p, n][1..])[k + 1] == n;
    }
  }

  lemma ShorterWalk(E: set<Arc>, n: Id, j: nat, k: nat)
    requires WalkEndsAt(E, n, k) && j <= k
    ensures WalkEndsAt(E, n, j)
  {
    var w :| IsWalk(E, w) && |w| == k + 1 && w[k] == n;
    SubWalk(E, w, k - j, k + 1);
    assert w[k - j..k + 1][j] == n;
  }

  /** A level is the length of the longest walk ending there, so it is unique. */
  lemma LevelIsLongest(E: set<Arc>, n: Id, k: nat, j: nat)
    requires Level(E, n, k)
    ensures WalkEndsAt(E, n, j) <==> j <= k
  {
    if j <= k {
      ShorterWalk(E, n, j, k);
    } else if WalkEndsAt(E, n, j) {
      ShorterWalk(E, n, k + 1, j);
    }
  }

  /** Levels rise strictly along every walk with an arc. */
  lemma LevelRises(E: set<Arc>, w: seq<Id>, j: nat, k: nat)
    requires IsWalk(E, w) && |w| > 1
    requires Level(E, w[0], j) && Level(E, w[|w| - 1], k)
    ensures j < k
  {
    var u :| IsWalk(E, u) && |u| == j + 1 && u[j] == w[0];
    JoinWalks(E, u, w);
    var n := w[|w| - 1];
    assert WalkEndsAt(E, n, j + |w| - 1);
    LevelIsLongest(E, n, k, j + |w| - 1);
  }

  // ---- cycles ----

  /** Inside a back-closed set there are walks of every length. */
  lemma {:induction false} BackClosedWalks(E: set<Arc>, R: set<Id>, n: Id, k: nat)
    requires BackClosed(E, R) && n in R
    ensures WalkEndsAt(E, n, k)
    decreases k
  {
    WalkZero(E, n);
    if k > 0 {
      assert HasPredecessorIn(E, R, n);
      var p :| p in R && Arc(p, n) in E;
      BackClosedWalks(E, R, p, k - 1);
      StepBack(E, n, k - 1);
    }
  }

  lemma ClosedWalkIsBackClosed(E: set<Arc>, w: seq<Id>)
    requires ClosedWalk(E, w)
    ensures BackClosed(E, (set n | n in w))
  {
    forall n | n in w ensures HasPredecessorIn(E, (set m | m in w), n) {
      var i :| 0 <= i < |w| && w[i] == n;
      var j := if i == 0 then |w| - 1 else i;
      assert Arc(w[j - 1], w[j]) in E && w[j - 1] in w;
    }
  }

  /** A sequence longer than the set it is drawn from repeats an element. */
  lemma {:induction false} Pigeonhole(V: set<Id>, w: seq<Id>)
    requires (forall i :: 0 <= i < |w| ==> w[i] in V) && |w| > |V|
    ensures exists i, j :: 0 <= i < j < |w| && w[i] == w[j]
    decreases |w|
  {
    var last := w[|w| - 1];
    var front := w[..|w| - 1];
    if last in front {
      var i :| 0 <= i < |front| && front[i] == last;
      assert w[i] == w[|w| - 1];
    } else {
      forall i | 0 <= i < |front| ensures front[i] in V - {last} {
        assert front[i] == w[i];
      }
      Pigeonhole(V - {last}, front);
      var i, j :| 0 <= i < j < |front| && front[i] == front[j];
      assert w[i] == w[j];
    }
  }

  /** A finite graph has no cycle exactly when no node ends arbitrarily long walks. */
  lemma AcyclicIffBounded(E: set<Arc>, V: set<Id>)
    requires Within(E, V)
    ensures Acyclic(E) <==> forall n :: n in V ==> exists k: nat :: !WalkEndsAt(E, n, k)
  {
    if w :| ClosedWalk(E, w) {
      ClosedWalkIsBackClosed(E, w);
      var n := w[0];
      assert Arc(w[0], w[1]) in E;
      forall k: nat ensures WalkEndsAt(E, n, k) {
        BackClosedWalks(E, (set m | m in w), n, k);
      }
      assert n in V;
    }
    if n :| n in V && forall k: nat :: WalkEndsAt(E, n, k) {
      assert WalkEndsAt(E, n, |V|);
      var w :| IsWalk(E, w) && |w| == |V| + 1 && w[|V|] == n;
      forall i | 0 <= i < |w| ensures w[i] in V {
        if i > 0 {
          assert Arc(w[i - 1], w[i]) in E;
        } else if |w| > 1 {
          assert Arc(w[0], w[1]) in E;
        }
      }
      Pigeonhole(V, w);
      var i, j :| 0 <= i < j < |w| && w[i] == w[j];
      SubWalk(E, w, i, j + 1);
      assert ClosedWalk(E, w[i..j + 1]);
    }
  }
}
