/** The order `Array.prototype.sort` puts ids in, and sorting by it. */
module Sorting {
  import opened Sequences

  predicate Less(a: string, b: string) {
    if a == [] || b == [] then a == [] && b != []
    else if a[0] == b[0] then Less(a[1..], b[1..])
    else a[0] < b[0]
  }

  predicate DifferAt(a: string, b: string, k: nat) {
    k < |a| && k < |b| && a[..k] == b[..k] && a[k] < b[k]
  }

  lemma FirstAlike(a: string, b: string, k: nat)
    requires 0 < k <= |a| && k <= |b| && a[..k] == b[..k]
    ensures a[0] == b[0]
  {
    assert a[0] == a[..k][0] && b[0] == b[..k][0];
  }

  /** One id comes before another when the other continues it, or has the greater character where they first differ. */
  lemma {:induction false} LessIff(a: string, b: string)
    ensures Less(a, b) <==> (a <= b && a != b) || exists k: nat :: DifferAt(a, b, k)
    decreases |a|
  {
    if a != [] && b != [] && a[0] == b[0] {
      var c, d := a[1..], b[1..];
      assert a == [a[0]] + c && b == [b[0]] + d;
      LessIff(c, d);
      assert a <= b <==> c <= d;
      if k: nat :| DifferAt(c, d, k) {
        assert a[..k + 1] == [a[0]] + c[..k] && b[..k + 1] == [b[0]] + d[..k];
        assert DifferAt(a, b, k + 1);
      }
      if k: nat :| DifferAt(a, b, k) {
        assert k > 0 && a[..k] == [a[0]] + c[..k - 1] && b[..k] == [b[0]] + d[..k - 1];
        assert c[..k - 1] == a[..k][1..] && d[..k - 1] == b[..k][1..];
        assert DifferAt(c, d, k - 1);
      }
    } else if a != [] && b != [] {
      if k: nat :| DifferAt(a, b, k) {
        if k > 0 {
          FirstAlike(a, b, k);
        }
      }
      assert a[0] < b[0] ==> DifferAt(a, b, 0);
    }
  }

  lemma {:induction false} LessTotal(a: string, b: string)
    ensures Less(a, b) || a == b || Less(b, a)
    ensures !(Less(a, b) && Less(b, a))
    ensures !Less(a, a)
  {
    LessSelf(a);
    if a != [] && b != [] && a[0] == b[0] {
      LessTotal(a[1..], b[1..]);
      assert a == [a[0]] + a[1..] && b == [b[0]] + b[1..];
    }
  }

  lemma {:induction false} LessSelf(a: string)
    ensures !Less(a, a)
  {
    if a != [] {
      LessSelf(a[1..]);
    }
  }

  lemma {:induction false} LessTransitive(a: string, b: string, c: string)
    requires Less(a, b) && Less(b, c)
    ensures Less(a, c)
  {
    if a != [] && a[0] == b[0] == c[0] {
      LessTransitive(a[1..], b[1..], c[1..]);
    }
  }

  ghost predicate StrictlySorted(s: seq<string>) {
    forall i, j :: 0 <= i < j < |s| ==> Less(s[i], s[j])
  }

  function Insert(x: string, s: seq<string>): (r: seq<string>)
    requires StrictlySorted(s) && x !in s
    ensures StrictlySorted(r) && |r| == |s| + 1
    ensures forall y :: y in r <==> y == x || y in s
  {
    if s == [] then [x]
    else if Less(x, s[0]) then
      assert forall i :: 0 < i < |s| ==> Less(x, s[i]) by {
        forall i | 0 < i < |s| ensures Less(x, s[i]) { LessTransitive(x, s[0], s[i]); }
      }
      [x] + s
    else
      LessTotal(x, s[0]);
      var t := Insert(x, s[1..]);
      assert forall y :: y in t ==> Less(s[0], y);
      [s[0]] + t
  }

  /** Distinct ids in increasing order. */
  function Sort(s: seq<string>): (r: seq<string>)
    requires Distinct(s)
    ensures StrictlySorted(r) && |r| == |s|
    ensures forall y :: y in r <==> y in s
  {
    if s == [] then [] else
      Insert(s[0], Sort(s[1..]))
  }

  lemma TailMembers(s: seq<string>)
    requires StrictlySorted(s) && s != []
    ensures forall y :: y in s[1..] <==> y in s && y != s[0]
  {
    LessSelf(s[0]);
    assert s == [s[0]] + s[1..];
    forall y | y in s[1..] ensures y != s[0] {
      var i :| 1 <= i < |s| && s[i] == y;
      assert Less(s[0], s[i]);
    }
  }

  /** A strictly sorted sequence is determined by the set of its elements. */
  lemma {:induction false} SortedUnique(s: seq<string>, t: seq<string>)
    requires StrictlySorted(s) && StrictlySorted(t)
    requires forall y :: y in s <==> y in t
    ensures s == t
    decreases |s|
  {
    assert t != [] ==> t[0] in s;
    if s != [] {
      assert s[0] in t;
      assert t[0] in s;
      LessTotal(s[0], t[0]);
      assert s[0] == t[0];
      TailMembers(s);
      TailMembers(t);
      SortedUnique(s[1..], t[1..]);
    }
  }

  lemma SortedIsDistinct(s: seq<string>)
    requires StrictlySorted(s)
    ensures Distinct(s)
  {
    forall i, j | 0 <= i < j < |s| ensures s[i] != s[j] {
      LessSelf(s[i]);
    }
  }
}
