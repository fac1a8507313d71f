/** Sequences without repetitions, and taking one element out of them. */
module Sequences {
  ghost predicate Distinct<T>(s: seq<T>) {
    forall i, j :: 0 <= i < j < |s| ==> s[i] != s[j]
  }

  /** Distinct members of a finite set are no more than its size, and as many only if they are all of it. */
  lemma {:induction false} DistinctWithin(s: seq<string>, V: set<string>)
    requires Distinct(s) && forall n :: n in s ==> n in V
    ensures |s| <= |V|
    ensures (forall n :: n in V ==> n in s) ==> |s| == |V|
  {
    if s != [] {
      var n := s[|s| - 1];
      var front := s[..|s| - 1];
      assert s == front + [n];
      DistinctWithin(front, V - {n});
    } else {
      assert V != {} ==> exists n :: n in V && n !in s;
    }
  }

  /** The keys in order, one of them left out: what deleting it does to the order of a JavaScript Map. */
  function Without(order: seq<string>, key: string): seq<string> {
    if order == [] then [] else (if order[0] == key then [] else [order[0]]) + Without(order[1..], key)
  }

  lemma {:induction false} WithoutMembers(order: seq<string>, key: string)
    requires Distinct(order)
    ensures forall k :: k in Without(order, key) <==> k in order && k != key
    ensures Distinct(Without(order, key))
    ensures |Without(order, key)| == |order| - (if key in order then 1 else 0)
  {
    if order != [] {
      WithoutMembers(order[1..], key);
      assert order == [order[0]] + order[1..];
      assert order[0] !in order[1..];
    }
  }

  lemma Associative<T>(a: seq<T>, b: seq<T>, c: seq<T>)
    ensures a + b + c == a + (b + c)
    ensures a + [] == a && [] + a == a
  {
  }
}
