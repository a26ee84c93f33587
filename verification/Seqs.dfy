/** Facts about sequences and finite sets that several components need. */
module Seqs {

  datatype Option<+T> = None | Some(value: T)

  ghost predicate NoDuplicates<T>(s: seq<T>) {
    forall i, j :: 0 <= i < j < |s| ==> s[i] != s[j]
  }

  ghost predicate Below(s: seq<nat>, n: nat) {
    forall i :: 0 <= i < |s| ==> s[i] < n
  }

  /** `order` lists every element of `keys` exactly once: one possible iteration order of a hash table. */
  ghost predicate Enumerates<T>(order: seq<T>, keys: set<T>) {
    && NoDuplicates(order)
    && keys == (set k | k in order)
  }

  /** The iteration order of a hash table: callers learn only that it is some enumeration of the keys. */
  method SomeOrder<T(==)>(keys: set<T>) returns (order: seq<T>)
    ensures Enumerates(order, keys)
  {
    order := [];
    var rest := keys;
    while rest != {}
      invariant rest <= keys
      invariant NoDuplicates(order)
      invariant forall k :: k in order <==> k in keys && k !in rest
      decreases rest
    {
      var k :| k in rest;
      order := order + [k];
      rest := rest - {k};
    }
  }

  lemma {:induction false} DistinctBelowBound(s: seq<nat>, n: nat)
    requires NoDuplicates(s)
    requires Below(s, n)
    ensures |s| <= n
  {
    if s == [] { return; }
    assert s[0] < n;
    if exists i :: 0 <= i < |s| && s[i] == n - 1 {
      var i :| 0 <= i < |s| && s[i] == n - 1;
      var t := s[..i] + s[i + 1..];
      DistinctBelowBound(t, n - 1);
    } else {
      DistinctBelowBound(s, n - 1);
    }
  }

  /** A list of `n` distinct numbers below `n` contains each of them. */
  lemma DistinctFillsRange(s: seq<nat>, n: nat, x: nat)
    requires NoDuplicates(s) && |s| == n && x < n
    requires Below(s, n)
    ensures x in s
  {
    if x !in s {
      DistinctBelowBound(s + [x], n);
    }
  }

  lemma {:induction false} CoveringNeedsLength(s: seq<nat>, n: nat)
    requires forall x: nat :: x < n ==> x in s
    ensures |s| >= n
  {
    if n > 0 {
      assert n - 1 in s;
      var i :| 0 <= i < |s| && s[i] == n - 1;
      var t := s[..i] + s[i + 1..];
      forall x: nat | x < n - 1 ensures x in t {
        assert x in s;
        var j :| 0 <= j < |s| && s[j] == x;
        assert t[if j < i then j else j - 1] == x;
      }
      CoveringNeedsLength(t, n - 1);
    }
  }
}
