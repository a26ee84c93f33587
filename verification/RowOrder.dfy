/** A sort order read as a lexicographic comparator of rows, and what reversal does to sorted results. */
module RowOrder {
  import opened Seqs
  import opened OrderBy

  /**
   * How rows are read: the value of a field, and the order on values. Rows and values are opaque.
   */
  datatype Table<!R(!new), !V(!new)> = Table(get: (R, string) -> V, less: (V, V) -> bool) {

    ghost predicate ValuesOrdered() {
      && (forall x :: !less(x, x))
      && (forall x, y :: less(x, y) || x == y || less(y, x))
      && (forall x, y, z :: less(x, y) && less(y, z) ==> less(x, z))
    }
  }

  /** Row `a` comes strictly before row `b`: the first key on which they differ decides. */
  ghost predicate Before<R(!new), V(!new)>(t: Table<R, V>, keys: seq<OrderKey>, a: R, b: R) {
    keys != [] &&
    var x, y := t.get(a, keys[0].field), t.get(b, keys[0].field);
    if x == y then Before(t, keys[1..], a, b)
    else if keys[0].dir == Asc then t.less(x, y) else t.less(y, x)
  }

  /** Some key field tells the two rows apart. */
  ghost predicate Differ<R(!new), V(!new)>(t: Table<R, V>, keys: seq<OrderKey>, a: R, b: R) {
    exists i :: 0 <= i < |keys| && t.get(a, keys[i].field) != t.get(b, keys[i].field)
  }

  lemma {:induction false} BeforeIrreflexive<R(!new), V(!new)>(t: Table<R, V>, keys: seq<OrderKey>, a: R)
    ensures !Before(t, keys, a, a)
  {
    if keys != [] { BeforeIrreflexive(t, keys[1..], a); }
  }

  lemma {:induction false} BeforeTransitive<R(!new), V(!new)>(t: Table<R, V>, keys: seq<OrderKey>, a: R, b: R, c: R)
    requires t.ValuesOrdered() && Before(t, keys, a, b) && Before(t, keys, b, c)
    ensures Before(t, keys, a, c)
  {
    var x, y, z := t.get(a, keys[0].field), t.get(b, keys[0].field), t.get(c, keys[0].field);
    if x == y && y == z { BeforeTransitive(t, keys[1..], a, b, c); }
  }

  lemma {:induction false} BeforeConnected<R(!new), V(!new)>(t: Table<R, V>, keys: seq<OrderKey>, a: R, b: R)
    requires t.ValuesOrdered() && Differ(t, keys, a, b)
    ensures Before(t, keys, a, b) || Before(t, keys, b, a)
  {
    var i :| 0 <= i < |keys| && t.get(a, keys[i].field) != t.get(b, keys[i].field);
    if t.get(a, keys[0].field) == t.get(b, keys[0].field) {
      assert keys[1..][i - 1] == keys[i];
      BeforeConnected(t, keys[1..], a, b);
    }
  }

  ghost predicate UniqueField<R(!new), V(!new)>(t: Table<R, V>, rows: set<R>, field: string) {
    forall a, b :: a in rows && b in rows && a != b ==> t.get(a, field) != t.get(b, field)
  }

  ghost predicate StrictTotalOn<R(!new), V(!new)>(t: Table<R, V>, keys: seq<OrderKey>, rows: set<R>) {
    && (forall a :: a in rows ==> !Before(t, keys, a, a))
    && (forall a, b, c :: a in rows && b in rows && c in rows && Before(t, keys, a, b) && Before(t, keys, b, c) ==>
          Before(t, keys, a, c))
    && (forall a, b :: a in rows && b in rows && a != b ==> Before(t, keys, a, b) || Before(t, keys, b, a))
  }

  lemma {:induction false} BeforeMeansDiffer<R(!new), V(!new)>(t: Table<R, V>, keys: seq<OrderKey>, a: R, b: R)
    requires Before(t, keys, a, b)
    ensures Differ(t, keys, a, b)
  {
    if t.get(a, keys[0].field) == t.get(b, keys[0].field) {
      BeforeMeansDiffer(t, keys[1..], a, b);
      var i :| 0 <= i < |keys[1..]| && t.get(a, keys[1..][i].field) != t.get(b, keys[1..][i].field);
      assert keys[1..][i] == keys[i + 1];
    }
  }

  /** An order is strict and total on a set of rows exactly when its fields tell any two of them apart. */
  lemma TotalIffDistinguishing<R(!new), V(!new)>(t: Table<R, V>, keys: seq<OrderKey>, rows: set<R>)
    requires t.ValuesOrdered()
    ensures StrictTotalOn(t, keys, rows) <==> forall a, b :: a in rows && b in rows && a != b ==> Differ(t, keys, a, b)
  {
    forall a, b | a in rows && b in rows && Before(t, keys, a, b) ensures Differ(t, keys, a, b) && Differ(t, keys, b, a) {
      BeforeMeansDiffer(t, keys, a, b);
    }
    forall a | a in rows ensures !Before(t, keys, a, a) { BeforeIrreflexive(t, keys, a); }
    forall a, b, c | a in rows && b in rows && c in rows && Before(t, keys, a, b) && Before(t, keys, b, c)
      ensures Before(t, keys, a, c)
    {
      BeforeTransitive(t, keys, a, b, c);
    }
    forall a, b | a in rows && b in rows && Differ(t, keys, a, b) ensures Before(t, keys, a, b) || Before(t, keys, b, a) {
      BeforeConnected(t, keys, a, b);
    }
  }

  /** With a tiebreaker whose values are unique, whatever order it completes becomes a strict total order. */
  lemma TiebreakerMakesTotal<R(!new), V(!new)>(t: Table<R, V>, keys: seq<OrderKey>, field: string, dir: SortDir, rows: set<R>)
    requires t.ValuesOrdered() && UniqueField(t, rows, field)
    ensures StrictTotalOn(t, EnsureTiebreaker(keys, field, dir), rows)
  {
    var full := EnsureTiebreaker(keys, field, dir);
    assert exists i :: 0 <= i < |full| && full[i].field == field by {
      if full != keys { assert full[|keys|].field == field; }
    }
    forall a, b | a in rows && b in rows && a != b ensures Differ(t, full, a, b) {}
    TotalIffDistinguishing(t, full, rows);
  }

  lemma {:induction false} BeforeAppend<R(!new), V(!new)>(t: Table<R, V>, keys: seq<OrderKey>, k: OrderKey, a: R, b: R)
    ensures Before(t, keys + [k], a, b) <==>
              if Differ(t, keys, a, b) then Before(t, keys, a, b) else Before(t, [k], a, b)
  {
    if keys == [] {
      assert keys + [k] == [k];
    } else {
      assert (keys + [k])[1..] == keys[1..] + [k];
      BeforeAppend(t, keys[1..], k, a, b);
      if t.get(a, keys[0].field) == t.get(b, keys[0].field) { DifferBelow(t, keys, a, b); }
    }
  }

  lemma DifferBelow<R(!new), V(!new)>(t: Table<R, V>, keys: seq<OrderKey>, a: R, b: R)
    requires keys != [] && t.get(a, keys[0].field) == t.get(b, keys[0].field)
    ensures Differ(t, keys, a, b) <==> Differ(t, keys[1..], a, b)
  {
    if Differ(t, keys, a, b) {
      var i :| 0 <= i < |keys| && t.get(a, keys[i].field) != t.get(b, keys[i].field);
      assert keys[1..][i - 1] == keys[i];
    }
  }

  /** The tiebreaker decides only between rows that the order itself leaves tied. */
  lemma TiebreakerOnlyBreaksTies<R(!new), V(!new)>(
    t: Table<R, V>, keys: seq<OrderKey>, field: string, dir: SortDir, a: R, b: R)
    ensures Before(t, EnsureTiebreaker(keys, field, dir), a, b) <==>
              if Differ(t, keys, a, b) then Before(t, keys, a, b) else Before(t, [OrderKey(field, dir)], a, b)
  {
    BeforeAppend(t, keys, OrderKey(field, dir), a, b);
    if Before(t, keys, a, b) { BeforeMeansDiffer(t, keys, a, b); }
    if Before(t, [OrderKey(field, dir)], a, b) { BeforeMeansDiffer(t, [OrderKey(field, dir)], a, b); }
  }

  /** Reversing all directions gives exactly the converse comparator. */
  lemma {:induction false} ReverseIsConverse<R(!new), V(!new)>(t: Table<R, V>, keys: seq<OrderKey>, a: R, b: R)
    ensures Before(t, ReverseDirections(keys), a, b) <==> Before(t, keys, b, a)
  {
    if keys != [] {
      assert ReverseDirections(keys)[1..] == ReverseDirections(keys[1..]);
      ReverseIsConverse(t, keys[1..], a, b);
    }
  }

  ghost predicate Sorted<R(!new), V(!new)>(t: Table<R, V>, keys: seq<OrderKey>, page: seq<R>) {
    forall i, j :: 0 <= i < j < |page| ==> Before(t, keys, page[i], page[j])
  }

  lemma HeadsEqual<R(!new), V(!new)>(t: Table<R, V>, keys: seq<OrderKey>, p: seq<R>, q: seq<R>)
    requires t.ValuesOrdered() && Sorted(t, keys, p) && Sorted(t, keys, q) && multiset(p) == multiset(q) && p != []
    ensures q != [] && p[0] == q[0]
  {
    assert p[0] in multiset(q);
    assert q[0] in multiset(p);
    var j :| 0 <= j < |q| && q[j] == p[0];
    var i :| 0 <= i < |p| && p[i] == q[0];
    if i > 0 && j > 0 {
      BeforeTransitive(t, keys, p[0], p[i], p[0]);
      BeforeIrreflexive(t, keys, p[0]);
    }
  }

  lemma TailMultiset<R>(p: seq<R>)
    requires p != []
    ensures multiset(p[1..]) == multiset(p) - multiset{p[0]}
  {
    assert p == [p[0]] + p[1..];
  }

  /** A strict order leaves one way to sort a collection of rows. */
  lemma {:induction false} SortedUnique<R(!new), V(!new)>(t: Table<R, V>, keys: seq<OrderKey>, p: seq<R>, q: seq<R>)
    requires t.ValuesOrdered() && Sorted(t, keys, p) && Sorted(t, keys, q) && multiset(p) == multiset(q)
    ensures p == q
  {
    if p == [] {
      assert |multiset(q)| == |q|;
    } else {
      HeadsEqual(t, keys, p, q);
      TailMultiset(p);
      TailMultiset(q);
      SortedUnique(t, keys, p[1..], q[1..]);
      assert p == [p[0]] + p[1..] && q == [q[0]] + q[1..];
    }
  }

  ghost function Reversed<R>(page: seq<R>): seq<R> {
    seq(|page|, i requires 0 <= i < |page| => page[|page| - 1 - i])
  }

  lemma {:induction false} ReversedMultiset<R>(page: seq<R>)
    ensures multiset(Reversed(page)) == multiset(page)
  {
    if page == [] {
      assert Reversed(page) == page;
    } else {
      var front, last := page[..|page| - 1], page[|page| - 1];
      assert page == front + [last];
      assert Reversed(page) == [last] + Reversed(front);
      ReversedMultiset(front);
    }
  }

  /** Backward pagination: sorting the same rows by the reversed order gives exactly the reversed sequence. */
  lemma BackwardIsReversed<R(!new), V(!new)>(t: Table<R, V>, keys: seq<OrderKey>, forward: seq<R>, backward: seq<R>)
    requires t.ValuesOrdered() && Sorted(t, keys, forward) && multiset(backward) == multiset(forward)
    ensures Sorted(t, ReverseDirections(keys), backward) <==> backward == Reversed(forward)
  {
    var rev := ReverseDirections(keys);
    forall i, j | 0 <= i < j < |forward| ensures Before(t, rev, Reversed(forward)[i], Reversed(forward)[j]) {
      ReverseIsConverse(t, keys, Reversed(forward)[i], Reversed(forward)[j]);
    }
    assert Sorted(t, rev, Reversed(forward));
    ReversedMultiset(forward);
    if Sorted(t, rev, backward) { SortedUnique(t, rev, backward, Reversed(forward)); }
  }

  lemma ReverseIsInvolution(keys: seq<OrderKey>)
    ensures ReverseDirections(ReverseDirections(keys)) == keys
  {
    forall i | 0 <= i < |keys| ensures ReverseDirections(ReverseDirections(keys))[i] == keys[i] {
      assert keys[i].dir.Reverse().Reverse() == keys[i].dir;
    }
  }
}
