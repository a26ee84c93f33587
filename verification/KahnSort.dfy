/** Kahn's algorithm with an in-degree table and a queue, as `build_topo_sorted` runs it. */
module KahnSort {
  import opened Seqs
  import opened Graphs

  /** Number of occurrences of `w` in `s`: a duplicated dependency counts once per occurrence. */
  ghost function Occurrences(s: seq<nat>, w: nat): nat {
    if s == [] then 0 else (if s[0] == w then 1 else 0) + Occurrences(s[1..], w)
  }

  /** Number of edges into `w` from the nodes below `k` that are not in `done`. */
  ghost function Pending(adj: Adjacency, done: set<nat>, w: nat, k: nat): nat
    requires k <= |adj|
  {
    if k == 0 then 0
    else Pending(adj, done, w, k - 1) + if k - 1 in done then 0 else Occurrences(adj[k - 1], w)
  }

  lemma {:induction false} OccursPositive(s: seq<nat>, w: nat)
    ensures Occurrences(s, w) > 0 <==> w in s
  {
    if s != [] {
      OccursPositive(s[1..], w);
      assert s == [s[0]] + s[1..];
    }
  }

  lemma {:induction false} OccurrencesAppend(s: seq<nat>, x: nat, w: nat)
    ensures Occurrences(s + [x], w) == Occurrences(s, w) + if x == w then 1 else 0
  {
    if s == [] {
      assert s + [x] == [x];
    } else {
      assert (s + [x])[1..] == s[1..] + [x];
      OccurrencesAppend(s[1..], x, w);
    }
  }

  lemma {:induction false} PendingWithout(adj: Adjacency, done: set<nat>, u: nat, w: nat, k: nat)
    requires k <= |adj| && u !in done
    ensures Pending(adj, done, w, k) ==
            Pending(adj, done + {u}, w, k) + if u < k then Occurrences(adj[u], w) else 0
  {
    if k > 0 { PendingWithout(adj, done, u, w, k - 1); }
  }

  lemma {:induction false} PendingBound(adj: Adjacency, done: set<nat>, u: nat, w: nat, k: nat)
    requires u < k <= |adj| && u !in done
    ensures Occurrences(adj[u], w) <= Pending(adj, done, w, k)
  {
    if u < k - 1 { PendingBound(adj, done, u, w, k - 1); }
  }

  lemma {:induction false} PendingZero(adj: Adjacency, done: set<nat>, w: nat, k: nat)
    requires k <= |adj|
    requires forall u: nat :: Edge(adj, u, w) && u < k ==> u in done
    ensures Pending(adj, done, w, k) == 0
  {
    if k > 0 {
      PendingZero(adj, done, w, k - 1);
      OccursPositive(adj[k - 1], w);
      assert Edge(adj, k - 1, w) <==> w in adj[k - 1];
    }
  }

  /** A node with no pending edge has all its predecessors done. */
  lemma NoPendingMeansDone(adj: Adjacency, done: set<nat>, u: nat, w: nat)
    requires Edge(adj, u, w) && Pending(adj, done, w, |adj|) == 0
    ensures u in done
  {
    OccursPositive(adj[u], w);
    if u !in done { PendingBound(adj, done, u, w, |adj|); }
  }

  /** Every predecessor of an element stands strictly before it. */
  ghost predicate PredecessorsFirst(adj: Adjacency, order: seq<nat>) {
    forall u: nat, j :: 0 <= j < |order| && Edge(adj, u, order[j]) ==> u in order[..j]
  }

  ghost function Elements(s: seq<nat>): set<nat> { set x | x in s }

  /** The table holds the number of edges from unfinished nodes, plus the edges in `tail` still to be removed. */
  ghost predicate Counted(adj: Adjacency, done: set<nat>, tail: seq<nat>, indeg: seq<nat>) {
    && |indeg| == |adj|
    && (forall w: nat :: w < |adj| ==> indeg[w] == Pending(adj, done, w, |adj|) + Occurrences(tail, w))
  }

  /** Exactly the nodes whose count is zero have been put on the queue, each once. */
  ghost predicate Scheduled(n: nat, indeg: seq<nat>, order: seq<nat>, queue: seq<nat>) {
    && |indeg| == n
    && NoDuplicates(order + queue)
    && Below(order + queue, n)
    && (forall w: nat :: w < n ==> (indeg[w] == 0 <==> w in order + queue))
  }

  method InDegrees(adj: Adjacency) returns (indeg: array<nat>)
    requires WellFormed(adj)
    ensures fresh(indeg) && Counted(adj, {}, [], indeg[..])
  {
    var n := |adj|;
    indeg := new nat[n](_ => 0);
    for u := 0 to n
      invariant indeg.Length == n
      invariant forall w: nat :: w < n ==> indeg[w] == Pending(adj, {}, w, u)
    {
      for i := 0 to |adj[u]|
        invariant indeg.Length == n
        invariant forall w: nat :: w < n ==> indeg[w] == Pending(adj, {}, w, u) + Occurrences(adj[u][..i], w)
      {
        assert adj[u][..i + 1] == adj[u][..i] + [adj[u][i]];
        forall w: nat ensures Occurrences(adj[u][..i + 1], w)
                           == Occurrences(adj[u][..i], w) + if adj[u][i] == w then 1 else 0 {
          OccurrencesAppend(adj[u][..i], adj[u][i], w);
        }
        indeg[adj[u][i]] := indeg[adj[u][i]] + 1;
      }
      assert adj[u][..|adj[u]|] == adj[u];
    }
  }

  method Sources(indeg: array<nat>) returns (queue: seq<nat>)
    ensures Scheduled(indeg.Length, indeg[..], [], queue)
  {
    queue := [];
    for i := 0 to indeg.Length
      invariant NoDuplicates(queue)
      invariant Below(queue, i)
      invariant forall w: nat :: w < i ==> (indeg[w] == 0 <==> w in queue)
    {
      if indeg[i] == 0 { queue := queue + [i]; }
    }
    assert [] + queue == queue;
  }

  /** Removes the edges out of `u`, the node just emitted, queueing each node that loses its last one. */
  method Relax(adj: Adjacency, indeg: array<nat>, ghost order: seq<nat>, u: nat, queue0: seq<nat>)
    returns (queue: seq<nat>)
    requires WellFormed(adj) && indeg.Length == |adj| && u < |adj|
    requires Counted(adj, Elements(order), adj[u], indeg[..])
    requires Scheduled(|adj|, indeg[..], order, queue0)
    modifies indeg
    ensures Counted(adj, Elements(order), [], indeg[..])
    ensures Scheduled(|adj|, indeg[..], order, queue)
  {
    queue := queue0;
    var targets := adj[u];
    for i := 0 to |targets|
      invariant Counted(adj, Elements(order), targets[i..], indeg[..])
      invariant Scheduled(|adj|, indeg[..], order, queue)
    {
      var w := targets[i];
      assert targets[i..][0] == w && targets[i..][1..] == targets[i + 1..];
      assert indeg[..][w] == Pending(adj, Elements(order), w, |adj|) + Occurrences(targets[i..], w);
      ghost var before := indeg[..];
      indeg[w] := indeg[w] - 1;
      assert indeg[..] == before[w := before[w] - 1];
      if indeg[w] == 0 {
        assert order + (queue + [w]) == (order + queue) + [w];
        queue := queue + [w];
      }
    }
    assert targets[|targets|..] == [];
  }

  lemma PopKeepsCounts(adj: Adjacency, order: seq<nat>, u: nat, indeg: seq<nat>)
    requires u < |adj| && u !in order && Counted(adj, Elements(order), [], indeg)
    ensures Counted(adj, Elements(order + [u]), adj[u], indeg)
  {
    assert Elements(order + [u]) == Elements(order) + {u};
    forall w: nat | w < |adj|
      ensures indeg[w] == Pending(adj, Elements(order + [u]), w, |adj|) + Occurrences(adj[u], w)
    {
      PendingWithout(adj, Elements(order), u, w, |adj|);
    }
  }

  lemma PopKeepsOrder(adj: Adjacency, order: seq<nat>, u: nat)
    requires Pending(adj, Elements(order), u, |adj|) == 0 && PredecessorsFirst(adj, order)
    ensures PredecessorsFirst(adj, order + [u])
  {
    var next := order + [u];
    forall p: nat, j | 0 <= j < |next| && Edge(adj, p, next[j]) ensures p in next[..j] {
      assert next[..j] == order[..j];
      if j == |order| {
        NoPendingMeansDone(adj, Elements(order), p, u);
        assert next[..j] == order;
      }
    }
  }

  ghost function IndexOf(s: seq<nat>, x: nat): (i: nat)
    requires x in s
    ensures i < |s| && s[i] == x
  {
    if s[0] == x then 0 else 1 + IndexOf(s[1..], x)
  }

  lemma RankFromOrder(adj: Adjacency, order: seq<nat>)
    requires WellFormed(adj) && PredecessorsFirst(adj, order) && NoDuplicates(order)
    requires |order| == |adj| && Below(order, |adj|)
    ensures exists rank :: Ranks(adj, rank)
  {
    forall x: nat | x < |adj| ensures x in order { DistinctFillsRange(order, |adj|, x); }
    var rank := seq(|adj|, u requires 0 <= u < |adj| => |adj| - 1 - IndexOf(order, u));
    forall u: nat, v: nat | Edge(adj, u, v) && v < |adj| ensures rank[v] < rank[u] {
      var j := IndexOf(order, v);
      assert u in order[..j];
      var i :| 0 <= i < j && order[i] == u;
      assert IndexOf(order, u) == i;
    }
    assert Ranks(adj, rank);
  }

  ghost function Missing(rank: seq<nat>, order: seq<nat>, x: nat): set<nat>
    requires x < |rank|
  {
    set y: nat | y < |rank| && y !in order && rank[y] > rank[x]
  }

  /** Among the nodes not emitted, one from which no edge of higher rank is left. */
  lemma HighestMissing(rank: seq<nat>, order: seq<nat>, x: nat) returns (top: nat)
    requires x < |rank| && x !in order
    ensures top < |rank| && top !in order
    ensures forall y: nat :: y < |rank| && rank[y] > rank[top] ==> y in order
    decreases Missing(rank, order, x)
  {
    if y: nat :| y < |rank| && y !in order && rank[y] > rank[x] {
      assert y in Missing(rank, order, x) && y !in Missing(rank, order, y);
      top := HighestMissing(rank, order, y);
    } else {
      top := x;
    }
  }

  /** With the queue empty and a ranking at hand, nothing can have been left behind. */
  lemma EveryNodeComesOut(adj: Adjacency, rank: seq<nat>, order: seq<nat>, indeg: seq<nat>)
    requires WellFormed(adj) && Ranks(adj, rank)
    requires Counted(adj, Elements(order), [], indeg) && Scheduled(|adj|, indeg, order, [])
    ensures |order| == |adj|
  {
    assert order + [] == order;
    forall x: nat | x < |adj| ensures x in order {
      if x !in order {
        var top := HighestMissing(rank, order, x);
        forall u: nat | Edge(adj, u, top) && u < |adj| ensures u in Elements(order) {
          assert rank[top] < rank[u];
        }
        PendingZero(adj, Elements(order), top, |adj|);
      }
    }
    CoveringNeedsLength(order, |adj|);
    DistinctBelowBound(order, |adj|);
  }

  /** Emits nodes in queue order. All nodes come out exactly when some ranking of the graph exists. */
  method Sort(adj: Adjacency) returns (order: seq<nat>)
    requires WellFormed(adj)
    ensures NoDuplicates(order) && Below(order, |adj|)
    ensures PredecessorsFirst(adj, order)
    ensures |order| == |adj| <==> exists rank :: Ranks(adj, rank)
    ensures |order| == |adj| ==> forall x: nat :: x < |adj| ==> x in order
  {
    var indeg := InDegrees(adj);
    var queue := Sources(indeg);
    order := [];
    assert Elements(order) == {};
    while queue != []
      invariant indeg.Length == |adj|
      invariant Counted(adj, Elements(order), [], indeg[..])
      invariant Scheduled(|adj|, indeg[..], order, queue)
      invariant PredecessorsFirst(adj, order)
      decreases |adj| - |order|
    {
      var u := queue[0];
      assert (order + queue)[|order|] == u;
      assert order + queue == (order + [u]) + queue[1..];
      assert forall i :: 0 <= i < |order| ==> (order + queue)[i] == order[i];
      DistinctBelowBound(order + queue, |adj|);
      PopKeepsCounts(adj, order, u, indeg[..]);
      PopKeepsOrder(adj, order, u);
      order := order + [u];
      queue := queue[1..];
      queue := Relax(adj, indeg, order, u, queue);
    }
    assert order + queue == order;
    if |order| == |adj| {
      RankFromOrder(adj, order);
      forall x: nat | x < |adj| ensures x in order { DistinctFillsRange(order, |adj|, x); }
    } else if exists rank :: Ranks(adj, rank) {
      var rank :| Ranks(adj, rank);
      EveryNodeComesOut(adj, rank, order, indeg[..]);
    }
  }
}
