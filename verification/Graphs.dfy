/** Directed graphs as adjacency lists, as the registry builds them: `adj[d]` lists the modules that depend on `d`. */
module Graphs {
  import opened Seqs

  type Adjacency = seq<seq<nat>>

  ghost predicate WellFormed(adj: Adjacency) {
    forall u, i :: 0 <= u < |adj| && 0 <= i < |adj[u]| ==> adj[u][i] < |adj|
  }

  ghost predicate Edge(adj: Adjacency, u: nat, v: nat) {
    u < |adj| && v in adj[u]
  }

  ghost predicate Walk(adj: Adjacency, p: seq<nat>) {
    forall i :: 0 <= i < |p| - 1 ==> Edge(adj, p[i], p[i + 1])
  }

  ghost predicate ClosedWalk(adj: Adjacency, p: seq<nat>) {
    |p| >= 2 && Walk(adj, p) && p[0] == p[|p| - 1]
  }

  /** A closed walk whose only repetition is that its first node is also its last. */
  ghost predicate SimpleCycle(adj: Adjacency, p: seq<nat>) {
    ClosedWalk(adj, p) && NoDuplicates(p[..|p| - 1])
  }

  ghost predicate Acyclic(adj: Adjacency) {
    forall p :: !ClosedWalk(adj, p)
  }

  /** `rank` falls along every edge. */
  ghost predicate Ranks(adj: Adjacency, rank: seq<nat>) {
    && |rank| == |adj|
    && (forall u: nat, v: nat :: Edge(adj, u, v) && v < |adj| ==> rank[v] < rank[u])
  }

  lemma {:induction false} RankFallsAlongWalk(adj: Adjacency, rank: seq<nat>, p: seq<nat>)
    requires WellFormed(adj) && Ranks(adj, rank) && Walk(adj, p) && |p| >= 2
    ensures p[0] < |adj| && p[|p| - 1] < |adj|
    ensures rank[p[|p| - 1]] < rank[p[0]]
  {
    assert Edge(adj, p[0], p[1]);
    if |p| > 2 {
      assert Walk(adj, p[1..]) by {
        forall i | 0 <= i < |p[1..]| - 1 ensures Edge(adj, p[1..][i], p[1..][i + 1]) {
          assert Edge(adj, p[i + 1], p[i + 2]);
        }
      }
      RankFallsAlongWalk(adj, rank, p[1..]);
    }
  }

  lemma RankedIsAcyclic(adj: Adjacency, rank: seq<nat>)
    requires WellFormed(adj) && Ranks(adj, rank)
    ensures Acyclic(adj)
  {
    forall p ensures !ClosedWalk(adj, p) {
      if ClosedWalk(adj, p) { RankFallsAlongWalk(adj, rank, p); }
    }
  }
}
