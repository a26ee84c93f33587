/** Three-colour depth-first search that reports a cycle as a list of module names. */
module CycleSearch {
  import opened Seqs
  import opened Graphs

  datatype Color = White | Gray | Black

  ghost function NamesOf(names: seq<string>, walk: seq<nat>): seq<string>
    requires Below(walk, |names|)
  {
    seq(|walk|, i requires 0 <= i < |walk| => names[walk[i]])
  }

  /** `path` is a simple cycle of the graph, written with module names. */
  ghost predicate NamesCycle(names: seq<string>, adj: Adjacency, path: seq<string>) {
    exists w: seq<nat> ::
      && SimpleCycle(adj, w)
      && Below(w, |names|)
      && path == NamesOf(names, w)
  }

  ghost function Whites(colors: seq<Color>): set<nat> {
    set u: nat | u < |colors| && colors[u] == White
  }

  class Search {
    const names: seq<string>
    const adj: Adjacency
    var colors: seq<Color>
    var path: seq<nat>
    // Finishing times: they are the evidence that the finished part has no cycle.
    ghost var rank: seq<nat>
    ghost var clock: nat

    constructor (names: seq<string>, adj: Adjacency)
      requires WellFormed(adj) && |names| == |adj|
      ensures this.names == names && this.adj == adj
      ensures Valid() && path == []
      ensures forall u :: 0 <= u < |adj| ==> colors[u] == White
    {
      this.names, this.adj := names, adj;
      colors := seq(|names|, _ => White);
      path := [];
      rank, clock := seq(|names|, _ => 0), 0;
    }

    /** Gray nodes are exactly the current path; finished nodes lead only to nodes finished earlier. */
    ghost predicate Valid()
      reads this
    {
      && WellFormed(adj)
      && |names| == |adj| == |colors| == |rank|
      && NoDuplicates(path) && Walk(adj, path)
      && Below(path, |adj|)
      && (forall u: nat :: u < |adj| ==> (colors[u] == Gray <==> u in path))
      && (forall u: nat :: u < |adj| && colors[u] == Black ==> rank[u] < clock)
      && (forall u: nat, v: nat :: Edge(adj, u, v) && v < |adj| && colors[u] == Black ==>
            colors[v] == Black && rank[v] < rank[u])
    }

    method Position(x: nat) returns (at: Option<nat>)
      ensures at.None? ==> x !in path
      ensures at.Some? ==> at.value < |path| && path[at.value] == x
    {
      for i := 0 to |path|
        invariant x !in path[..i]
      {
        if path[i] == x { return Some(i); }
        assert path[..i + 1] == path[..i] + [path[i]];
      }
      assert path[..|path|] == path;
      return None;
    }

    /** The part of the path from `at` on, closed by the edge back to `x`, is the cycle that is reported. */
    method CloseCycle(at: nat, x: nat) returns (cycle: seq<string>)
      requires Valid() && at < |path| && path[at] == x && Edge(adj, path[|path| - 1], x)
      ensures NamesCycle(names, adj, cycle)
    {
      ghost var w := path[at..] + [x];
      cycle := seq(|path| - at, i requires 0 <= i < |path| - at reads this requires Valid() => names[path[at + i]]) + [names[x]];
      assert forall i :: 0 <= i < |path[at..]| ==> path[at..][i] == path[at + i];
      assert Walk(adj, w) by {
        forall i | 0 <= i < |w| - 1 ensures Edge(adj, w[i], w[i + 1]) {
          if i < |w| - 2 { assert Edge(adj, path[at + i], path[at + i + 1]); }
        }
      }
      assert w[..|w| - 1] == path[at..];
      assert SimpleCycle(adj, w);
      assert Below(w, |names|);
      assert cycle == NamesOf(names, w);
    }

    /** Colours `node` gray and puts it on the path. */
    method Enter(node: nat)
      requires Valid() && node < |adj| && colors[node] == White
      requires path != [] ==> Edge(adj, path[|path| - 1], node)
      modifies `colors, `path
      ensures Valid() && path == old(path) + [node] && colors == old(colors)[node := Gray]
    {
      colors := colors[node := Gray];
      path := path + [node];
      assert Walk(adj, path) by {
        forall i | 0 <= i < |path| - 1 ensures Edge(adj, path[i], path[i + 1]) {
          if i < |path| - 2 { assert Edge(adj, old(path)[i], old(path)[i + 1]); }
        }
      }
    }

    /** Takes the last node off the path and colours it black, once all its neighbours are black. */
    method Leave(node: nat)
      requires Valid() && path != [] && path[|path| - 1] == node
      requires forall i :: 0 <= i < |adj[node]| ==> colors[adj[node][i]] == Black
      modifies this
      ensures Valid() && path == old(path)[..|old(path)| - 1] && colors == old(colors)[node := Black]
    {
      path := path[..|path| - 1];
      colors := colors[node := Black];
      rank := rank[node := clock];
      clock := clock + 1;
      assert old(path) == path + [node];
      assert Walk(adj, path) by {
        forall i | 0 <= i < |path| - 1 ensures Edge(adj, path[i], path[i + 1]) {
          assert Edge(adj, old(path)[i], old(path)[i + 1]);
        }
      }
    }

    method Dfs(node: nat) returns (cycle: Option<seq<string>>)
      requires Valid() && node < |adj| && colors[node] == White
      requires path != [] ==> Edge(adj, path[|path| - 1], node)
      modifies this
      ensures cycle.Some? ==> NamesCycle(names, adj, cycle.value)
      ensures cycle.None? ==> Valid() && path == old(path) && colors[node] == Black
      ensures cycle.None? ==> forall u: nat :: u < |adj| && old(colors[u]) != White ==> colors[u] == old(colors[u])
      decreases Whites(colors)
    {
      Enter(node);
      assert node in old(Whites(colors)) && node !in Whites(colors);
      for k := 0 to |adj[node]|
        invariant Valid() && path == old(path) + [node]
        invariant forall u: nat :: u < |adj| && u != node && old(colors[u]) != White ==> colors[u] == old(colors[u])
        invariant node !in Whites(colors) && Whites(colors) <= old(Whites(colors))
        invariant forall i :: 0 <= i < k ==> colors[adj[node][i]] == Black
      {
        var neighbor := adj[node][k];
        assert Edge(adj, node, neighbor);
        match colors[neighbor] {
          case Gray =>
            var at := Position(neighbor);
            if at.Some? {
              var c := CloseCycle(at.value, neighbor);
              return Some(c);
            }
          case White =>
            cycle := Dfs(neighbor);
            if cycle.Some? { return; }
          case Black =>
        }
      }
      Leave(node);
      return None;
    }
  }

  /** Sound and complete: a reported path is a simple cycle, and nothing is reported exactly when there is none. */
  method DetectCycle(names: seq<string>, adj: Adjacency) returns (cycle: Option<seq<string>>)
    requires WellFormed(adj) && |names| == |adj|
    ensures cycle.Some? ==> NamesCycle(names, adj, cycle.value)
    ensures cycle.None? <==> Acyclic(adj)
    ensures cycle.None? ==> exists rank :: Ranks(adj, rank)
  {
    var s := new Search(names, adj);
    for i := 0 to |names|
      invariant s.names == names && s.adj == adj
      invariant s.Valid() && s.path == []
      invariant forall u: nat :: u < i ==> s.colors[u] == Black
    {
      if s.colors[i] == White {
        cycle := s.Dfs(i);
        if cycle.Some? { return; }
      }
    }
    assert Ranks(adj, s.rank);
    RankedIsAcyclic(adj, s.rank);
    return None;
  }
}
