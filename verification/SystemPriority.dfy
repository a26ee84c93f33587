/** Reordering of the sorted registry so that system modules come first. */
module SystemPriority {
  import opened Seqs
  import opened Registry

  /** The entries with the given system flag, in their original order. */
  ghost function Select(s: seq<ModuleEntry>, system: bool): (r: seq<ModuleEntry>)
  {
    if s == [] then []
    else
      var last := s[|s| - 1];
      Select(s[..|s| - 1], system) + if last.isSystem == system then [last] else []
  }

  lemma {:induction false} SelectAt(s: seq<ModuleEntry>, a: nat)
    requires a < |s|
    ensures |Select(s[..a], s[a].isSystem)| < |Select(s, s[a].isSystem)|
    ensures Select(s, s[a].isSystem)[|Select(s[..a], s[a].isSystem)|] == s[a]
  {
    var front := s[..|s| - 1];
    if a < |s| - 1 {
      assert front[..a] == s[..a];
      SelectAt(front, a);
    } else {
      assert s[..a] == front;
    }
  }

  lemma {:induction false} SelectFrom(s: seq<ModuleEntry>, system: bool, k: nat) returns (a: nat)
    requires k < |Select(s, system)|
    ensures a < |s| && s[a].isSystem == system && Select(s, system)[k] == s[a] && |Select(s[..a], system)| == k
  {
    var front := s[..|s| - 1];
    if k < |Select(front, system)| {
      a := SelectFrom(front, system, k);
      assert front[..a] == s[..a];
    } else {
      a := |s| - 1;
    }
  }

  lemma {:induction false} SelectGrows(s: seq<ModuleEntry>, system: bool, a: nat, b: nat)
    requires a < b <= |s|
    ensures |Select(s[..a], system)| + (if s[a].isSystem == system then 1 else 0) <= |Select(s[..b], system)|
  {
    assert s[..b][..b - 1] == s[..b - 1];
    if a < b - 1 { SelectGrows(s, system, a, b - 1); }
  }

  lemma {:induction false} SelectConcat(s: seq<ModuleEntry>, t: seq<ModuleEntry>, system: bool)
    ensures Select(s + t, system) == Select(s, system) + Select(t, system)
  {
    if t == [] {
      assert s + t == s;
    } else {
      var front := t[..|t| - 1];
      SelectConcat(s, front, system);
      assert (s + t)[..|s + t| - 1] == s + front;
    }
  }

  lemma {:induction false} SelectUniform(s: seq<ModuleEntry>, system: bool)
    requires forall i :: 0 <= i < |s| ==> s[i].isSystem == system
    ensures Select(s, system) == s && Select(s, !system) == []
  {
    if s != [] {
      SelectUniform(s[..|s| - 1], system);
      assert s == s[..|s| - 1] + [s[|s| - 1]];
    }
  }

  ghost predicate SystemFirst(s: seq<ModuleEntry>) {
    forall i, j :: 0 <= i < j < |s| && s[j].isSystem ==> s[i].isSystem
  }

  /** A permutation with the system entries in front that keeps the relative order inside each group. */
  ghost predicate StablePartition(s: seq<ModuleEntry>, r: seq<ModuleEntry>) {
    && multiset(r) == multiset(s)
    && SystemFirst(r)
    && Select(r, true) == Select(s, true)
    && Select(r, false) == Select(s, false)
  }

  lemma {:induction false} SystemFirstSplits(r: seq<ModuleEntry>)
    requires SystemFirst(r)
    ensures r == Select(r, true) + Select(r, false)
  {
    if r != [] {
      var front, last := r[..|r| - 1], r[|r| - 1];
      assert r == front + [last];
      SystemFirstSplits(front);
      if last.isSystem {
        assert forall i :: 0 <= i < |front| ==> front[i] == r[i];
        SelectUniform(front, true);
      }
    }
  }

  /** The three conditions leave no freedom: there is one stable partition. */
  lemma StablePartitionUnique(s: seq<ModuleEntry>, r1: seq<ModuleEntry>, r2: seq<ModuleEntry>)
    requires StablePartition(s, r1) && StablePartition(s, r2)
    ensures r1 == r2
  {
    SystemFirstSplits(r1);
    SystemFirstSplits(r2);
  }

  lemma {:induction false} SelectIsUniform(s: seq<ModuleEntry>, system: bool)
    ensures forall i :: 0 <= i < |Select(s, system)| ==> Select(s, system)[i].isSystem == system
  {
    if s != [] { SelectIsUniform(s[..|s| - 1], system); }
  }

  lemma {:induction false} SelectKeepsAll(s: seq<ModuleEntry>)
    ensures multiset(Select(s, true)) + multiset(Select(s, false)) == multiset(s)
  {
    if s != [] {
      var front, last := s[..|s| - 1], s[|s| - 1];
      SelectKeepsAll(front);
      assert s == front + [last];
      assert multiset(s) == multiset(front) + multiset{last};
      assert Select(s, last.isSystem) == Select(front, last.isSystem) + [last];
      assert Select(s, !last.isSystem) == Select(front, !last.isSystem);
    }
  }

  lemma GroupsFormPartition(s: seq<ModuleEntry>)
    ensures StablePartition(s, Select(s, true) + Select(s, false))
  {
    SelectIsUniform(s, true);
    SelectIsUniform(s, false);
    SelectKeepsAll(s);
    SelectUniform(Select(s, true), true);
    SelectUniform(Select(s, false), false);
    SelectConcat(Select(s, true), Select(s, false), true);
    SelectConcat(Select(s, true), Select(s, false), false);
  }

  method ModulesBySystemPriority(modules: seq<ModuleEntry>) returns (r: seq<ModuleEntry>)
    ensures StablePartition(modules, r)
  {
    var systemMods: seq<ModuleEntry>, nonSystemMods: seq<ModuleEntry> := [], [];
    for i := 0 to |modules|
      invariant systemMods == Select(modules[..i], true) && nonSystemMods == Select(modules[..i], false)
    {
      var entry := modules[i];
      assert modules[..i + 1][..i] == modules[..i];
      if entry.isSystem {
        systemMods := systemMods + [entry];
      } else {
        nonSystemMods := nonSystemMods + [entry];
      }
    }
    assert modules[..|modules|] == modules;
    r := systemMods + nonSystemMods;
    GroupsFormPartition(modules);
  }

  /** No system module depends on a module that is not one. */
  ghost predicate SystemClosed(s: seq<ModuleEntry>) {
    forall i, j :: 0 <= i < |s| && 0 <= j < |s| && s[j].isSystem && s[i].name in s[j].deps ==> s[i].isSystem
  }

  /** Where the partition puts entry `a`. */
  ghost function Place(s: seq<ModuleEntry>, a: nat): nat
    requires a < |s|
  {
    |Select(s[..a], s[a].isSystem)| + if s[a].isSystem then 0 else |Select(s, true)|
  }

  lemma PlacedAt(s: seq<ModuleEntry>, r: seq<ModuleEntry>, a: nat)
    requires StablePartition(s, r) && a < |s|
    ensures Place(s, a) < |r| && r[Place(s, a)] == s[a]
  {
    SystemFirstSplits(r);
    SelectAt(s, a);
  }

  lemma PlacedFrom(s: seq<ModuleEntry>, r: seq<ModuleEntry>, j: nat) returns (a: nat)
    requires StablePartition(s, r) && j < |r|
    ensures a < |s| && r[j] == s[a] && Place(s, a) == j
  {
    SystemFirstSplits(r);
    var n := |Select(s, true)|;
    a := SelectFrom(s, j < n, if j < n then j else j - n);
  }

  lemma SystemFirstKeepsDependencies(s: seq<ModuleEntry>, r: seq<ModuleEntry>)
    requires StablePartition(s, r) && DependenciesFirst(s) && SystemClosed(s)
    ensures DependenciesFirst(r)
  {
    forall j, d | 0 <= j < |r| && d in r[j].deps ensures exists i :: 0 <= i < j && r[i].name == d {
      var a := PlacedFrom(s, r, j);
      var b :| 0 <= b < a && s[b].name == d;
      PlacedAt(s, r, b);
      if s[a].isSystem == s[b].isSystem {
        SelectGrows(s, s[a].isSystem, b, a);
      } else {
        SelectAt(s, b);
      }
      assert Place(s, b) < j;
    }
  }

  lemma BrokenDependency(s: seq<ModuleEntry>, r: seq<ModuleEntry>)
    requires StablePartition(s, r) && NoDuplicates(Names(s)) && DependenciesFirst(r)
    ensures SystemClosed(s)
  {
    forall i, j | 0 <= i < |s| && 0 <= j < |s| && s[j].isSystem && s[i].name in s[j].deps ensures s[i].isSystem {
      PlacedAt(s, r, j);
      var k :| 0 <= k < Place(s, j) && r[k].name == s[i].name;
      var c := PlacedFrom(s, r, k);
      assert Names(s)[c] == Names(s)[i];
    }
  }

  /** The reordered list is still a dependency order exactly when system modules depend only on system modules. */
  lemma SystemPriorityDependencyOrder(s: seq<ModuleEntry>, r: seq<ModuleEntry>)
    requires StablePartition(s, r) && DependenciesFirst(s) && NoDuplicates(Names(s))
    ensures DependenciesFirst(r) <==> SystemClosed(s)
  {
    if SystemClosed(s) { SystemFirstKeepsDependencies(s, r); }
    if DependenciesFirst(r) { BrokenDependency(s, r); }
  }
}
