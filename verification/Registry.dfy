/** The module registry: a builder fed by registrators, and its topologically sorted result. */
module Registry {
  import opened Seqs
  import opened Graphs
  import CycleSearch
  import KahnSort

  // Identity of a shared implementation object.
  type Impl = nat

  datatype ModuleEntry = ModuleEntry(
    name: string, deps: seq<string>, core: Impl, rest: Option<Impl>, restHost: Option<Impl>, db: Option<Impl>,
    stateful: Option<Impl>, isSystem: bool, grpcHub: Option<Impl>, grpcService: Option<Impl>)

  datatype RegistryError =
    | UnknownModule(name: string)
    | UnknownDependency(from: string, dependsOn: string)
    | CycleDetected(path: seq<string>)
    | MissingDeps(name: string)
    | CoreNotFound(name: string)
    | InvalidConfiguration(errors: seq<string>)

  datatype Result<+T> = Ok(value: T) | Err(error: RegistryError)

  datatype ModuleRegistry = ModuleRegistry(
    modules: seq<ModuleEntry>, grpcHub: Option<string>, grpcServices: seq<(string, Impl)>)

  function Lookup<V>(m: map<string, V>, name: string): Option<V> {
    if name in m then Some(m[name]) else None
  }

  /** The single registered host or hub, seen from module `name`. */
  function Slot(slot: Option<(string, Impl)>, name: string): Option<Impl> {
    if slot.Some? && slot.value.0 == name then Some(slot.value.1) else None
  }

  function SlotName(slot: Option<(string, Impl)>): set<string> {
    if slot.Some? then {slot.value.0} else {}
  }

  ghost predicate DependsOn(deps: map<string, seq<string>>, name: string, dependency: string) {
    name in deps && dependency in deps[name]
  }

  /** Each module depends on the one listed before it, and the list closes without any other repetition. */
  ghost predicate DependencyCycle(deps: map<string, seq<string>>, path: seq<string>) {
    && |path| >= 2 && path[0] == path[|path| - 1] && NoDuplicates(path[..|path| - 1])
    && (forall i :: 0 <= i < |path| - 1 ==> DependsOn(deps, path[i + 1], path[i]))
  }

  /** Every dependency of an entry is the name of a strictly earlier entry. */
  ghost predicate DependenciesFirst(entries: seq<ModuleEntry>) {
    forall j, d :: 0 <= j < |entries| && d in entries[j].deps ==> exists i :: 0 <= i < j && entries[i].name == d
  }

  function Names(entries: seq<ModuleEntry>): seq<string> {
    seq(|entries|, i requires 0 <= i < |entries| => entries[i].name)
  }

  /** `adj` has an edge from every dependency to every dependent and no other. */
  ghost predicate GraphOf(deps: map<string, seq<string>>, names: seq<string>, adj: Adjacency) {
    && NoDuplicates(names)
    && |names| == |adj| && WellFormed(adj)
    && (forall u: nat, v: nat :: u < |adj| && v < |adj| ==>
          (Edge(adj, v, u) <==> DependsOn(deps, names[u], names[v])))
  }

  lemma CycleInNames(deps: map<string, seq<string>>, names: seq<string>, adj: Adjacency, path: seq<string>)
    requires GraphOf(deps, names, adj) && CycleSearch.NamesCycle(names, adj, path)
    ensures DependencyCycle(deps, path)
  {
    var w :| SimpleCycle(adj, w) && Below(w, |names|) && path == CycleSearch.NamesOf(names, w);
    forall i | 0 <= i < |path| - 1 ensures DependsOn(deps, path[i + 1], path[i]) {
      assert Edge(adj, w[i], w[i + 1]);
    }
    assert NoDuplicates(path[..|path| - 1]) by {
      forall i, j | 0 <= i < j < |path| - 1 ensures path[i] != path[j] {
        assert w[..|w| - 1][i] != w[..|w| - 1][j];
      }
    }
  }

  ghost function PositionOf(entries: seq<ModuleEntry>, name: string): (i: int)
    ensures i < |entries| && (i >= 0 ==> entries[i].name == name)
    ensures i < 0 ==> forall k :: 0 <= k < |entries| ==> entries[k].name != name
  {
    if entries == [] then -1
    else if entries[|entries| - 1].name == name then |entries| - 1
    else PositionOf(entries[..|entries| - 1], name)
  }

  /** Along a chain of dependencies the positions in the order only grow. */
  lemma {:induction false} ChainAdvances(
    deps: map<string, seq<string>>, entries: seq<ModuleEntry>, path: seq<string>, k: nat)
    requires DependenciesFirst(entries) && NoDuplicates(Names(entries))
    requires forall n :: n in deps ==> PositionOf(entries, n) >= 0
    requires forall i :: 0 <= i < |entries| ==> entries[i].name in deps && entries[i].deps == deps[entries[i].name]
    requires 0 < k < |path|
    requires forall i :: 0 <= i < |path| - 1 ==> DependsOn(deps, path[i + 1], path[i])
    ensures PositionOf(entries, path[0]) < PositionOf(entries, path[k])
  {
    var at := PositionOf(entries, path[k]);
    assert path[k - 1] in entries[at].deps by { var i := k - 1; assert DependsOn(deps, path[i + 1], path[i]); }
    var b :| 0 <= b < at && entries[b].name == path[k - 1];
    var c := PositionOf(entries, path[k - 1]);
    assert Names(entries)[b] == path[k - 1] && Names(entries)[c] == path[k - 1];
    if k > 1 { ChainAdvances(deps, entries, path, k - 1); }
  }

  lemma OrderedHasNoCycle(deps: map<string, seq<string>>, entries: seq<ModuleEntry>, path: seq<string>)
    requires DependenciesFirst(entries) && Enumerates(Names(entries), deps.Keys)
    requires forall i :: 0 <= i < |entries| ==> entries[i].name in deps && entries[i].deps == deps[entries[i].name]
    ensures !DependencyCycle(deps, path)
  {
    if DependencyCycle(deps, path) {
      forall n | n in deps ensures PositionOf(entries, n) >= 0 {
        assert n in Names(entries);
      }
      ChainAdvances(deps, entries, path, |path| - 1);
    }
  }

  class RegistryBuilder {
    var core: map<string, Impl>
    var deps: map<string, seq<string>>
    var rest: map<string, Impl>
    var restHost: Option<(string, Impl)>
    var db: map<string, Impl>
    var stateful: map<string, Impl>
    var systemModules: set<string>
    var grpcHub: Option<(string, Impl)>
    var grpcServices: map<string, Impl>
    var errors: seq<string>

    constructor ()
      ensures Valid() && core == map[] && errors == [] && CapabilityNames() == {}
    {
      core, deps, rest, db, stateful, grpcServices := map[], map[], map[], map[], map[], map[];
      restHost, grpcHub, systemModules, errors := None, None, {}, [];
    }

    ghost predicate Valid()
      reads this
    {
      deps.Keys == core.Keys
    }

    ghost function CapabilityNames(): set<string>
      reads this
    {
      rest.Keys + db.Keys + stateful.Keys + grpcServices.Keys + SlotName(restHost) + SlotName(grpcHub)
    }

    function EntryFor(name: string): ModuleEntry
      reads this
      requires name in core && name in deps
    {
      ModuleEntry(name, deps[name], core[name], Lookup(rest, name), Slot(restHost, name), Lookup(db, name),
                  Lookup(stateful, name), name in systemModules, Slot(grpcHub, name), Lookup(grpcServices, name))
    }

    /**
     * The entry holds what was registered under its own name and nothing else: each capability exactly if it was
     * registered, and the host and the hub only in the entry of the module that was registered as such.
     */
    ghost predicate Carries(e: ModuleEntry)
      reads this
    {
      && e.name in core && e.core == core[e.name] && e.name in deps && e.deps == deps[e.name]
      && (forall m :: e.rest == Some(m) <==> e.name in rest && rest[e.name] == m)
      && (forall m :: e.db == Some(m) <==> e.name in db && db[e.name] == m)
      && (forall m :: e.stateful == Some(m) <==> e.name in stateful && stateful[e.name] == m)
      && (forall m :: e.grpcService == Some(m) <==> e.name in grpcServices && grpcServices[e.name] == m)
      && (e.isSystem <==> e.name in systemModules)
      && (forall m :: e.restHost == Some(m) <==> restHost == Some((e.name, m)))
      && (forall m :: e.grpcHub == Some(m) <==> grpcHub == Some((e.name, m)))
    }

    ghost predicate AllCarry(entries: seq<ModuleEntry>)
      reads this
    {
      forall e :: e in entries ==> Carries(e)
    }

    lemma EntryCarries(name: string)
      requires name in core && name in deps
      ensures EntryFor(name).name == name && Carries(EntryFor(name))
    {
    }

    /** A second registration under a known name changes nothing but the error list. */
    method RegisterCore(name: string, moduleDeps: seq<string>, m: Impl)
      requires Valid()
      modifies `core, `deps, `errors
      ensures Valid()
      ensures name in old(core) ==>
                core == old(core) && deps == old(deps)
                && errors == old(errors) + ["Module '" + name + "' is already registered"]
      ensures name !in old(core) ==>
                core == old(core)[name := m] && deps == old(deps)[name := moduleDeps] && errors == old(errors)
      ensures old(errors) <= errors
    {
      if name in core {
        errors := errors + ["Module '" + name + "' is already registered"];
        return;
      }
      core := core[name := m];
      deps := deps[name := moduleDeps];
    }

    method RegisterRest(name: string, m: Impl)
      modifies `rest
      ensures rest == old(rest)[name := m]
    {
      rest := rest[name := m];
    }

    /** The first host stays; every further registration is recorded as an error. */
    method RegisterRestHost(name: string, m: Impl)
      modifies `restHost, `errors
      ensures old(restHost).Some? ==>
                restHost == old(restHost)
                && errors == old(errors) + ["Multiple REST host modules detected: '" + old(restHost).value.0 + "' and '"
                                            + name + "'. Only one REST host is allowed."]
      ensures old(restHost).None? ==> restHost == Some((name, m)) && errors == old(errors)
      ensures old(errors) <= errors
    {
      if restHost.Some? {
        errors := errors + ["Multiple REST host modules detected: '" + restHost.value.0 + "' and '" + name
                            + "'. Only one REST host is allowed."];
        return;
      }
      restHost := Some((name, m));
    }

    method RegisterDb(name: string, m: Impl)
      modifies `db
      ensures db == old(db)[name := m]
    {
      db := db[name := m];
    }

    method RegisterStateful(name: string, m: Impl)
      modifies `stateful
      ensures stateful == old(stateful)[name := m]
    {
      stateful := stateful[name := m];
    }

    method RegisterSystem(name: string)
      modifies `systemModules
      ensures systemModules == old(systemModules) + {name}
    {
      systemModules := systemModules + {name};
    }

    method RegisterGrpcHub(name: string, m: Impl)
      modifies `grpcHub, `errors
      ensures old(grpcHub).Some? ==>
                grpcHub == old(grpcHub)
                && errors == old(errors) + ["Multiple gRPC hub modules detected: '" + old(grpcHub).value.0 + "' and '"
                                            + name + "'. Only one gRPC hub is allowed."]
      ensures old(grpcHub).None? ==> grpcHub == Some((name, m)) && errors == old(errors)
      ensures old(errors) <= errors
    {
      if grpcHub.Some? {
        errors := errors + ["Multiple gRPC hub modules detected: '" + grpcHub.value.0 + "' and '" + name
                            + "'. Only one gRPC hub is allowed."];
        return;
      }
      grpcHub := Some((name, m));
    }

    method RegisterGrpcService(name: string, m: Impl)
      modifies `grpcServices
      ensures grpcServices == old(grpcServices)[name := m]
    {
      grpcServices := grpcServices[name := m];
    }

    method FirstUnknown(names: set<string>) returns (unknown: Option<string>)
      ensures unknown.None? <==> names <= core.Keys
      ensures unknown.Some? ==> unknown.value in names - core.Keys
    {
      var order := SomeOrder(names);
      for i := 0 to |order|
        invariant forall k :: 0 <= k < i ==> order[k] in core
      {
        if order[i] !in core { return Some(order[i]); }
      }
      return None;
    }

    /** Passes exactly when no registration error was recorded and every capability belongs to a core module. */
    method ValidateCapabilities() returns (error: Option<RegistryError>)
      ensures error.None? <==> errors == [] && CapabilityNames() <= core.Keys
      ensures error.Some? && error.value.UnknownModule? ==> error.value.name in CapabilityNames() - core.Keys
      ensures error.Some? && !error.value.UnknownModule? ==> errors != [] && error.value == InvalidConfiguration(errors)
      ensures errors != [] && SlotName(restHost) <= core.Keys ==> error == Some(InvalidConfiguration(errors))
    {
      var u := FirstUnknown(SlotName(restHost));
      if u.Some? { return Some(UnknownModule(u.value)); }
      if errors != [] { return Some(InvalidConfiguration(errors)); }
      u := FirstUnknown(rest.Keys);
      if u.Some? { return Some(UnknownModule(u.value)); }
      // The source looks the host up once more here; it was found above.
      u := FirstUnknown(db.Keys);
      if u.Some? { return Some(UnknownModule(u.value)); }
      u := FirstUnknown(stateful.Keys);
      if u.Some? { return Some(UnknownModule(u.value)); }
      u := FirstUnknown(SlotName(grpcHub));
      if u.Some? { return Some(UnknownModule(u.value)); }
      u := FirstUnknown(grpcServices.Keys);
      if u.Some? { return Some(UnknownModule(u.value)); }
      return None;
    }

    ghost predicate DependenciesKnown()
      reads this
    {
      forall n, d :: DependsOn(deps, n, d) ==> d in core
    }

    /** The edges of the modules in `done` and no others. */
    ghost predicate Built(names: seq<string>, adj: Adjacency, done: seq<string>)
      reads this
    {
      && |names| == |adj| && WellFormed(adj)
      && (forall u: nat, v: nat :: u < |adj| && v < |adj| ==>
            (Edge(adj, v, u) <==> names[u] in done && DependsOn(deps, names[u], names[v])))
    }

    /** As `Built`, and for module `n` also the edges from the dependencies in `part`. */
    ghost predicate PartlyBuilt(names: seq<string>, adj: Adjacency, done: seq<string>, n: string, part: seq<string>)
      reads this
    {
      && |names| == |adj| && WellFormed(adj)
      && (forall u: nat, v: nat :: u < |adj| && v < |adj| ==>
            (Edge(adj, v, u) <==>
               (names[u] in done && DependsOn(deps, names[u], names[v])) || (names[u] == n && names[v] in part)))
    }

    method IndexNames(names: seq<string>) returns (idx: map<string, nat>)
      requires NoDuplicates(names)
      ensures forall n :: n in idx <==> n in names
      ensures forall n :: n in idx ==> idx[n] < |names| && names[idx[n]] == n
    {
      idx := map[];
      for i := 0 to |names|
        invariant forall n :: n in idx <==> n in names[..i]
        invariant forall n :: n in idx ==> idx[n] < i && names[idx[n]] == n
      {
        assert names[..i + 1] == names[..i] + [names[i]];
        idx := idx[names[i] := i];
      }
      assert names[..|names|] == names;
    }

    /** One more edge, into the module `n` at index `u`, for one more of its dependencies. */
    lemma EdgeExtends(
      names: seq<string>, adj: Adjacency, done: seq<string>, n: string, part: seq<string>, u: nat, v: nat)
      requires NoDuplicates(names) && PartlyBuilt(names, adj, done, n, part)
      requires u < |names| && v < |names| && names[u] == n
      ensures PartlyBuilt(names, adj[v := adj[v] + [u]], done, n, part + [names[v]])
    {
      var next := adj[v := adj[v] + [u]];
      forall x: nat, y: nat | x < |adj| && y < |adj|
        ensures Edge(next, y, x) <==> Edge(adj, y, x) || (y == v && x == u)
      {
      }
    }

    /** Adds the edges of one module; fails on a dependency that no core module provides. */
    method AddEdges(names: seq<string>, idx: map<string, nat>, adj0: Adjacency, ghost done: seq<string>, n: string)
      returns (r: Result<Adjacency>)
      requires NoDuplicates(names) && Built(names, adj0, done) && n in deps && n in idx
      requires forall m :: m in idx <==> m in core
      requires forall m :: m in idx ==> idx[m] < |names| && names[idx[m]] == m
      ensures r.Ok? <==> forall d :: d in deps[n] ==> d in core
      ensures r.Ok? ==> Built(names, r.value, done + [n])
      ensures r.Err? ==> r.error.UnknownDependency? && r.error.from == n
                         && r.error.dependsOn in deps[n] && r.error.dependsOn !in core
    {
      var adj := adj0;
      var u := idx[n];
      for b := 0 to |deps[n]|
        invariant PartlyBuilt(names, adj, done, n, deps[n][..b])
        invariant forall c :: 0 <= c < b ==> deps[n][c] in core
      {
        var d := deps[n][b];
        if d !in idx { return Err(UnknownDependency(n, d)); }
        EdgeExtends(names, adj, done, n, deps[n][..b], u, idx[d]);
        assert deps[n][..b + 1] == deps[n][..b] + [d];
        adj := adj[idx[d] := adj[idx[d]] + [u]];
      }
      assert deps[n][..|deps[n]|] == deps[n];
      return Ok(adj);
    }

    /** Module `n` and all its dependencies are core modules. */
    ghost predicate Supplied(n: string)
      reads this
    {
      n in core && n in deps && forall d :: d in deps[n] ==> d in core
    }

    method AddAllEdges(names: seq<string>, idx: map<string, nat>, order: seq<string>) returns (r: Result<Adjacency>)
      requires NoDuplicates(names) && forall n :: n in order ==> n in deps
      requires forall m :: m in idx <==> m in core
      requires forall m :: m in idx ==> idx[m] < |names| && names[idx[m]] == m
      ensures r.Ok? <==> forall n :: n in order ==> Supplied(n)
      ensures r.Ok? ==> Built(names, r.value, order)
      ensures r.Err? ==> r.error.UnknownModule? || r.error.UnknownDependency?
      ensures r.Err? && r.error.UnknownModule? ==> r.error.name in deps && r.error.name !in core
      ensures r.Err? && r.error.UnknownDependency? ==>
                DependsOn(deps, r.error.from, r.error.dependsOn) && r.error.dependsOn !in core
    {
      var adj: Adjacency := seq(|names|, _ => []);
      for a := 0 to |order|
        invariant Built(names, adj, order[..a])
        invariant forall i :: 0 <= i < a ==> Supplied(order[i])
      {
        var n := order[a];
        assert n in order;
        if n !in idx { return Err(UnknownModule(n)); }
        var next := AddEdges(names, idx, adj, order[..a], n);
        if next.Err? { return Err(next.error); }
        adj := next.value;
        assert order[..a + 1] == order[..a] + [n];
      }
      assert order[..|order|] == order;
      return Ok(adj);
    }

    method BuildDependencyGraph() returns (r: Result<(seq<string>, Adjacency)>)
      ensures r.Ok? <==> deps.Keys <= core.Keys && DependenciesKnown()
      ensures r.Ok? ==> Enumerates(r.value.0, core.Keys) && GraphOf(deps, r.value.0, r.value.1)
      ensures r.Err? ==> r.error.UnknownModule? || r.error.UnknownDependency?
      ensures r.Err? && r.error.UnknownModule? ==> r.error.name in deps.Keys - core.Keys
      ensures r.Err? && r.error.UnknownDependency? ==>
                DependsOn(deps, r.error.from, r.error.dependsOn) && r.error.dependsOn !in core
    {
      var names := SomeOrder(core.Keys);
      var idx := IndexNames(names);
      var order := SomeOrder(deps.Keys);
      assert forall n :: n in core.Keys <==> n in names;
      assert forall n :: n in deps.Keys <==> n in order;
      var adj := AddAllEdges(names, idx, order);
      assert (forall n :: n in order ==> Supplied(n)) <==> deps.Keys <= core.Keys && DependenciesKnown() by {
        SuppliedMeansKnown(order);
      }
      if adj.Err? { return Err(adj.error); }
      return Ok((names, adj.value));
    }

    lemma SuppliedMeansKnown(order: seq<string>)
      requires forall n :: n in deps.Keys <==> n in order
      ensures (forall n :: n in order ==> Supplied(n)) <==> deps.Keys <= core.Keys && DependenciesKnown()
    {
      if forall n :: n in order ==> Supplied(n) {
        forall n, d | DependsOn(deps, n, d) ensures d in core { assert Supplied(n); }
      }
      if deps.Keys <= core.Keys && DependenciesKnown() {
        forall n | n in order ensures Supplied(n) {
          forall d | d in deps[n] ensures d in core { assert DependsOn(deps, n, d); }
        }
      }
    }

    method AssembleEntries(order: seq<nat>, names: seq<string>) returns (r: Result<seq<ModuleEntry>>)
      requires Below(order, |names|)
      ensures r.Ok? <==> forall j :: 0 <= j < |order| ==> names[order[j]] in deps && names[order[j]] in core
      ensures r.Ok? ==> |r.value| == |order|
                        && forall j :: 0 <= j < |order| ==> r.value[j] == EntryFor(names[order[j]])
      ensures r.Ok? ==> forall j :: 0 <= j < |order| ==> r.value[j].name == names[order[j]] && Carries(r.value[j])
      ensures r.Err? ==> exists j :: 0 <= j < |order| && r.error ==
                           if names[order[j]] !in deps then MissingDeps(names[order[j]]) else CoreNotFound(names[order[j]])
    {
      var entries := [];
      for j := 0 to |order|
        invariant |entries| == j
        invariant forall k :: 0 <= k < j ==> names[order[k]] in deps && names[order[k]] in core
        invariant forall k :: 0 <= k < j ==> entries[k] == EntryFor(names[order[k]])
        invariant forall k :: 0 <= k < j ==> entries[k].name == names[order[k]] && Carries(entries[k])
      {
        var name := names[order[j]];
        if name !in deps { return Err(MissingDeps(name)); }
        if name !in core { return Err(CoreNotFound(name)); }
        EntryCarries(name);
        entries := entries + [EntryFor(name)];
      }
      return Ok(entries);
    }

    /** Everything the build needs: no recorded error, known capabilities and dependencies, no cycle. */
    ghost predicate Buildable()
      reads this
    {
      && errors == [] && CapabilityNames() <= core.Keys
      && DependenciesKnown()
      && (forall path :: !DependencyCycle(deps, path))
    }

    ghost predicate Sound(r: ModuleRegistry)
      reads this
    {
      && Enumerates(Names(r.modules), core.Keys)
      && AllCarry(r.modules)
      && DependenciesFirst(r.modules)
      && r.grpcHub == (if grpcHub.Some? then Some(grpcHub.value.0) else None)
      && Enumerates(r.grpcServices, set n | n in grpcServices :: (n, grpcServices[n]))
    }

    ghost predicate EntriesOf(names: seq<string>, order: seq<nat>, entries: seq<ModuleEntry>)
      reads this
    {
      && |entries| == |order| && Below(order, |names|)
      && forall j :: 0 <= j < |order| ==>
           names[order[j]] in core && names[order[j]] in deps && entries[j] == EntryFor(names[order[j]])
    }

    lemma EntriesEnumerate(names: seq<string>, order: seq<nat>, entries: seq<ModuleEntry>)
      requires Enumerates(names, core.Keys) && EntriesOf(names, order, entries)
      requires NoDuplicates(order) && |order| == |names|
      ensures Enumerates(Names(entries), core.Keys)
    {
      forall k | k in core ensures k in Names(entries) {
        assert k in names;
        var i :| 0 <= i < |names| && names[i] == k;
        DistinctFillsRange(order, |names|, i);
        var j :| 0 <= j < |order| && order[j] == i;
        assert Names(entries)[j] == k;
      }
      assert core.Keys == set k | k in Names(entries);
    }

    lemma EntriesAreSound(names: seq<string>, adj: Adjacency, order: seq<nat>, entries: seq<ModuleEntry>)
      requires Enumerates(names, core.Keys) && GraphOf(deps, names, adj) && DependenciesKnown()
      requires NoDuplicates(order) && |order| == |names| && KahnSort.PredecessorsFirst(adj, order)
      requires EntriesOf(names, order, entries)
      ensures Enumerates(Names(entries), core.Keys) && DependenciesFirst(entries)
    {
      EntriesEnumerate(names, order, entries);
      forall j, d | 0 <= j < |entries| && d in entries[j].deps
        ensures exists i :: 0 <= i < j && entries[i].name == d
      {
        assert DependsOn(deps, entries[j].name, d);
        assert d in names;
        var v :| 0 <= v < |names| && names[v] == d;
        assert Edge(adj, v, order[j]);
        var i :| 0 <= i < j && order[..j][i] == v;
        assert entries[i].name == d;
      }
    }

    /** What the build shows once all nodes have been put in order. */
    lemma OrderedIsBuildable(names: seq<string>, adj: Adjacency, order: seq<nat>, entries: seq<ModuleEntry>)
      requires Enumerates(names, core.Keys) && GraphOf(deps, names, adj) && DependenciesKnown()
      requires NoDuplicates(order) && |order| == |names| && KahnSort.PredecessorsFirst(adj, order)
      requires EntriesOf(names, order, entries) && Valid()
      ensures Enumerates(Names(entries), core.Keys) && DependenciesFirst(entries) && AllCarry(entries)
      ensures forall path :: !DependencyCycle(deps, path)
    {
      EntriesAreSound(names, adj, order, entries);
      forall j | 0 <= j < |entries| ensures Carries(entries[j]) { EntryCarries(names[order[j]]); }
      forall path ensures !DependencyCycle(deps, path) { OrderedHasNoCycle(deps, entries, path); }
    }

    /** The registry is built exactly when it can be, and then no module is missing or out of order. */
    method BuildTopoSorted() returns (r: Result<ModuleRegistry>)
      requires Valid()
      ensures r.Ok? <==> Buildable()
      ensures r.Ok? ==> Sound(r.value)
      ensures r.Err? && r.error.CycleDetected? ==> DependencyCycle(deps, r.error.path)
      ensures r.Err? && r.error.UnknownDependency? ==>
                DependsOn(deps, r.error.from, r.error.dependsOn) && r.error.dependsOn !in core
      ensures r.Err? && r.error.UnknownModule? ==> r.error.name in CapabilityNames() - core.Keys
      ensures r.Err? && r.error.InvalidConfiguration? ==> r.error.errors == errors != []
      ensures r.Err? ==> !r.error.MissingDeps? && !r.error.CoreNotFound?
    {
      var invalid := ValidateCapabilities();
      if invalid.Some? { return Err(invalid.value); }
      var graph := BuildDependencyGraph();
      if graph.Err? { return Err(graph.error); }
      var (names, adj) := graph.value;
      var cycle := CycleSearch.DetectCycle(names, adj);
      if cycle.Some? {
        CycleInNames(deps, names, adj, cycle.value);
        return Err(CycleDetected(cycle.value));
      }
      var order := KahnSort.Sort(adj);
      var entries := AssembleEntries(order, names);
      assert entries.Ok?;  // neither MissingDeps nor CoreNotFound can arise
      OrderedIsBuildable(names, adj, order, entries.value);
      var services := SomeOrder(set n | n in grpcServices :: (n, grpcServices[n]));
      return Ok(ModuleRegistry(entries.value, if grpcHub.Some? then Some(grpcHub.value.0) else None, services));
    }
  }
}
