/** The per-module database handle cache under concurrent `get` calls: check, build, publish. */
module HandleCache {
  import opened Seqs

  type Handle = nat
  type Id = nat

  datatype Pc =
    | Check(name: string)
    | Build(name: string)
    | Publish(name: string, built: Handle)
    | Returned(name: string, handle: Handle)
    | NoDatabase
    | Failed

  datatype State = State(cache: map<string, Handle>, calls: map<Id, Pc>)

  const Init := State(map[], map[])

  datatype Step =
    | Call(id: Id, name: string)
    | CheckCache(id: Id)
    | BuildGives(id: Id, handle: Handle)   // each build may give a different handle
    | BuildGivesNone(id: Id)
    | BuildFails(id: Id)
    | PublishHandle(id: Id)

  predicate Enabled(s: State, step: Step) {
    match step
    case Call(id, _) => id !in s.calls
    case CheckCache(id) => id in s.calls && s.calls[id].Check?
    case BuildGives(id, _) => id in s.calls && s.calls[id].Build?
    case BuildGivesNone(id) => id in s.calls && s.calls[id].Build?
    case BuildFails(id) => id in s.calls && s.calls[id].Build?
    case PublishHandle(id) => id in s.calls && s.calls[id].Publish?
  }

  function Go(s: State, id: Id, pc: Pc): State { s.(calls := s.calls[id := pc]) }

  function Next(s: State, step: Step): State
    requires Enabled(s, step)
  {
    match step
    case Call(id, m) => Go(s, id, Check(m))
    case CheckCache(id) =>
      var m := s.calls[id].name;
      Go(s, id, if m in s.cache then Returned(m, s.cache[m]) else Build(m))
    case BuildGives(id, h) => Go(s, id, Publish(s.calls[id].name, h))
    case BuildGivesNone(id) => Go(s, id, NoDatabase)
    case BuildFails(id) => Go(s, id, Failed)
    case PublishHandle(id) =>
      var Publish(m, h) := s.calls[id];
      if m in s.cache then Go(s, id, Returned(m, s.cache[m]))
      else Go(s, id, Returned(m, h)).(cache := s.cache[m := h])
  }

  predicate Legal(s: State, run: seq<Step>)
    decreases |run|
  {
    run == [] || (Enabled(s, run[0]) && Legal(Next(s, run[0]), run[1..]))
  }

  function Exec(s: State, run: seq<Step>): State
    requires Legal(s, run)
    decreases |run|
  {
    if run == [] then s else Exec(Next(s, run[0]), run[1..])
  }

  ghost predicate Inv(s: State) {
    forall id :: id in s.calls && s.calls[id].Returned? ==>
      s.calls[id].name in s.cache && s.cache[s.calls[id].name] == s.calls[id].handle
  }

  /** `later` still has every entry of `earlier`, and every call that had returned still has its result. */
  ghost predicate Extends(earlier: State, later: State) {
    && (forall m :: m in earlier.cache ==> m in later.cache && later.cache[m] == earlier.cache[m])
    && (forall id :: id in earlier.calls && earlier.calls[id].Returned? ==>
          id in later.calls && later.calls[id] == earlier.calls[id])
  }

  /** Whatever happens next, cached entries and results stay as they are. */
  lemma {:induction false} CacheOnlyGrows(s: State, run: seq<Step>)
    requires Inv(s) && Legal(s, run)
    ensures Inv(Exec(s, run)) && Extends(s, Exec(s, run))
    decreases |run|
  {
    if run != [] {
      var next := Next(s, run[0]);
      assert Inv(next) && Extends(s, next);
      CacheOnlyGrows(next, run[1..]);
    }
  }

  /** All calls that ever return a handle for a module return the same one, and it is the cached one. */
  lemma OneHandlePerModule(run: seq<Step>, g: Id, h: Id)
    requires Legal(Init, run)
    requires var s := Exec(Init, run);
             && g in s.calls && h in s.calls && s.calls[g].Returned? && s.calls[h].Returned?
             && s.calls[g].name == s.calls[h].name
    ensures var s := Exec(Init, run);
            && s.calls[g].handle == s.calls[h].handle
            && s.calls[g].name in s.cache && s.cache[s.calls[g].name] == s.calls[g].handle
  {
    CacheOnlyGrows(Init, run);
  }

  // ---- What one call answers ----

  lemma RunOf(s: State, a: Step, rest: seq<Step>)
    requires Enabled(s, a) && Legal(Next(s, a), rest)
    ensures Legal(s, [a] + rest) && Exec(s, [a] + rest) == Exec(Next(s, a), rest)
  {
    assert ([a] + rest)[1..] == rest;
  }

  lemma CheckAnswers(s: State, id: Id, name: string)
    requires id !in s.calls
    ensures Legal(s, [Call(id, name)] + ([CheckCache(id)] + []))
    ensures var s' := Exec(s, [Call(id, name)] + ([CheckCache(id)] + []));
            && s'.cache == s.cache && id in s'.calls
            && s'.calls[id] == (if name in s.cache then Returned(name, s.cache[name]) else Build(name))
  {
    var s1 := Next(s, Call(id, name));
    RunOf(s1, CheckCache(id), []);
    RunOf(s, Call(id, name), [CheckCache(id)] + []);
  }

  /** A module that is cached is answered from the cache, without a build. */
  lemma CachedIsAnswered(s: State, id: Id, name: string)
    requires id !in s.calls && name in s.cache
    ensures Legal(s, [Call(id, name)] + ([CheckCache(id)] + []))
    ensures var s' := Exec(s, [Call(id, name)] + ([CheckCache(id)] + []));
            id in s'.calls && s'.calls[id] == Returned(name, s.cache[name]) && s'.cache == s.cache
  {
    CheckAnswers(s, id, name);
  }

  /** The first handle to be published is cached and answered; a later one gives way to it. */
  lemma PublishAnswers(s: State, id: Id, name: string, built: Handle)
    requires id in s.calls && s.calls[id] == Publish(name, built)
    ensures var s' := Next(s, PublishHandle(id));
            && name in s'.cache && s'.calls[id] == Returned(name, s'.cache[name])
            && s'.cache[name] == (if name in s.cache then s.cache[name] else built)
            && s'.cache == s.cache[name := s'.cache[name]]
  {
  }

  /** A handle comes back only if one was built; a failure or a missing configuration is answered as such. */
  lemma BuildAnswers(s: State, step: Step, id: Id, name: string)
    requires Enabled(s, step) && id in s.calls && s.calls[id] == Build(name)
    ensures Next(s, step).calls[id] == s.calls[id]
            || (step == BuildFails(id) && Next(s, step).calls[id] == Failed)
            || (step == BuildGivesNone(id) && Next(s, step).calls[id] == NoDatabase)
            || exists h :: step == BuildGives(id, h) && Next(s, step).calls[id] == Publish(name, h)
    ensures Next(s, step).calls[id] != s.calls[id] ==> Next(s, step).cache == s.cache
  {
    if step.BuildGives? && step.id == id { assert step == BuildGives(id, step.handle); }
  }
}
