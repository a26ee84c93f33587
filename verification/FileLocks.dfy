/**
 * File-based advisory locks as a step relation: any number of `lock` and `try_lock` calls, explicit releases and
 * deferred drops, interleaved at the file-system operations.
 */
module FileLocks {
  import opened Seqs

  type Path = nat
  type Key = string
  type Id = nat

  datatype Pc =
    | Opening(path: Path)       // about to open the lock file with create-new
    | Opened(path: Path)        // created it; the guard is not built yet
    | Held(path: Path)          // a live guard
    | Unlocking(path: Path)     // the guard's inner part was taken; the file is to be removed
    | Abandoned(path: Path)     // nobody will remove the file: no guard was built, no runtime, or the removal failed
    | Refused                   // the file existed, or opening it failed
    | Released                  // the file was removed
  {
    predicate Holder() { Opened? || Held? || Unlocking? }
    predicate Occupies() { Holder() || Abandoned? }
  }

  datatype State = State(
    leftover: set<Path>,        // lock files on disk before the run
    files: set<Path>,
    calls: map<Id, Pc>,
    creator: map<Path, Id>,     // history: who created each existing file
    removals: map<Id, nat>)     // history: how often each call has removed its file

  datatype Step =
    | Call(id: Id, key: Key)
    | CreateNew(id: Id)
    | OpenFails(id: Id)
    | BuildGuard(id: Id)
    | CloneFails(id: Id)
    | Release(id: Id)
    | DropWithRuntime(id: Id)
    | DropWithoutRuntime(id: Id)
    | Remove(id: Id)
    | RemoveFails(id: Id)

  /** The lock path of a key: a hash, so distinct keys may share one. */
  type PathOf = Key -> Path

  function InitWith(leftover: set<Path>): State { State(leftover, leftover, map[], map[], map[]) }

  predicate Enabled(s: State, step: Step) {
    match step
    case Call(id, _) => id !in s.calls
    case CreateNew(id) => id in s.calls && s.calls[id].Opening?
    case OpenFails(id) => id in s.calls && s.calls[id].Opening?
    case BuildGuard(id) => id in s.calls && s.calls[id].Opened?
    case CloneFails(id) => id in s.calls && s.calls[id].Opened?
    case Release(id) => id in s.calls && s.calls[id].Held?
    case DropWithRuntime(id) => id in s.calls && s.calls[id].Held?
    case DropWithoutRuntime(id) => id in s.calls && s.calls[id].Held?
    case Remove(id) => id in s.calls && s.calls[id].Unlocking?
    case RemoveFails(id) => id in s.calls && s.calls[id].Unlocking?
  }

  function Go(s: State, id: Id, pc: Pc): State { s.(calls := s.calls[id := pc]) }

  function Removals(s: State, id: Id): nat { if id in s.removals then s.removals[id] else 0 }

  function Next(pathOf: PathOf, s: State, step: Step): State
    requires Enabled(s, step)
  {
    match step
    case Call(id, key) => Go(s, id, Opening(pathOf(key)))
    case CreateNew(id) =>
      var p := s.calls[id].path;
      if p in s.files then Go(s, id, Refused)
      else Go(s, id, Opened(p)).(files := s.files + {p}, creator := s.creator[p := id])
    case OpenFails(id) => Go(s, id, Refused)
    case BuildGuard(id) => Go(s, id, Held(s.calls[id].path))
    case CloneFails(id) => Go(s, id, Abandoned(s.calls[id].path))
    case Release(id) => Go(s, id, Unlocking(s.calls[id].path))
    case DropWithRuntime(id) => Go(s, id, Unlocking(s.calls[id].path))
    case DropWithoutRuntime(id) => Go(s, id, Abandoned(s.calls[id].path))
    case Remove(id) =>
      var p := s.calls[id].path;
      Go(s, id, Released).(files := s.files - {p}, creator := s.creator - {p}, removals := s.removals[id := Removals(s, id) + 1])
    case RemoveFails(id) => Go(s, id, Abandoned(s.calls[id].path))
  }

  predicate Legal(pathOf: PathOf, s: State, run: seq<Step>)
    decreases |run|
  {
    run == [] || (Enabled(s, run[0]) && Legal(pathOf, Next(pathOf, s, run[0]), run[1..]))
  }

  function Exec(pathOf: PathOf, s: State, run: seq<Step>): State
    requires Legal(pathOf, s, run)
    decreases |run|
  {
    if run == [] then s else Exec(pathOf, Next(pathOf, s, run[0]), run[1..])
  }

  /** Files made during the run and the calls that occupy them are in one-to-one correspondence. */
  ghost predicate Inv(s: State) {
    && s.leftover <= s.files && s.creator.Keys == s.files - s.leftover
    && (forall p :: p in s.creator ==>
          s.creator[p] in s.calls && s.calls[s.creator[p]].Occupies() && s.calls[s.creator[p]].path == p)
    && (forall id :: id in s.calls && s.calls[id].Occupies() ==>
          s.calls[id].path in s.creator && s.creator[s.calls[id].path] == id)
    && (forall id :: id in s.calls && !s.calls[id].Released? ==> Removals(s, id) == 0)
    && (forall id :: id !in s.calls ==> id !in s.removals)
    && (forall id :: id in s.calls ==> Removals(s, id) <= 1)
  }

  lemma CreateKeepsInv(pathOf: PathOf, s: State, id: Id)
    requires Inv(s) && Enabled(s, CreateNew(id))
    ensures Inv(Next(pathOf, s, CreateNew(id)))
  {
  }

  lemma RemoveKeepsInv(pathOf: PathOf, s: State, id: Id)
    requires Inv(s) && Enabled(s, Remove(id))
    ensures Inv(Next(pathOf, s, Remove(id)))
  {
  }

  lemma CallKeepsInv(pathOf: PathOf, s: State, id: Id, key: Key)
    requires Inv(s) && Enabled(s, Call(id, key))
    ensures Inv(Next(pathOf, s, Call(id, key)))
  {
  }

  /** Every other step moves one call on and leaves the files as they are. */
  lemma MoveEffect(pathOf: PathOf, s: State, step: Step)
    requires Enabled(s, step) && !step.Call? && !step.CreateNew? && !step.Remove?
    ensures var s' := Next(pathOf, s, step);
            && s' == s.(calls := s.calls[step.id := s'.calls[step.id]])
            && (s'.calls[step.id].Occupies() <==> s.calls[step.id].Occupies())
            && (s.calls[step.id].Occupies() ==> s'.calls[step.id].path == s.calls[step.id].path)
            && !s.calls[step.id].Released? && !s'.calls[step.id].Released?
  {
  }

  lemma StepKeepsInv(pathOf: PathOf, s: State, step: Step)
    requires Inv(s) && Enabled(s, step)
    ensures Inv(Next(pathOf, s, step)) && Next(pathOf, s, step).leftover == s.leftover
  {
    if step.Call? {
      CallKeepsInv(pathOf, s, step.id, step.key);
    } else if step.CreateNew? {
      CreateKeepsInv(pathOf, s, step.id);
    } else if step.Remove? {
      RemoveKeepsInv(pathOf, s, step.id);
    } else {
      MoveEffect(pathOf, s, step);
      MoveKeepsInv(s, step.id, Next(pathOf, s, step).calls[step.id]);
    }
  }

  lemma MoveKeepsInv(s: State, id: Id, pc: Pc)
    requires Inv(s) && id in s.calls && !s.calls[id].Released? && !pc.Released?
    requires (pc.Occupies() <==> s.calls[id].Occupies()) && (pc.Occupies() ==> pc.path == s.calls[id].path)
    ensures Inv(Go(s, id, pc))
  {
  }

  lemma {:induction false} RunKeepsInv(pathOf: PathOf, s: State, run: seq<Step>)
    requires Inv(s) && Legal(pathOf, s, run)
    ensures Inv(Exec(pathOf, s, run)) && Exec(pathOf, s, run).leftover == s.leftover
    decreases |run|
  {
    if run != [] {
      StepKeepsInv(pathOf, s, run[0]);
      RunKeepsInv(pathOf, Next(pathOf, s, run[0]), run[1..]);
    }
  }

  /** A lock path never has two holders, whatever keys they asked for, and a held path has its file. */
  lemma MutualExclusion(pathOf: PathOf, leftover: set<Path>, run: seq<Step>, g: Id, h: Id)
    requires Legal(pathOf, InitWith(leftover), run)
    requires var s := Exec(pathOf, InitWith(leftover), run);
             && g in s.calls && h in s.calls && s.calls[g].Holder() && s.calls[h].Holder()
             && s.calls[g].path == s.calls[h].path
    ensures g == h
    ensures var s := Exec(pathOf, InitWith(leftover), run); s.calls[g].path in s.files
  {
    RunKeepsInv(pathOf, InitWith(leftover), run);
  }

  /** Each call removes its file at most once. */
  lemma RemovedAtMostOnce(pathOf: PathOf, leftover: set<Path>, run: seq<Step>, id: Id)
    requires Legal(pathOf, InitWith(leftover), run)
    ensures Removals(Exec(pathOf, InitWith(leftover), run), id) <= 1
  {
    RunKeepsInv(pathOf, InitWith(leftover), run);
  }

  /** The lock file of a path exists exactly while the path is held, or was left over from before, or was abandoned. */
  lemma FileMeansOccupied(pathOf: PathOf, leftover: set<Path>, run: seq<Step>, p: Path)
    requires Legal(pathOf, InitWith(leftover), run)
    ensures var s := Exec(pathOf, InitWith(leftover), run);
            p in s.files <==> p in leftover || exists id :: id in s.calls && s.calls[id].Occupies() && s.calls[id].path == p
  {
    RunKeepsInv(pathOf, InitWith(leftover), run);
    var s := Exec(pathOf, InitWith(leftover), run);
    if p in s.files && p !in leftover { assert s.calls[s.creator[p]].Occupies(); }
  }

  /** When a call removes its file, that file is the one it created itself: nobody else's lock is broken. */
  lemma RemovesItsOwnFile(pathOf: PathOf, leftover: set<Path>, run: seq<Step>, id: Id)
    requires Legal(pathOf, InitWith(leftover), run) && Enabled(Exec(pathOf, InitWith(leftover), run), Remove(id))
    ensures var s := Exec(pathOf, InitWith(leftover), run);
            var p := s.calls[id].path;
            && p in s.files && p !in leftover && p in s.creator && s.creator[p] == id
            && forall other :: other in s.calls && other != id && s.calls[other].Occupies() ==> s.calls[other].path != p
  {
    RunKeepsInv(pathOf, InitWith(leftover), run);
  }

  // ---- What the operations achieve ----

  lemma TwoSteps(pathOf: PathOf, s: State, a: Step, b: Step)
    requires Enabled(s, a) && Enabled(Next(pathOf, s, a), b)
    ensures Legal(pathOf, s, [a, b]) && Exec(pathOf, s, [a, b]) == Next(pathOf, Next(pathOf, s, a), b)
  {
    assert [a, b][1..] == [b] && [b][1..] == [];
    var t := Next(pathOf, s, a);
    var u := Next(pathOf, t, b);
    assert Legal(pathOf, u, []) && Exec(pathOf, u, []) == u;
    assert Legal(pathOf, t, [b]) && Exec(pathOf, t, [b]) == u;
  }

  /** A call on a path gets the lock exactly when the lock file does not exist, and is refused otherwise. */
  lemma LockSucceedsIff(pathOf: PathOf, s: State, id: Id, key: Key)
    requires id !in s.calls
    ensures Legal(pathOf, s, [Call(id, key), CreateNew(id)])
    ensures var s' := Exec(pathOf, s, [Call(id, key), CreateNew(id)]);
            && s'.files == s.files + {pathOf(key)} && id in s'.calls
            && s'.calls[id] == (if pathOf(key) in s.files then Refused else Opened(pathOf(key)))
            && forall other :: other in s.calls ==> other in s'.calls && s'.calls[other] == s.calls[other]
  {
    TwoSteps(pathOf, s, Call(id, key), CreateNew(id));
  }

  /** Releasing a guard, or dropping it where a runtime is alive, and the unlock that follows remove the lock file. */
  lemma ReleaseRemovesFile(pathOf: PathOf, s: State, id: Id, release: Step)
    requires id in s.calls && s.calls[id].Held? && (release == Release(id) || release == DropWithRuntime(id))
    ensures Legal(pathOf, s, [release, Remove(id)])
    ensures var s' := Exec(pathOf, s, [release, Remove(id)]);
            && s'.calls == s.calls[id := Released] && s'.files == s.files - {s.calls[id].path}
  {
    TwoSteps(pathOf, s, release, Remove(id));
    var s' := Exec(pathOf, s, [release, Remove(id)]);
    assert s'.calls == s.calls[id := Released];
  }

  /** In every reachable state with a live guard: after its release anybody can lock the path again. */
  lemma ReleasedCanBeLocked(
    pathOf: PathOf, leftover: set<Path>, run: seq<Step>, id: Id, release: Step, next: Id, key: Key)
    requires Legal(pathOf, InitWith(leftover), run)
    requires var s := Exec(pathOf, InitWith(leftover), run);
             id in s.calls && s.calls[id].Held? && s.calls[id].path == pathOf(key) && next !in s.calls
    requires release == Release(id) || release == DropWithRuntime(id)
    ensures var s := Exec(pathOf, InitWith(leftover), run);
            && pathOf(key) in s.files && Legal(pathOf, s, [release, Remove(id)])
            && var s1 := Exec(pathOf, s, [release, Remove(id)]);
               && Legal(pathOf, s1, [Call(next, key), CreateNew(next)])
               && var s2 := Exec(pathOf, s1, [Call(next, key), CreateNew(next)]);
                  next in s2.calls && s2.calls[next] == Opened(pathOf(key)) && pathOf(key) in s2.files
  {
    var s := Exec(pathOf, InitWith(leftover), run);
    RunKeepsInv(pathOf, InitWith(leftover), run);
    ReleaseRemovesFile(pathOf, s, id, release);
    LockSucceedsIff(pathOf, Exec(pathOf, s, [release, Remove(id)]), next, key);
  }

  /** A lock file is left behind for good only where the source gives it up. */
  lemma AbandonedOnlyBy(pathOf: PathOf, s: State, step: Step, id: Id)
    requires Enabled(s, step) && id in Next(pathOf, s, step).calls && Next(pathOf, s, step).calls[id].Abandoned?
    ensures (id in s.calls && s.calls[id].Abandoned?)
            || step == CloneFails(id) || step == DropWithoutRuntime(id) || step == RemoveFails(id)
  {
  }

  /** A guard stays live until its owner gives it up. */
  lemma HeldUntilGivenUp(pathOf: PathOf, s: State, step: Step, id: Id)
    requires Enabled(s, step) && id in s.calls && s.calls[id].Held?
    ensures Next(pathOf, s, step).calls[id] == s.calls[id]
            || step == Release(id) || step == DropWithRuntime(id) || step == DropWithoutRuntime(id)
  {
  }

  lemma ThreeSteps(pathOf: PathOf, s: State, a: Step, b: Step, c: Step)
    requires Legal(pathOf, s, [a, b]) && Enabled(Exec(pathOf, s, [a, b]), c)
    ensures Legal(pathOf, s, [a, b, c]) && Exec(pathOf, s, [a, b, c]) == Next(pathOf, Exec(pathOf, s, [a, b]), c)
  {
    assert [a, b][1..] == [b] && [b][1..] == [];
    var t := Next(pathOf, s, a);
    var u := Next(pathOf, t, b);
    assert Exec(pathOf, s, [a, b]) == Exec(pathOf, t, [b]) == Exec(pathOf, u, []) == u;
    assert [a, b, c][1..] == [b, c];
    TwoSteps(pathOf, t, b, c);
  }

  /** A call on a free path ends with a live guard, unless something goes wrong on the way. */
  lemma LockGivesGuard(pathOf: PathOf, s: State, id: Id, key: Key)
    requires id !in s.calls && pathOf(key) !in s.files
    ensures Legal(pathOf, s, [Call(id, key), CreateNew(id), BuildGuard(id)])
    ensures var s' := Exec(pathOf, s, [Call(id, key), CreateNew(id), BuildGuard(id)]);
            id in s'.calls && s'.calls[id] == Held(pathOf(key)) && s'.files == s.files + {pathOf(key)}
  {
    LockSucceedsIff(pathOf, s, id, key);
    ThreeSteps(pathOf, s, Call(id, key), CreateNew(id), BuildGuard(id));
  }

  /** A guard dropped without a runtime leaves its file, and nobody can lock the path any more. */
  lemma DroppedWithoutRuntime(pathOf: PathOf, s: State, id: Id)
    requires id in s.calls && s.calls[id].Held?
    ensures var s' := Next(pathOf, s, DropWithoutRuntime(id));
            && s'.files == s.files && s'.calls[id] == Abandoned(s.calls[id].path)
            && !Enabled(s', Remove(id)) && !Enabled(s', Release(id))
  {
  }
}
