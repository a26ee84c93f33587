/** Pieces of runs in which one caller makes several steps in a row, for building particular runs. */
module LifecycleRuns {
  import opened Seqs
  import opened Lifecycle

  lemma LegalCons(d: Discipline, s: State, step: Step, rest: seq<Step>)
    requires Enabled(s, step) && Permits(d, s, step) && Legal(d, Next(s, step), rest)
    ensures Legal(d, s, [step] + rest) && Exec(d, s, [step] + rest) == Exec(d, Next(s, step), rest)
  {
    assert ([step] + rest)[1..] == rest;
  }

  /** The caller's next step, followed by a run from where it leads. */
  lemma AdvanceThen(d: Discipline, s: State, c: Caller, rest: seq<Step>) returns (run: seq<Step>)
    requires d.Plain() && Enabled(s, Advance(c)) && Legal(d, Next(s, Advance(c)), rest)
    ensures Legal(d, s, run) && Exec(d, s, run) == Exec(d, Next(s, Advance(c)), rest)
  {
    run := [Advance(c)] + rest;
    LegalCons(d, s, Advance(c), rest);
  }

  // ---- Starting ----

  /** The start has won its epoch and not stored the join handle yet. */
  predicate PastCas(pc: Pc) {
    || pc.StartClearFinished? || pc.StartClearCancelled? || pc.StartStoreToken? || pc.StartMarkRunning?
    || pc.StartSpawn? || pc.StartStoreHandle?
  }

  function StepsLeft(pc: Pc): nat {
    match pc
    case StartClearFinished(_, _) => 5
    case StartClearCancelled(_, _) => 4
    case StartStoreToken(_, _) => 3
    case StartMarkRunning(_, _) => 2
    case StartSpawn(_, _) => 1
    case _ => 0
  }

  function NewTask(ready: bool): Task { Task(Body, ready, if ready then Held else Dropped) }

  /** What a start that goes on from `pc` without interruption leaves behind. */
  ghost predicate StartDone(s: State, s': State, c: Caller, pc: Pc)
    requires PastCas(pc)
  {
    && s'.callers == s.callers[c := StartReturned(true)] && s'.epochs == s.epochs && s'.handle == Some(pc.epoch)
    && s'.tasks == (if pc.StartStoreHandle? then s.tasks else s.tasks[pc.epoch := NewTask(pc.ready)])
    && s'.status == (if StepsLeft(pc) >= 2 && !pc.ready then Running else s.status)
    && s'.watchers == (if StepsLeft(pc) >= 2 && pc.ready then s.watchers + {pc.epoch} else s.watchers)
  }

  lemma StartAdvances(s: State, c: Caller, pc: Pc, s': State)
    requires PastCas(pc) && !pc.StartStoreHandle? && StartDone(StartStep(s, c, pc), s', c, StartGoesTo(s, pc))
    ensures StartDone(s, s', c, pc)
  {
  }

  lemma {:induction false} StartFinishes(d: Discipline, s: State, c: Caller) returns (run: seq<Step>)
    requires d.Plain() && c in s.callers && PastCas(s.callers[c])
    ensures Legal(d, s, run) && StartDone(s, Exec(d, s, run), c, s.callers[c])
    decreases StepsLeft(s.callers[c])
  {
    var pc := s.callers[c];
    var s1 := Next(s, Advance(c));
    assert s1 == StartStep(s, c, pc) && s1.callers[c] == StartGoesTo(s, pc);
    if pc.StartStoreHandle? {
      run := AdvanceThen(d, s, c, []);
    } else {
      run := StartFinishes(d, s1, c);
      StartAdvances(s, c, pc, Exec(d, s1, run));
      run := AdvanceThen(d, s, c, run);
    }
  }

  /** A start called while the status is Stopped, with nobody else stepping until it returns. */
  lemma StartSucceeds(d: Discipline, s: State, c: Caller, ready: bool) returns (run: seq<Step>)
    requires d.Plain() && c !in s.callers && s.status == Stopped && Permits(d, s, CallStart(c, ready))
    ensures Legal(d, s, run) && run != [] && run[0] == CallStart(c, ready)
    ensures var s' := Exec(d, s, run);
            && s'.callers == s.callers[c := StartReturned(true)] && s'.epochs == s.epochs + 1
            && s'.tasks == s.tasks[s.epochs := NewTask(ready)]
            && s'.status == (if ready then Starting else Running)
            && s'.watchers == (if ready then s.watchers + {s.epochs} else s.watchers)
  {
    var s1 := Next(s, CallStart(c, ready));
    var s2 := Next(s1, Advance(c));
    run := StartFinishes(d, s2, c);
    assert s2.callers[c := StartReturned(true)] == s.callers[c := StartReturned(true)];
    run := AdvanceThen(d, s1, c, run);
    LegalCons(d, s, CallStart(c, ready), run);
    run := [CallStart(c, ready)] + run;
  }

  // ---- Stopping ----

  /** Stops moved and nothing happened to tasks, watchers and epochs. */
  ghost predicate OnlyStops(s: State, s': State, c: Caller, pc: Pc) {
    && s'.callers == s.callers[c := pc]
    && s'.tasks == s.tasks && s'.watchers == s.watchers && s'.epochs == s.epochs
  }

  lemma CancelStep(s: State, c: Caller, pc: Pc)
    requires pc.StopTakeToken? || pc.StopMarkCancelled? || pc.StopCancel?
    ensures var s' := StopStep(s, c, pc);
            OnlyStops(s, s', c, StopGoesTo(s, pc)) && s'.status == s.status && s'.handle == s.handle
  {
  }

  lemma {:induction false} StopReachesWait(d: Discipline, s: State, c: Caller) returns (run: seq<Step>)
    requires d.Plain() && c in s.callers
    requires s.callers[c].StopTakeToken? || s.callers[c].StopMarkCancelled? || s.callers[c].StopCancel?
    ensures Legal(d, s, run)
    ensures var s' := Exec(d, s, run); OnlyStops(s, s', c, StopWait) && s'.status == s.status && s'.handle == s.handle
    decreases if s.callers[c].StopTakeToken? then 2 else if s.callers[c].StopMarkCancelled? then 1 else 0
  {
    var s1 := Next(s, Advance(c));
    assert s1 == StopStep(s, c, s.callers[c]);
    CancelStep(s, c, s.callers[c]);
    run := [];
    if !s1.callers[c].StopWait? { run := StopReachesWait(d, s1, c); }
    run := AdvanceThen(d, s, c, run);
  }

  /** A stop called while the status is not Stopped, up to its wait. */
  lemma StopBegins(d: Discipline, s: State, c: Caller) returns (run: seq<Step>)
    requires d.Plain() && c !in s.callers && s.status != Stopped && Permits(d, s, CallStop(c))
    ensures Legal(d, s, run)
    ensures var s' := Exec(d, s, run); OnlyStops(s, s', c, StopWait) && s'.status == Stopping && s'.handle == s.handle
  {
    var s1 := Go(s, c, StopLoad);
    var s2 := Go(s1, c, StopStoreStopping);
    var s3 := Go(s2, c, StopTakeToken).(status := Stopping, stopper := Some(c));
    run := StopReachesWait(d, s3, c);
    assert s3.callers[c := StopWait] == s.callers[c := StopWait];
    assert Next(s2, Advance(c)) == s3;
    run := AdvanceThen(d, s2, c, run);
    run := AdvanceThen(d, s1, c, run);
    LegalCons(d, s, CallStop(c), run);
    run := [CallStop(c)] + run;
  }

  /** A waiting stop that times out and takes the handle. */
  lemma StopTakesHandle(d: Discipline, s: State, c: Caller) returns (run: seq<Step>)
    requires d.Plain() && c in s.callers && s.callers[c] == StopWait && s.handle.Some?
    ensures Legal(d, s, run) && run != [] && run[0] == TimeOut(c)
    ensures var s' := Exec(d, s, run);
            OnlyStops(s, s', c, StopAbort(s.handle.value, Timeout)) && s'.status == s.status && s'.handle.None?
  {
    var s1 := Next(s, TimeOut(c));
    run := AdvanceThen(d, s1, c, []);
    LegalCons(d, s, TimeOut(c), run);
    run := [TimeOut(c)] + run;
  }

  /** A stop that holds the handle of a task that is over, or has found no handle, up to its return. */
  lemma {:induction false} StopJoinsAndReturns(d: Discipline, s: State, c: Caller) returns (run: seq<Step>)
    requires d.Plain() && c in s.callers && CanReturn(s, s.callers[c])
    ensures Legal(d, s, run)
    ensures var s' := Exec(d, s, run); OnlyStops(s, s', c, StopReturned(s.callers[c].reason)) && s'.status == Stopped
    decreases match s.callers[c]
              case StopAbort(_, _) => 3
              case StopJoin(_, _) => 2
              case StopStoreFinished(_) => 1
              case _ => 0
  {
    var s1 := Next(s, Advance(c));
    assert s1 == StopStep(s, c, s.callers[c]);
    JoinStep(s, c, s.callers[c]);
    run := [];
    if !s.callers[c].StopStoreStopped? { run := StopJoinsAndReturns(d, s1, c); }
    run := AdvanceThen(d, s, c, run);
  }

  predicate CanReturn(s: State, pc: Pc) {
    match pc
    case StopAbort(e, _) => e in s.tasks && s.tasks[e].Over()
    case StopJoin(e, _) => e in s.tasks && s.tasks[e].Over()
    case StopStoreFinished(_) => true
    case StopStoreStopped(_) => true
    case _ => false
  }

  lemma JoinStep(s: State, c: Caller, pc: Pc)
    requires CanReturn(s, pc)
    ensures var s' := StopStep(s, c, pc);
            && OnlyStops(s, s', c, StopGoesTo(s, pc))
            && (if pc.StopStoreStopped? then s'.status == Stopped && s'.callers[c] == StopReturned(pc.reason)
                else CanReturn(s', s'.callers[c]) && s'.callers[c].reason == pc.reason)
  {
  }

  /** A waiting stop that times out and finds no handle publishes Stopped without joining anything. */
  lemma StopFindsNoHandle(d: Discipline, s: State, c: Caller) returns (run: seq<Step>)
    requires d.Plain() && c in s.callers && s.callers[c] == StopWait && s.handle.None?
    ensures Legal(d, s, run)
    ensures var s' := Exec(d, s, run); OnlyStops(s, s', c, StopReturned(Timeout)) && s'.status == Stopped
  {
    var s1 := Go(s, c, StopTakeHandle(Timeout));
    var s2 := Go(s1, c, StopStoreStopped(Timeout));
    run := StopJoinsAndReturns(d, s2, c);
    assert s2.callers[c := StopReturned(Timeout)] == s.callers[c := StopReturned(Timeout)];
    assert Next(s1, Advance(c)) == s2;
    run := AdvanceThen(d, s1, c, run);
    LegalCons(d, s, TimeOut(c), run);
    run := [TimeOut(c)] + run;
  }

  /** A waiting stop with nothing to join, or only a task that is over, can run to its return. */
  lemma StopLeavesWait(d: Discipline, s: State, c: Caller) returns (run: seq<Step>)
    requires d.Plain() && c in s.callers && s.callers[c] == StopWait
    requires s.handle.Some? ==> s.handle.value in s.tasks && s.tasks[s.handle.value].Over()
    ensures Legal(d, s, run)
    ensures var s' := Exec(d, s, run); OnlyStops(s, s', c, StopReturned(Timeout)) && s'.status == Stopped
  {
    if s.handle.None? {
      run := StopFindsNoHandle(d, s, c);
    } else {
      run := StopTakesHandle(d, s, c);
      var last := StopJoinsAndReturns(d, Exec(d, s, run), c);
      LegalConcat(d, s, run, last);
      run := run + last;
    }
  }

  lemma StopReturnsAtOnce(d: Discipline, s: State, c: Caller) returns (run: seq<Step>)
    requires d.Plain() && c !in s.callers && Permits(d, s, CallStop(c)) && s.status == Stopped
    ensures Legal(d, s, run)
    ensures var s' := Exec(d, s, run); OnlyStops(s, s', c, StopReturned(Finished)) && s'.status == Stopped
  {
    run := AdvanceThen(d, Next(s, CallStop(c)), c, []);
    LegalCons(d, s, CallStop(c), run);
    run := [CallStop(c)] + run;
  }

  /** A stop called with nothing to join, or only a task that is over, can run to its return. */
  lemma StopReturns(d: Discipline, s: State, c: Caller) returns (run: seq<Step>, r: StopReason)
    requires d.Plain() && c !in s.callers && Permits(d, s, CallStop(c))
    requires s.handle.Some? ==> s.handle.value in s.tasks && s.tasks[s.handle.value].Over()
    ensures Legal(d, s, run)
    ensures var s' := Exec(d, s, run); OnlyStops(s, s', c, StopReturned(r)) && s'.status == Stopped
  {
    if s.status == Stopped {
      run := StopReturnsAtOnce(d, s, c);
      r := Finished;
    } else {
      run := StopBegins(d, s, c);
      var last := StopLeavesWait(d, Exec(d, s, run), c);
      r := Timeout;
      LegalConcat(d, s, run, last);
      run := run + last;
    }
  }

  // ---- The task ----

  /** The body returns and the task makes its two finishing writes. */
  lemma TaskFinishes(d: Discipline, s: State, e: Epoch) returns (run: seq<Step>)
    requires d.Plain() && e in s.tasks && s.tasks[e].pc == Body
    ensures Legal(d, s, run)
    ensures Exec(d, s, run) == SetTask(s, e, s.tasks[e].(pc := Ended)).(finished := true, status := Stopped)
  {
    var t := s.tasks[e];
    var s1 := SetTask(s, e, t.(pc := StoreFinished));
    var s2 := SetTask(s1, e, t.(pc := StoreStopped)).(finished := true);
    var s3 := SetTask(s2, e, t.(pc := Ended)).(status := Stopped);
    assert s3.tasks == s.tasks[e := t.(pc := Ended)];
    LegalCons(d, s2, TaskStores(e), []);
    run := [TaskStores(e)] + [];
    LegalCons(d, s1, TaskStores(e), run);
    run := [TaskStores(e)] + run;
    LegalCons(d, s, BodyReturns(e), run);
    run := [BodyReturns(e)] + run;
  }
}
