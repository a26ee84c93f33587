/**
 * What a controller cannot know: an observing run in which some ready-mode epoch was never seen Running cannot be told
 * from one in which the ready watcher of that epoch can still fire.
 */
module LifecycleUnseen {
  import opened Seqs
  import opened Lifecycle
  import opened LifecyclePhased
  import opened LifecycleReady
  import opened LifecycleRuns
  import opened LifecycleLimits

  /** A start without ready mode that has won its epoch and not marked it Running yet. */
  predicate Unmarked(pc: Pc) {
    && (pc.StartClearFinished? || pc.StartClearCancelled? || pc.StartStoreToken? || pc.StartMarkRunning?)
    && !pc.ready
  }

  ghost function StarterPc(s: State, starter: Option<Caller>): Option<Pc> {
    if starter.Some? && starter.value in s.callers then Some(s.callers[starter.value]) else None
  }

  /** Where the status Starting comes from. */
  ghost predicate StartingInv(s: State, starter: Option<Caller>) {
    s.status == Starting ==>
      || (Spawned(s) && s.tasks[s.epochs - 1].readyMode)
      || (var pc := StarterPc(s, starter); pc.Some? && (Unmarked(pc.value) || AwaitsSpawn(pc.value)))
  }

  /** Epoch `e` is in ready mode and the last such epoch, from the moment it begins. */
  ghost predicate LastReady(s: State, starter: Option<Caller>, e: Epoch) {
    var pc := StarterPc(s, starter);
    && (forall d :: d in s.tasks && d > e ==> !s.tasks[d].readyMode)
    && (e in s.tasks ==> s.tasks[e].readyMode)
    && (pc.Some? && AwaitsSpawn(pc.value) ==> pc.value.epoch <= e)
    && (pc == Some(StartCas(true)) ==> s.epochs <= e)
    && (e < s.epochs && e !in s.tasks ==> pc.Some? && PastCas(pc.value) && pc.value.epoch == e)
  }

  // ---- The steps that are left out ----

  predicate Kept(step: Step, e: Epoch) {
    step != DropSignal(e) && step != WatcherFires(e) && step != WatcherGivesUp(e)
  }

  function Thin(run: seq<Step>, e: Epoch): seq<Step> {
    if run == [] then [] else (if Kept(run[0], e) then [run[0]] else []) + Thin(run[1..], e)
  }

  /** What the controller does and sees: its calls, their steps and its observations. */
  function Visible(run: seq<Step>): seq<Step> {
    if run == [] then []
    else (if run[0].CallStart? || run[0].CallStop? || CallerStep(run[0]) || run[0].Observe? then [run[0]] else [])
         + Visible(run[1..])
  }

  lemma {:induction false} ThinIsInvisible(run: seq<Step>, e: Epoch)
    ensures Visible(Thin(run, e)) == Visible(run)
  {
    if run != [] {
      ThinIsInvisible(run[1..], e);
      if Kept(run[0], e) {
        assert Thin(run, e)[1..] == Thin(run[1..], e);
      } else {
        assert Thin(run, e) == Thin(run[1..], e);
      }
    }
  }

  // ---- The two runs side by side ----

  /** The status of the thin run lags behind at most where nobody looks. */
  ghost predicate StatusLags(s: State, s': State, starter: Option<Caller>, e: Epoch) {
    || s'.status == s.status
    || (s.status == Running && s'.status == Starting
        && (s.epochs - 1 == e || (var pc := StarterPc(s, starter); pc.Some? && Unmarked(pc.value))))
  }

  /** The thin run keeps the watcher of epoch `e`, and its signal is never dropped. */
  ghost predicate KeepsWatcher(s: State, s': State, starter: Option<Caller>, e: Epoch) {
    && (forall w :: w != e ==> (w in s'.watchers <==> w in s.watchers))
    && (e in s.watchers ==> e in s'.watchers)
    && (e in s.tasks || StarterPc(s, starter) == Some(StartSpawn(e, true)) ==> e in s'.watchers)
  }

  ghost predicate SameTasks(s: State, s': State, e: Epoch) {
    && s'.tasks.Keys == s.tasks.Keys
    && (forall d :: d in s.tasks && d != e ==> s'.tasks[d] == s.tasks[d])
    && (e in s.tasks ==>
          && s'.tasks[e].pc == s.tasks[e].pc && s'.tasks[e].readyMode == s.tasks[e].readyMode
          && (s.tasks[e].signal == Dropped || s'.tasks[e].signal == s.tasks[e].signal)
          && s'.tasks[e].signal != Dropped)
  }

  ghost predicate Alike(s: State, s': State, starter: Option<Caller>, e: Epoch) {
    && s' == s.(status := s'.status, watchers := s'.watchers, tasks := s'.tasks)
    && StatusLags(s, s', starter, e) && KeepsWatcher(s, s', starter, e) && SameTasks(s, s', e)
  }

  lemma FiringIsEarly(s: State, starter: Option<Caller>, e: Epoch)
    requires Inv(s, starter) && StartingInv(s, starter) && LastReady(s, starter, e)
    requires e in s.watchers && s.status == Starting && s.epochs - 1 != e
    ensures var pc := StarterPc(s, starter); pc.Some? && Unmarked(pc.value)
  {
    assert e < s.epochs;
  }

  lemma SkippedStepAlike(s: State, s': State, starter: Option<Caller>, e: Epoch, step: Step)
    requires Alike(s, s', starter, e) && Enabled(s, step) && !Kept(step, e)
    requires step == WatcherFires(e) && s.status == Starting && s.epochs - 1 != e ==>
               var pc := StarterPc(s, starter); pc.Some? && Unmarked(pc.value)
    ensures Alike(Next(s, step), s', starter, e)
  {
  }

  /** The same change to task `d` on both sides. */
  lemma SetTaskAlike(s: State, s': State, starter: Option<Caller>, e: Epoch, d: Epoch, t: Task, t': Task)
    requires Alike(s, s', starter, e) && d in s.tasks
    requires t'.pc == t.pc && t'.readyMode == t.readyMode && (d != e ==> t' == t)
    requires d == e ==> (t.signal == Dropped || t'.signal == t.signal) && t'.signal != Dropped
    ensures Alike(SetTask(s, d, t), SetTask(s', d, t'), starter, e)
  {
  }

  lemma SignalStepAlike(s: State, s': State, starter: Option<Caller>, e: Epoch, step: Step)
    requires Alike(s, s', starter, e) && Enabled(s, step) && Kept(step, e) && (step.Notify? || step.DropSignal?)
    ensures Enabled(s', step) && Alike(Next(s, step), Next(s', step), starter, e)
  {
    var d := step.epoch;
    var signal := if step.Notify? then Sent else Dropped;
    SetTaskAlike(s, s', starter, e, d, s.tasks[d].(signal := signal), s'.tasks[d].(signal := signal));
  }

  lemma BodyStepAlike(s: State, s': State, starter: Option<Caller>, e: Epoch, step: Step)
    requires Alike(s, s', starter, e) && Enabled(s, step)
    requires step.BodyReturns? || step.BodyPanics? || step.AbortTakesEffect?
    ensures Enabled(s', step) && Alike(Next(s, step), Next(s', step), starter, e)
  {
    var d := step.epoch;
    var pc := if step.BodyReturns? then StoreFinished else Dead;
    SetTaskAlike(s, s', starter, e, d, s.tasks[d].(pc := pc), s'.tasks[d].(pc := pc));
  }

  lemma FinishStepAlike(s: State, s': State, starter: Option<Caller>, e: Epoch, step: Step)
    requires Alike(s, s', starter, e) && Enabled(s, step) && step.TaskStores?
    ensures Enabled(s', step) && Alike(Next(s, step), Next(s', step), starter, e)
  {
    var d := step.epoch;
    var pc := if s.tasks[d].pc == StoreFinished then StoreStopped else Ended;
    var t, t' := SetTask(s, d, s.tasks[d].(pc := pc)), SetTask(s', d, s'.tasks[d].(pc := pc));
    SetTaskAlike(s, s', starter, e, d, s.tasks[d].(pc := pc), s'.tasks[d].(pc := pc));
    ChangeAlike(t, t', Next(s, step), Next(s', step), starter, e);
  }

  lemma WatcherStepAlike(s: State, s': State, starter: Option<Caller>, e: Epoch, step: Step)
    requires Alike(s, s', starter, e) && Enabled(s, step) && Kept(step, e) && (step.WatcherFires? || step.WatcherGivesUp?)
    ensures Enabled(s', step) && Alike(Next(s, step), Next(s', step), starter, e)
  {
  }

  // ---- Calls ----

  /** Among states that differ as these do, calls are permitted alike. */
  lemma PermitsAlike(s: State, s': State, starter: Option<Caller>, e: Epoch, step: Step)
    requires Alike(s, s', starter, e) && Permits(Observing, s, step)
    ensures Permits(Observing, s', step)
  {
    if step.CallStart? && step.ready {
      forall d | d in s'.tasks && s'.tasks[d].readyMode ensures d in s'.seenRunning {
        assert d in s.tasks && s.tasks[d].readyMode;
      }
    }
  }

  lemma CallAlike(s: State, s': State, starter: Option<Caller>, e: Epoch, step: Step)
    requires Alike(s, s', starter, e) && Enabled(s, step) && (step.CallStart? || step.CallStop?)
    requires step.CallStart? ==> starter.None?
    ensures Enabled(s', step)
    ensures Alike(Next(s, step), Next(s', step), if step.CallStart? then Some(step.caller) else starter, e)
  {
  }

  lemma ObserveAlike(s: State, s': State, starter: Option<Caller>, e: Epoch)
    requires Alike(s, s', starter, e) && starter.None? && e !in Next(s, Observe).seenRunning
    ensures Alike(Next(s, Observe), Next(s', Observe), starter, e)
  {
  }

  lemma WaitAlike(s: State, s': State, starter: Option<Caller>, e: Epoch, step: Step)
    requires Alike(s, s', starter, e) && Enabled(s, step) && (step.SeeFinished? || step.TimeOut?)
    requires starter != Some(step.caller)
    ensures Enabled(s', step) && Alike(Next(s, step), Next(s', step), starter, e)
  {
  }

  /** The same change to what the two states have in common. */
  ghost predicate SameChange(s: State, s': State, t: State, t': State) {
    && t' == t.(status := t'.status, watchers := t'.watchers, tasks := t'.tasks)
    && t.watchers == s.watchers && t'.watchers == s'.watchers && t.tasks == s.tasks && t'.tasks == s'.tasks
    && t.epochs == s.epochs && t.callers == s.callers
    && ((t.status == s.status && t'.status == s'.status) || t.status == t'.status)
  }

  lemma ChangeAlike(s: State, s': State, t: State, t': State, starter: Option<Caller>, e: Epoch)
    requires Alike(s, s', starter, e) && SameChange(s, s', t, t')
    ensures Alike(t, t', starter, e)
  {
  }

  lemma TakeTokenAlike(s: State, s': State, starter: Option<Caller>, e: Epoch, c: Caller, pc: Pc)
    requires Alike(s, s', starter, e) && pc.StopTakeToken?
    ensures SameChange(s, s', StopWrites(s, c, pc), StopWrites(s', c, pc))
  {
  }

  lemma CancelWritesAlike(s: State, s': State, starter: Option<Caller>, e: Epoch, c: Caller, pc: Pc)
    requires Alike(s, s', starter, e) && (pc.StopMarkCancelled? || pc.StopCancel?)
    ensures SameChange(s, s', StopWrites(s, c, pc), StopWrites(s', c, pc))
  {
  }

  lemma OtherWritesAlike(s: State, s': State, starter: Option<Caller>, e: Epoch, c: Caller, pc: Pc)
    requires Alike(s, s', starter, e)
    requires pc.StopLoad? || pc.StopStoreStopping? || pc.StopReadCancelled? || pc.StopJoin?
    ensures SameChange(s, s', StopWrites(s, c, pc), StopWrites(s', c, pc))
  {
  }

  lemma TakeHandleAlike(s: State, s': State, starter: Option<Caller>, e: Epoch, c: Caller, pc: Pc)
    requires Alike(s, s', starter, e) && pc.StopTakeHandle?
    ensures SameChange(s, s', StopWrites(s, c, pc), StopWrites(s', c, pc))
  {
  }

  lemma AbortAlike(s: State, s': State, starter: Option<Caller>, e: Epoch, c: Caller, pc: Pc)
    requires Alike(s, s', starter, e) && pc.StopAbort?
    ensures SameChange(s, s', StopWrites(s, c, pc), StopWrites(s', c, pc))
  {
    var d := pc.epoch;
    assert d in s.tasks && s.tasks[d].Over() <==> d in s'.tasks && s'.tasks[d].Over();
  }

  lemma LastWritesAlike(s: State, s': State, starter: Option<Caller>, e: Epoch, c: Caller, pc: Pc)
    requires Alike(s, s', starter, e) && (pc.StopStoreFinished? || pc.StopStoreStopped?)
    ensures SameChange(s, s', StopWrites(s, c, pc), StopWrites(s', c, pc))
  {
  }

  lemma StopGoesAlike(s: State, s': State, starter: Option<Caller>, e: Epoch, pc: Pc)
    requires Alike(s, s', starter, e) && !pc.IsStart() && CanAdvance(s, pc)
    ensures CanAdvance(s', pc) && StopGoesTo(s, pc) == StopGoesTo(s', pc)
  {
  }

  lemma GoAlike(s: State, s': State, starter: Option<Caller>, e: Epoch, c: Caller, pc: Pc)
    requires Alike(s, s', starter, e) && starter != Some(c)
    ensures Alike(Go(s, c, pc), Go(s', c, pc), starter, e)
  {
  }

  /** A stop reads of the status only whether it is Stopped, and of a task only whether it is over. */
  lemma StopAlike(s: State, s': State, starter: Option<Caller>, e: Epoch, c: Caller)
    requires Alike(s, s', starter, e) && Enabled(s, Advance(c)) && !s.callers[c].IsStart() && starter != Some(c)
    ensures Enabled(s', Advance(c))
    ensures Alike(Next(s, Advance(c)), Next(s', Advance(c)), starter, e)
  {
    var pc := s.callers[c];
    StopGoesAlike(s, s', starter, e, pc);
    if pc.StopTakeHandle? {
      TakeHandleAlike(s, s', starter, e, c, pc);
    } else if pc.StopAbort? {
      AbortAlike(s, s', starter, e, c, pc);
    } else if pc.StopStoreFinished? || pc.StopStoreStopped? {
      LastWritesAlike(s, s', starter, e, c, pc);
    } else if pc.StopTakeToken? {
      TakeTokenAlike(s, s', starter, e, c, pc);
    } else if pc.StopMarkCancelled? || pc.StopCancel? {
      CancelWritesAlike(s, s', starter, e, c, pc);
    } else {
      OtherWritesAlike(s, s', starter, e, c, pc);
    }
    ChangeAlike(s, s', StopWrites(s, c, pc), StopWrites(s', c, pc), starter, e);
    GoAlike(StopWrites(s, c, pc), StopWrites(s', c, pc), starter, e, c, StopGoesTo(s, pc));
  }

  ghost function StarterAfterPc(c: Caller, pc: Pc): Option<Caller> { if pc.Returned() then None else Some(c) }

  lemma StartWinsAlike(s: State, s': State, e: Epoch, c: Caller)
    requires Alike(s, s', Some(c), e) && c in s.callers && s.callers[c].StartCas? && s.status == Stopped && Epochs(s)
    ensures Alike(StartStep(s, c, s.callers[c]), StartStep(s', c, s.callers[c]), Some(c), e)
  {
  }

  lemma StartLosesAlike(s: State, s': State, e: Epoch, c: Caller)
    requires Alike(s, s', Some(c), e) && c in s.callers && s.callers[c].StartCas? && s.status != Stopped
    ensures Alike(StartStep(s, c, s.callers[c]), StartStep(s', c, s.callers[c]), None, e)
  {
  }

  lemma StartPrepareAlike(s: State, s': State, e: Epoch, c: Caller)
    requires Alike(s, s', Some(c), e) && c in s.callers
    requires s.callers[c].StartClearFinished? || s.callers[c].StartClearCancelled? || s.callers[c].StartStoreToken?
             || s.callers[c].StartStoreHandle?
    ensures var t := StartStep(s, c, s.callers[c]);
            Alike(t, StartStep(s', c, s.callers[c]), StarterAfterPc(c, t.callers[c]), e)
  {
  }

  lemma StartMarkAlike(s: State, s': State, e: Epoch, c: Caller)
    requires Alike(s, s', Some(c), e) && c in s.callers && s.callers[c].StartMarkRunning?
    ensures Alike(StartStep(s, c, s.callers[c]), StartStep(s', c, s.callers[c]), Some(c), e)
  {
    if s.callers[c].ready { StartMarkReadyAlike(s, s', e, c); } else { StartMarkRunningAlike(s, s', e, c); }
  }

  lemma StartMarkReadyAlike(s: State, s': State, e: Epoch, c: Caller)
    requires Alike(s, s', Some(c), e) && c in s.callers && s.callers[c].StartMarkRunning? && s.callers[c].ready
    ensures Alike(StartStep(s, c, s.callers[c]), StartStep(s', c, s.callers[c]), Some(c), e)
  {
  }

  lemma StartMarkRunningAlike(s: State, s': State, e: Epoch, c: Caller)
    requires Alike(s, s', Some(c), e) && c in s.callers && s.callers[c].StartMarkRunning? && !s.callers[c].ready
    ensures Alike(StartStep(s, c, s.callers[c]), StartStep(s', c, s.callers[c]), Some(c), e)
  {
  }

  lemma StartSpawnAlike(s: State, s': State, e: Epoch, c: Caller)
    requires Alike(s, s', Some(c), e) && c in s.callers && s.callers[c].StartSpawn?
    requires s.callers[c].epoch == e ==> s.callers[c].ready
    ensures Alike(StartStep(s, c, s.callers[c]), StartStep(s', c, s.callers[c]), Some(c), e)
  {
  }

  lemma StartStepAlike(s: State, s': State, e: Epoch, c: Caller, pc: Pc)
    requires Alike(s, s', Some(c), e) && c in s.callers && s.callers[c] == pc && StartPc(s, pc) && Epochs(s)
    requires pc.StartSpawn? && pc.epoch == e ==> pc.ready
    ensures Alike(StartStep(s, c, pc), StartStep(s', c, pc), StarterAfterPc(c, StartGoesTo(s, pc)), e)
  {
    match pc
    case StartCas(_) => if s.status == Stopped { StartWinsAlike(s, s', e, c); } else { StartLosesAlike(s, s', e, c); }
    case StartMarkRunning(_, _) => StartMarkAlike(s, s', e, c);
    case StartSpawn(_, _) => StartSpawnAlike(s, s', e, c);
    case _ => StartPrepareAlike(s, s', e, c);
  }

  lemma StarterAlike(s: State, s': State, e: Epoch, c: Caller)
    requires Inv(s, Some(c)) && Alike(s, s', Some(c), e) && Enabled(s, Advance(c))
    requires s.callers[c].StartSpawn? && s.callers[c].epoch == e ==> s.callers[c].ready
    ensures Enabled(s', Advance(c))
    ensures var t := Next(s, Advance(c)); Alike(t, Next(s', Advance(c)), StarterAfterPc(c, t.callers[c]), e)
  {
    StartStepAlike(s, s', e, c, s.callers[c]);
    StartFrame(s, c);
  }

  // ---- What is known along the run ----

  /** Nothing happens to the start in flight, no epoch begins, tasks keep their modes, and the status is not set back. */
  ghost predicate Bystander(s: State, t: State, starter: Option<Caller>) {
    && t.epochs == s.epochs && t.tasks.Keys == s.tasks.Keys && StarterPc(t, starter) == StarterPc(s, starter)
    && (forall d :: d in s.tasks ==> t.tasks[d].readyMode == s.tasks[d].readyMode)
    && (t.status == Starting ==> s.status == Starting)
  }

  lemma StopIsBystander(s: State, starter: Option<Caller>, step: Step)
    requires Inv(s, starter) && Enabled(s, step) && CallerStep(step) && starter != Some(step.caller)
    ensures Bystander(s, Next(s, step), starter) && StarterAfter(starter, step, Next(s, step)) == starter
  {
    assert starter.None?;
    if step.Advance? { StopStepFrame(s, step.caller, s.callers[step.caller]); }
  }

  lemma TaskIsBystander(s: State, starter: Option<Caller>, step: Step)
    requires Inv(s, starter) && Enabled(s, step) && TaskStep(step)
    ensures Bystander(s, Next(s, step), starter) && StarterAfter(starter, step, Next(s, step)) == starter
  {
    TaskKeepsInv(s, starter, step);
    if !step.Observe? { TaskKeepsModes(s, step); }
  }

  lemma CallStopIsBystander(s: State, starter: Option<Caller>, step: Step)
    requires Inv(s, starter) && Enabled(s, step) && step.CallStop? && NoStartInFlight(s)
    ensures Bystander(s, Next(s, step), starter) && StarterAfter(starter, step, Next(s, step)) == starter
  {
    CallStopKeepsInv(s, starter, step.caller);
  }

  lemma BystanderKeeps(s: State, t: State, starter: Option<Caller>, e: Epoch)
    requires Bystander(s, t, starter) && StartingInv(s, starter) && LastReady(s, starter, e)
    ensures StartingInv(t, starter) && LastReady(t, starter, e)
  {
  }

  lemma StarterKeepsStarting(s: State, c: Caller)
    requires Inv(s, Some(c)) && StartingInv(s, Some(c)) && Enabled(s, Advance(c))
    ensures var t := Next(s, Advance(c)); StartingInv(t, StarterAfterPc(c, t.callers[c]))
  {
    assert Next(s, Advance(c)) == StartStep(s, c, s.callers[c]);
  }

  lemma CasKeepsLast(s: State, c: Caller, e: Epoch)
    requires Inv(s, Some(c)) && LastReady(s, Some(c), e) && s.callers[c].StartCas?
    ensures var t := StartStep(s, c, s.callers[c]); LastReady(t, StarterAfterPc(c, t.callers[c]), e)
  {
  }

  lemma PrepareKeepsLast(s: State, c: Caller, e: Epoch)
    requires LastReady(s, Some(c), e) && c in s.callers && PastCas(s.callers[c]) && !s.callers[c].StartSpawn?
    requires s.callers[c].StartStoreHandle? ==> s.callers[c].epoch in s.tasks
    ensures var t := StartStep(s, c, s.callers[c]); LastReady(t, StarterAfterPc(c, t.callers[c]), e)
  {
    var t := StartWrites(s, s.callers[c]);
    assert t.tasks == s.tasks && t.epochs == s.epochs;
  }

  lemma SpawnKeepsLast(s: State, c: Caller, e: Epoch)
    requires LastReady(s, Some(c), e) && c in s.callers && s.callers[c].StartSpawn?
    requires s.callers[c].epoch == e ==> s.callers[c].ready
    ensures LastReady(StartStep(s, c, s.callers[c]), Some(c), e)
  {
  }

  lemma StarterKeepsLast(s: State, c: Caller, e: Epoch)
    requires Inv(s, Some(c)) && LastReady(s, Some(c), e) && Enabled(s, Advance(c))
    requires s.callers[c].StartSpawn? && s.callers[c].epoch == e ==> s.callers[c].ready
    ensures var t := Next(s, Advance(c)); LastReady(t, StarterAfterPc(c, t.callers[c]), e)
  {
    var pc := s.callers[c];
    assert Next(s, Advance(c)) == StartStep(s, c, pc);
    if pc.StartCas? {
      CasKeepsLast(s, c, e);
    } else if pc.StartSpawn? {
      SpawnKeepsLast(s, c, e);
    } else {
      PrepareKeepsLast(s, c, e);
    }
  }

  lemma CallStartKeeps(s: State, starter: Option<Caller>, e: Epoch, c: Caller, ready: bool)
    requires Inv(s, starter) && StartingInv(s, starter) && LastReady(s, starter, e) && e !in s.seenRunning
    requires Enabled(s, CallStart(c, ready)) && Permits(Observing, s, CallStart(c, ready))
    ensures var t := Next(s, CallStart(c, ready)); starter.None? && StartingInv(t, Some(c)) && LastReady(t, Some(c), e)
  {
    CallStartKeepsInv(s, starter, c, ready);
  }

  /** The step does not end the story of epoch `e`: it is not seen, and its task, once there, is in ready mode. */
  ghost predicate Unseen(s: State, e: Epoch) {
    e !in s.seenRunning && (e in s.tasks ==> s.tasks[e].readyMode)
  }

  lemma SpawnsReady(s: State, c: Caller, e: Epoch)
    requires Enabled(s, Advance(c)) && s.callers[c].StartSpawn? && s.callers[c].epoch == e
    requires Unseen(Next(s, Advance(c)), e)
    ensures s.callers[c].ready
  {
  }

  ghost predicate Known(s: State, starter: Option<Caller>, e: Epoch) {
    Inv(s, starter) && StartingInv(s, starter) && LastReady(s, starter, e)
  }

  lemma StarterKeepsKnown(s: State, e: Epoch, c: Caller)
    requires Known(s, Some(c), e) && Enabled(s, Advance(c)) && Unseen(Next(s, Advance(c)), e)
    ensures var t := Next(s, Advance(c)); c in t.callers
    ensures var t := Next(s, Advance(c));
            StartingInv(t, StarterAfterPc(c, t.callers[c])) && LastReady(t, StarterAfterPc(c, t.callers[c]), e)
  {
    if s.callers[c].StartSpawn? && s.callers[c].epoch == e { SpawnsReady(s, c, e); }
    StarterKeepsStarting(s, c);
    StarterKeepsLast(s, c, e);
  }

  lemma BystanderStepKeeps(s: State, starter: Option<Caller>, e: Epoch, step: Step)
    requires Known(s, starter, e) && Enabled(s, step) && Permits(Observing, s, step)
    requires !step.CallStart? && (CallerStep(step) ==> starter != Some(step.caller))
    ensures StarterAfter(starter, step, Next(s, step)) == starter
    ensures StartingInv(Next(s, step), starter) && LastReady(Next(s, step), starter, e)
  {
    if CallerStep(step) {
      StopIsBystander(s, starter, step);
    } else if TaskStep(step) {
      TaskIsBystander(s, starter, step);
    } else {
      CallStopIsBystander(s, starter, step);
    }
    BystanderKeeps(s, Next(s, step), starter, e);
  }

  lemma StepKeepsKnown(s: State, starter: Option<Caller>, e: Epoch, step: Step)
    requires Known(s, starter, e) && Unseen(s, e) && Enabled(s, step) && Permits(Observing, s, step)
    requires Unseen(Next(s, step), e)
    ensures Known(Next(s, step), StarterAfter(starter, step, Next(s, step)), e)
  {
    StepKeepsInv(s, starter, step);
    if CallerStep(step) && starter == Some(step.caller) {
      StarterKeepsKnown(s, e, step.caller);
    } else if step.CallStart? {
      CallStartKeeps(s, starter, e, step.caller, step.ready);
    } else {
      BystanderStepKeeps(s, starter, e, step);
    }
  }

  lemma CallerAlike(s: State, s': State, starter: Option<Caller>, e: Epoch, step: Step)
    requires Known(s, starter, e) && Alike(s, s', starter, e) && Enabled(s, step) && CallerStep(step)
    requires Unseen(Next(s, step), e)
    ensures Enabled(s', step)
    ensures Alike(Next(s, step), Next(s', step), StarterAfter(starter, step, Next(s, step)), e)
  {
    var c := step.caller;
    if starter == Some(c) {
      if s.callers[c].StartSpawn? && s.callers[c].epoch == e { SpawnsReady(s, c, e); }
      StarterAlike(s, s', e, c);
    } else {
      StopIsBystander(s, starter, step);
      if step.Advance? { StopAlike(s, s', starter, e, c); } else { WaitAlike(s, s', starter, e, step); }
    }
  }

  lemma TaskAlike(s: State, s': State, starter: Option<Caller>, e: Epoch, step: Step)
    requires Alike(s, s', starter, e) && Enabled(s, step) && TaskStep(step) && !step.Observe? && Kept(step, e)
    ensures Enabled(s', step) && Alike(Next(s, step), Next(s', step), starter, e)
  {
    if step.Notify? || step.DropSignal? {
      SignalStepAlike(s, s', starter, e, step);
    } else if step.TaskStores? {
      FinishStepAlike(s, s', starter, e, step);
    } else if step.WatcherFires? || step.WatcherGivesUp? {
      WatcherStepAlike(s, s', starter, e, step);
    } else {
      BodyStepAlike(s, s', starter, e, step);
    }
  }

  lemma NobodyStarts(s: State, starter: Option<Caller>)
    requires Inv(s, starter) && NoStartInFlight(s)
    ensures starter.None?
  {
    assert starter.Some? ==> s.callers[starter.value].IsStart() && !s.callers[starter.value].Returned();
  }

  /** The thin run makes the same step, if it is kept, and stays alike. */
  lemma StepAlike(s: State, s': State, starter: Option<Caller>, e: Epoch, step: Step)
    requires Known(s, starter, e) && Alike(s, s', starter, e) && Enabled(s, step) && Permits(Observing, s, step)
    requires Unseen(Next(s, step), e) && Kept(step, e)
    ensures Enabled(s', step) && Permits(Observing, s', step)
    ensures Alike(Next(s, step), Next(s', step), StarterAfter(starter, step, Next(s, step)), e)
  {
    PermitsAlike(s, s', starter, e, step);
    if CallerStep(step) {
      CallerAlike(s, s', starter, e, step);
    } else if step.CallStart? {
      CallStartKeepsInv(s, starter, step.caller, step.ready);
      CallAlike(s, s', starter, e, step);
    } else if step.CallStop? {
      CallStopIsBystander(s, starter, step);
      CallAlike(s, s', starter, e, step);
    } else if step.Observe? {
      TaskIsBystander(s, starter, step);
      NobodyStarts(s, starter);
      ObserveAlike(s, s', starter, e);
    } else {
      TaskIsBystander(s, starter, step);
      TaskAlike(s, s', starter, e, step);
    }
  }

  // ---- Runs ----

  /** What has been seen stays seen, and a task keeps its mode. */
  ghost predicate History(s: State, t: State) {
    && s.seenRunning <= t.seenRunning
    && forall d :: d in s.tasks ==> d in t.tasks && t.tasks[d].readyMode == s.tasks[d].readyMode
  }

  lemma StarterKeepsHistory(s: State, c: Caller)
    requires Inv(s, Some(c)) && Enabled(s, Advance(c))
    ensures History(s, Next(s, Advance(c)))
  {
    var pc := s.callers[c];
    WritesKeepHistory(s, pc);
    assert Next(s, Advance(c)) == Go(StartWrites(s, pc), c, StartGoesTo(s, pc));
  }

  lemma WritesKeepHistory(s: State, pc: Pc)
    requires pc.StartSpawn? ==> pc.epoch !in s.tasks
    ensures History(s, StartWrites(s, pc))
  {
  }

  lemma StepKeepsHistory(s: State, starter: Option<Caller>, step: Step)
    requires Inv(s, starter) && Enabled(s, step)
    ensures History(s, Next(s, step))
  {
    if step.Advance? {
      if starter == Some(step.caller) {
        StarterKeepsHistory(s, step.caller);
      } else {
        StopStepFrame(s, step.caller, s.callers[step.caller]);
      }
    } else if TaskStep(step) && !step.Observe? {
      TaskKeepsModes(s, step);
    }
  }

  lemma {:induction false} UnseenAlready(s: State, starter: Option<Caller>, run: seq<Step>, e: Epoch)
    requires Inv(s, starter) && Legal(Observing, s, run) && Unseen(Exec(Observing, s, run), e)
    ensures Unseen(s, e)
    decreases |run|
  {
    if run != [] {
      var t := Next(s, run[0]);
      StepKeepsInv(s, starter, run[0]);
      UnseenAlready(t, StarterAfter(starter, run[0], t), run[1..], e);
      StepKeepsHistory(s, starter, run[0]);
    }
  }

  lemma SkipAlike(s: State, s': State, starter: Option<Caller>, e: Epoch, step: Step)
    requires Known(s, starter, e) && Alike(s, s', starter, e) && Enabled(s, step) && !Kept(step, e)
    ensures StarterAfter(starter, step, Next(s, step)) == starter && Alike(Next(s, step), s', starter, e)
  {
    if step == WatcherFires(e) && s.status == Starting && s.epochs - 1 != e { FiringIsEarly(s, starter, e); }
    SkippedStepAlike(s, s', starter, e, step);
    TaskIsBystander(s, starter, step);
  }

  lemma {:induction false} RunAlike(s: State, s': State, starter: Option<Caller>, e: Epoch, run: seq<Step>)
    returns (last: Option<Caller>)
    requires Known(s, starter, e) && Alike(s, s', starter, e)
    requires Legal(Observing, s, run) && Unseen(Exec(Observing, s, run), e)
    ensures Legal(Observing, s', Thin(run, e))
    ensures Alike(Exec(Observing, s, run), Exec(Observing, s', Thin(run, e)), last, e)
    decreases |run|
  {
    last := starter;
    if run != [] {
      var step := run[0];
      var t := Next(s, step);
      var next := StarterAfter(starter, step, t);
      FirstStepKnown(s, starter, e, run);
      if Kept(step, e) {
        StepAlike(s, s', starter, e, step);
        last := RunAlike(t, Next(s', step), next, e, run[1..]);
        LegalCons(Observing, s', step, Thin(run[1..], e));
      } else {
        SkipAlike(s, s', starter, e, step);
        last := RunAlike(t, s', next, e, run[1..]);
        assert Thin(run, e) == Thin(run[1..], e);
      }
    }
  }

  lemma FirstStepKnown(s: State, starter: Option<Caller>, e: Epoch, run: seq<Step>)
    requires Known(s, starter, e) && run != [] && Legal(Observing, s, run) && Unseen(Exec(Observing, s, run), e)
    ensures var t := Next(s, run[0]); Unseen(t, e) && Known(t, StarterAfter(starter, run[0], t), e)
  {
    var t := Next(s, run[0]);
    UnseenAlready(s, starter, run, e);
    StepKeepsInv(s, starter, run[0]);
    UnseenAlready(t, StarterAfter(starter, run[0], t), run[1..], e);
    StepKeepsKnown(s, starter, e, run[0]);
  }

  /** Some ready-mode epoch was never seen Running. */
  ghost predicate HasUnseen(s: State, e: Epoch) { e in s.tasks && s.tasks[e].readyMode && e !in s.seenRunning }

  /**
   * After an observing run with an unseen ready-mode epoch, the controller cannot know that no watcher is pending: in
   * another observing run it has made the same calls with the same steps and read the same, and one is pending.
   */
  lemma UnseenEpochMayBePending(run: seq<Step>, e: Epoch) returns (other: seq<Step>)
    requires Legal(Observing, Init, run) && HasUnseen(Exec(Observing, Init, run), e)
    ensures Legal(Observing, Init, other) && Visible(other) == Visible(run)
    ensures var s, s' := Exec(Observing, Init, run), Exec(Observing, Init, other);
            && s'.callers == s.callers && s'.seenRunning == s.seenRunning && s'.epochs == s.epochs
            && (s.status == Stopped ==> s'.status == Stopped) && WatcherPending(s')
  {
    var last := RunAlike(Init, Init, None, e, run);
    other := Thin(run, e);
    ThinIsInvisible(run, e);
    var s' := Exec(Observing, Init, other);
    assert e in s'.watchers && e in s'.tasks && s'.tasks[e].signal != Dropped;
  }

  lemma PendingStartGoesWrong(s: State, c: Caller) returns (more: seq<Step>)
    requires AllReturned(s) && s.status == Stopped && WatcherPending(s) && c !in s.callers
    ensures Legal(Phased, s, more) && more != [] && more[0] == CallStart(c, true)
    ensures var s' := Exec(Phased, s, more);
            && s'.status == Running && c in s'.callers && s'.callers[c] == StartReturned(true)
            && Spawned(s') && s'.tasks[s'.epochs - 1] == Task(Body, true, Held)
  {
    var s1 := Next(s, CallStart(c, true));
    assert WatcherPending(s1);
    more := PendingWatcherMarksNextEpochRunning(Phased, s1, c);
    LegalCons(Phased, s, CallStart(c, true), more);
    more := [CallStart(c, true)] + more;
  }

  /**
   * The condition that a controller can observe is exact for what it observes: if it starts a ready-mode epoch with an
   * earlier one unseen, there is a run it cannot tell from its own in which the new epoch is Running with nobody
   * notified.
   */
  lemma UnseenEpochCanGoWrong(run: seq<Step>, e: Epoch, c: Caller) returns (other: seq<Step>, more: seq<Step>)
    requires Legal(Observing, Init, run) && HasUnseen(Exec(Observing, Init, run), e)
    requires var s := Exec(Observing, Init, run); AllReturned(s) && s.status == Stopped && c !in s.callers
    ensures Legal(Observing, Init, other) && Visible(other) == Visible(run)
    ensures Legal(Phased, Exec(Observing, Init, other), more) && more != [] && more[0] == CallStart(c, true)
    ensures !RunningMeansNotified(Exec(Phased, Exec(Observing, Init, other), more))
  {
    other := UnseenEpochMayBePending(run, e);
    more := PendingStartGoesWrong(Exec(Observing, Init, other), c);
  }
}
