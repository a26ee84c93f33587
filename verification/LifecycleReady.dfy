/** Ready mode over many epochs: when Running means that the current task has notified. */
module LifecycleReady {
  import opened Seqs
  import opened Lifecycle
  import opened LifecyclePhased

  /** A watcher that can still fire belongs to the latest epoch. */
  ghost predicate NoStaleWatcher(s: State) {
    forall w :: w in s.watchers && w in s.tasks && s.tasks[w].signal != Dropped ==> w == s.epochs - 1
  }

  ghost predicate ReadyPc(s: State, pc: Pc) {
    match pc
    case StartClearFinished(_, true) => NoStaleWatcher(s) && s.status == Starting
    case StartClearCancelled(_, true) => NoStaleWatcher(s) && s.status == Starting
    case StartStoreToken(_, true) => NoStaleWatcher(s) && s.status == Starting
    case StartMarkRunning(_, true) => NoStaleWatcher(s) && s.status == Starting
    case StartSpawn(_, true) => NoStaleWatcher(s) && s.status == Starting
    case _ => true
  }

  /** In a ready-mode epoch, Running means that the task has notified and its own watcher has fired. */
  ghost predicate ReadyTask(s: State) {
    Spawned(s) && s.tasks[s.epochs - 1].readyMode ==>
      && NoStaleWatcher(s)
      && (s.status == Running ==> s.tasks[s.epochs - 1].signal == Sent && s.epochs - 1 !in s.watchers)
  }

  ghost predicate ReadyInv(s: State, starter: Option<Caller>) {
    ReadyTask(s) && (starter.Some? && starter.value in s.callers ==> ReadyPc(s, s.callers[starter.value]))
  }

  lemma CasKeepsReady(s: State, c: Caller, ready: bool)
    requires Epochs(s) && ReadyTask(s) && (ready && s.status == Stopped ==> !WatcherPending(s))
    ensures var s' := StartStep(s, c, StartCas(ready)); ReadyTask(s') && ReadyPc(s', s'.callers[c])
  {
  }

  lemma ClearKeepsReady(s: State, c: Caller, pc: Pc)
    requires pc.StartClearFinished? || pc.StartClearCancelled? || pc.StartStoreToken?
    requires ReadyTask(s) && ReadyPc(s, pc)
    ensures var s' := StartStep(s, c, pc); ReadyTask(s') && ReadyPc(s', s'.callers[c])
  {
    var s' := StartStep(s, c, pc);
    assert s'.tasks == s.tasks && s'.watchers == s.watchers && s'.epochs == s.epochs && s'.status == s.status;
  }

  lemma SpawnKeepsReady(s: State, c: Caller, pc: Pc)
    requires pc.StartMarkRunning? || pc.StartSpawn? || pc.StartStoreHandle?
    requires StartPc(s, pc) && ReadyTask(s) && ReadyPc(s, pc)
    ensures var s' := StartStep(s, c, pc); ReadyTask(s') && ReadyPc(s', s'.callers[c])
  {
  }

  lemma StarterKeepsReady(s: State, c: Caller)
    requires Inv(s, Some(c)) && ReadyInv(s, Some(c)) && Enabled(s, Advance(c)) && Permits(Settled, s, Advance(c))
    ensures var s' := Next(s, Advance(c)); c in s'.callers && ReadyTask(s') && ReadyPc(s', s'.callers[c])
  {
    var pc := s.callers[c];
    assert Next(s, Advance(c)) == StartStep(s, c, pc);
    if pc.StartCas? {
      CasKeepsReady(s, c, pc.ready);
    } else if pc.StartClearFinished? || pc.StartClearCancelled? || pc.StartStoreToken? {
      ClearKeepsReady(s, c, pc);
    } else {
      SpawnKeepsReady(s, c, pc);
    }
  }

  lemma StopKeepsReady(s: State, me: Caller)
    requires Enabled(s, Advance(me)) && !s.callers[me].IsStart() && ReadyTask(s)
    ensures ReadyTask(Next(s, Advance(me)))
  {
    StopStepFrame(s, me, s.callers[me]);
  }

  lemma CallerKeepsReady(s: State, starter: Option<Caller>, step: Step)
    requires Inv(s, starter) && ReadyInv(s, starter) && Enabled(s, step) && Permits(Settled, s, step) && CallerStep(step)
    ensures ReadyInv(Next(s, step), starter)
  {
    var me := step.caller;
    if starter == Some(me) {
      StarterKeepsReady(s, me);
    } else if step.Advance? {
      StopKeepsReady(s, me);
    }
  }

  lemma TaskKeepsReady(s: State, starter: Option<Caller>, step: Step)
    requires ReadyInv(s, starter) && Enabled(s, step)
    requires step.Notify? || step.DropSignal? || step.BodyReturns? || step.BodyPanics? || step.AbortTakesEffect?
    ensures ReadyInv(Next(s, step), starter)
  {
    var s' := Next(s, step);
    assert s'.watchers == s.watchers && s'.epochs == s.epochs && s'.status == s.status && s'.callers == s.callers;
    assert NoStaleWatcher(s) ==> NoStaleWatcher(s');
  }

  lemma FinishKeepsReady(s: State, starter: Option<Caller>, step: Step)
    requires Inv(s, starter) && ReadyInv(s, starter) && Enabled(s, step) && step.TaskStores?
    ensures ReadyInv(Next(s, step), starter)
  {
    var s' := Next(s, step);
    assert s'.epochs == s.epochs && s'.callers == s.callers && s'.watchers == s.watchers;
    assert !AllOver(s) by { assert !s.tasks[step.epoch].Over(); }
    assert NoStaleWatcher(s) ==> NoStaleWatcher(s');
  }

  lemma WatcherKeepsReady(s: State, starter: Option<Caller>, step: Step)
    requires ReadyInv(s, starter) && Enabled(s, step) && (step.WatcherFires? || step.WatcherGivesUp?)
    requires Epochs(s) && (starter.Some? && starter.value in s.callers ==> StartPc(s, s.callers[starter.value]))
    ensures ReadyInv(Next(s, step), starter)
  {
    var s' := Next(s, step);
    assert s'.epochs == s.epochs && s'.callers == s.callers && s'.tasks == s.tasks;
    assert NoStaleWatcher(s) ==> NoStaleWatcher(s');
  }

  lemma CallKeepsReady(s: State, starter: Option<Caller>, step: Step)
    requires ReadyInv(s, starter) && Enabled(s, step) && (step.CallStart? || step.CallStop? || step.Observe?)
    ensures ReadyInv(Next(s, step), if step.CallStart? then Some(step.caller) else starter)
  {
  }

  /** It does not matter to ready mode that a start has returned. */
  lemma ReadyWithoutStarter(s: State, starter: Option<Caller>, step: Step)
    requires ReadyInv(s, if step.CallStart? then Some(step.caller) else starter)
    ensures ReadyInv(s, StarterAfter(starter, step, s))
  {
  }

  lemma StepKeepsReadyInv(s: State, starter: Option<Caller>, step: Step)
    requires Inv(s, starter) && ReadyInv(s, starter) && Enabled(s, step) && Permits(Settled, s, step)
    ensures ReadyInv(Next(s, step), StarterAfter(starter, step, Next(s, step)))
  {
    if CallerStep(step) {
      CallerKeepsReady(s, starter, step);
    } else if step.TaskStores? {
      FinishKeepsReady(s, starter, step);
    } else if step.WatcherFires? || step.WatcherGivesUp? {
      WatcherKeepsReady(s, starter, step);
    } else if step.CallStart? || step.CallStop? || step.Observe? {
      CallKeepsReady(s, starter, step);
    } else {
      TaskKeepsReady(s, starter, step);
    }
    ReadyWithoutStarter(Next(s, step), starter, step);
  }

  lemma {:induction false} RunKeepsReadyInv(s: State, starter: Option<Caller>, run: seq<Step>)
    returns (starter': Option<Caller>)
    requires Inv(s, starter) && ReadyInv(s, starter) && Legal(Settled, s, run)
    ensures Inv(Exec(Settled, s, run), starter') && ReadyInv(Exec(Settled, s, run), starter')
    decreases |run|
  {
    if run == [] {
      starter' := starter;
    } else {
      var s' := Next(s, run[0]);
      StepKeepsInv(s, starter, run[0]);
      StepKeepsReadyInv(s, starter, run[0]);
      starter' := RunKeepsReadyInv(s', StarterAfter(starter, run[0], s'), run[1..]);
    }
  }

  /** A ready-mode start has won its epoch and not spawned its task yet. */
  predicate AwaitsSpawn(pc: Pc) {
    && (pc.StartClearFinished? || pc.StartClearCancelled? || pc.StartStoreToken? || pc.StartMarkRunning? || pc.StartSpawn?)
    && pc.ready
  }

  /** In a ready-mode epoch, Running means that the task has notified, and before there is a task the status is Starting. */
  ghost predicate RunningMeansNotified(s: State) {
    && (Spawned(s) && s.tasks[s.epochs - 1].readyMode && s.status == Running ==> s.tasks[s.epochs - 1].signal == Sent)
    && (forall c :: c in s.callers && AwaitsSpawn(s.callers[c]) ==> s.status == Starting)
  }

  lemma ReadyInvMeansNotified(s: State, starter: Option<Caller>)
    requires Inv(s, starter) && ReadyInv(s, starter)
    ensures RunningMeansNotified(s)
  {
    forall c | c in s.callers && AwaitsSpawn(s.callers[c]) ensures s.status == Starting { assert starter == Some(c); }
  }

  /** If no earlier watcher can fire when a ready-mode start wins, Running means that its own task notified. */
  lemma SettledRunningNeedsNotify(run: seq<Step>)
    requires Legal(Settled, Init, run)
    ensures RunningMeansNotified(Exec(Settled, Init, run))
  {
    var starter := RunKeepsReadyInv(Init, None, run);
    ReadyInvMeansNotified(Exec(Settled, Init, run), starter);
  }

  // ---- The first epoch ----

  lemma {:induction false} FirstEpochIsSettled(s: State, starter: Option<Caller>, run: seq<Step>)
    requires Inv(s, starter) && Legal(Phased, s, run) && Exec(Phased, s, run).epochs <= 1
    ensures Legal(Settled, s, run) && Exec(Settled, s, run) == Exec(Phased, s, run)
    decreases |run|
  {
    if run != [] {
      var s' := Next(s, run[0]);
      EpochsGrow(Phased, s', run[1..]);
      FirstWinIsSettled(s, run[0]);
      StepKeepsInv(s, starter, run[0]);
      FirstEpochIsSettled(s', StarterAfter(starter, run[0], s'), run[1..]);
    }
  }

  lemma FirstWinIsSettled(s: State, step: Step)
    requires Epochs(s) && Enabled(s, step) && Permits(Phased, s, step) && Next(s, step).epochs <= 1
    ensures Permits(Settled, s, step)
  {
  }

  /** With one start, and any number of stops after it, Running in ready mode always means that the task notified. */
  lemma RunningNeedsNotify(run: seq<Step>)
    requires Legal(Phased, Init, run) && Exec(Phased, Init, run).epochs == 1
    ensures RunningMeansNotified(Exec(Phased, Init, run))
  {
    FirstEpochIsSettled(Init, None, run);
    SettledRunningNeedsNotify(run);
  }

  // ---- What a controller can see ----

  /** In an epoch that was seen Running, no watcher is left. */
  ghost predicate SeenInv(s: State, starter: Option<Caller>) {
    && s.seenRunning <= s.tasks.Keys
    && (forall e :: e in s.seenRunning && s.tasks[e].readyMode ==> e !in s.watchers)
    && (forall w :: w in s.watchers && w in s.tasks ==> s.tasks[w].readyMode)
    && (forall w :: w in s.watchers && w !in s.tasks ==>
          starter.Some? && starter.value in s.callers && s.callers[starter.value] == StartSpawn(w, true))
    && (starter.Some? && starter.value in s.callers && s.callers[starter.value] == StartCas(true) ==> ReadyEpochsSeen(s))
  }

  lemma ObservingIsSettled(s: State, starter: Option<Caller>, step: Step)
    requires Inv(s, starter) && SeenInv(s, starter) && Enabled(s, step) && Permits(Observing, s, step)
    ensures Permits(Settled, s, step)
  {
    if step.Advance? && s.callers[step.caller] == StartCas(true) {
      assert starter == Some(step.caller);
      assert !WatcherPending(s);
    }
  }

  lemma CallKeepsSeen(s: State, starter: Option<Caller>, step: Step)
    requires Inv(s, starter) && SeenInv(s, starter) && Enabled(s, step) && Permits(Observing, s, step)
    requires step.CallStart? || step.CallStop?
    ensures SeenInv(Next(s, step), StarterAfter(starter, step, Next(s, step)))
  {
    if step.CallStart? {
      CallStartKeepsInv(s, starter, step.caller, step.ready);
    } else {
      CallStopKeepsInv(s, starter, step.caller);
    }
  }

  /** The start has moved on from its compare-and-swap, or has returned. */
  ghost predicate StillSeen(s: State, c: Caller) {
    && c in s.callers && !s.callers[c].StartCas?
    && SeenInv(s, if s.callers[c].Returned() then None else Some(c))
  }

  lemma PrepareKeepsSeen(s: State, c: Caller, pc: Pc)
    requires pc.IsStart() && !pc.Returned() && !pc.StartMarkRunning? && !pc.StartSpawn?
    requires SeenInv(s, Some(c)) && c in s.callers && s.callers[c] == pc
    ensures StillSeen(StartStep(s, c, pc), c)
  {
    var s' := StartWrites(s, pc);
    assert s'.tasks == s.tasks && s'.watchers == s.watchers && s'.seenRunning == s.seenRunning;
  }

  lemma MarkRunningKeepsSeen(s: State, c: Caller)
    requires Inv(s, Some(c)) && SeenInv(s, Some(c)) && s.callers[c].StartMarkRunning?
    ensures StillSeen(StartStep(s, c, s.callers[c]), c)
  {
  }

  lemma SpawnKeepsSeen(s: State, c: Caller)
    requires Inv(s, Some(c)) && SeenInv(s, Some(c)) && s.callers[c].StartSpawn?
    ensures StillSeen(StartStep(s, c, s.callers[c]), c)
  {
  }

  lemma StarterKeepsSeen(s: State, c: Caller)
    requires Inv(s, Some(c)) && SeenInv(s, Some(c)) && Enabled(s, Advance(c))
    ensures SeenInv(Next(s, Advance(c)), StarterAfter(Some(c), Advance(c), Next(s, Advance(c))))
  {
    var pc := s.callers[c];
    assert Next(s, Advance(c)) == StartStep(s, c, pc);
    if pc.StartMarkRunning? {
      MarkRunningKeepsSeen(s, c);
    } else if pc.StartSpawn? {
      SpawnKeepsSeen(s, c);
    } else {
      PrepareKeepsSeen(s, c, pc);
    }
  }

  lemma CallerKeepsSeen(s: State, starter: Option<Caller>, step: Step)
    requires Inv(s, starter) && SeenInv(s, starter) && Enabled(s, step) && CallerStep(step)
    ensures SeenInv(Next(s, step), StarterAfter(starter, step, Next(s, step)))
  {
    if starter == Some(step.caller) {
      StarterKeepsSeen(s, step.caller);
    } else if step.Advance? {
      StopStepFrame(s, step.caller, s.callers[step.caller]);
    }
  }

  /** Tasks keep their mode and watchers can only go. */
  ghost predicate SameModes(s: State, s': State) {
    && s'.callers == s.callers && s'.seenRunning == s.seenRunning && s'.tasks.Keys == s.tasks.Keys
    && s'.watchers <= s.watchers
    && forall e :: e in s.tasks ==> s'.tasks[e].readyMode == s.tasks[e].readyMode
  }

  lemma TaskKeepsModes(s: State, step: Step)
    requires Enabled(s, step) && TaskStep(step) && !step.Observe?
    ensures SameModes(s, Next(s, step))
  {
  }

  lemma ModesKeepSeen(s: State, s': State, starter: Option<Caller>)
    requires SeenInv(s, starter) && SameModes(s, s')
    ensures SeenInv(s', starter)
  {
  }

  lemma ObserveKeepsSeen(s: State, starter: Option<Caller>)
    requires Inv(s, starter) && ReadyInv(s, starter) && SeenInv(s, starter) && NoStartInFlight(s)
    ensures SeenInv(Next(s, Observe), starter)
  {
    assert starter.Some? ==> s.callers[starter.value].IsStart() && !s.callers[starter.value].Returned();
    assert s.epochs > 0 ==> Spawned(s);
  }

  lemma StepKeepsSeen(s: State, starter: Option<Caller>, step: Step)
    requires Inv(s, starter) && ReadyInv(s, starter) && SeenInv(s, starter)
    requires Enabled(s, step) && Permits(Observing, s, step)
    ensures SeenInv(Next(s, step), StarterAfter(starter, step, Next(s, step)))
  {
    if CallerStep(step) {
      CallerKeepsSeen(s, starter, step);
    } else if step.Observe? {
      ObserveKeepsSeen(s, starter);
    } else if TaskStep(step) {
      TaskKeepsModes(s, step);
      ModesKeepSeen(s, Next(s, step), starter);
    } else {
      CallKeepsSeen(s, starter, step);
    }
  }

  lemma {:induction false} ObservingRunIsSettled(s: State, starter: Option<Caller>, run: seq<Step>)
    requires Inv(s, starter) && ReadyInv(s, starter) && SeenInv(s, starter) && Legal(Observing, s, run)
    ensures Legal(Settled, s, run) && Exec(Settled, s, run) == Exec(Observing, s, run)
    decreases |run|
  {
    if run != [] {
      var s' := Next(s, run[0]);
      ObservingIsSettled(s, starter, run[0]);
      StepKeepsInv(s, starter, run[0]);
      StepKeepsReadyInv(s, starter, run[0]);
      StepKeepsSeen(s, starter, run[0]);
      ObservingRunIsSettled(s', StarterAfter(starter, run[0], s'), run[1..]);
    }
  }

  /**
   * A controller that begins no ready-mode epoch before it has read Running in each earlier one can rely on Running:
   * it always means that the current task has notified.
   */
  lemma ObservedRunningNeedsNotify(run: seq<Step>)
    requires Legal(Observing, Init, run)
    ensures RunningMeansNotified(Exec(Observing, Init, run))
  {
    ObservingRunIsSettled(Init, None, run);
    SettledRunningNeedsNotify(run);
  }
}
