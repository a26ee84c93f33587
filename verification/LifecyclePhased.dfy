/**
 * Any number of start/stop epochs. A start is called when every call has returned, stops are called when no start is
 * in flight, and any number of stops may overlap.
 */
module LifecyclePhased {
  import opened Seqs
  import opened Lifecycle

  predicate Active(s: State) { s.status == Starting || s.status == Running }

  predicate StopEngaged(pc: Pc) {
    || pc.StopTakeToken? || pc.StopMarkCancelled? || pc.StopCancel? || pc.StopWait? || pc.StopReadCancelled?
    || pc.StopTakeHandle? || pc.StopAbort? || pc.StopJoin? || pc.StopStoreFinished? || pc.StopStoreStopped?
  }

  predicate BeforeStopping(pc: Pc) { pc.StopLoad? || pc.StopStoreStopping? }

  /** The caller holds the join handle and has not yet published that the task is over. */
  predicate Joining(pc: Pc) { pc.StopAbort? || pc.StopJoin? || pc.StopStoreFinished? }

  ghost predicate AllOver(s: State) { forall e :: e in s.tasks ==> s.tasks[e].Over() }

  /** The task of the latest successful start exists. */
  ghost predicate Spawned(s: State) { s.epochs > 0 && s.epochs - 1 in s.tasks }

  ghost predicate Takes(s: State) {
    && (forall e :: s.tokenTakes[e] <= 1 && s.handleTakes[e] <= 1)
    && (forall e :: e >= s.epochs ==> s.tokenTakes[e] == 0 && s.handleTakes[e] == 0)
    && (s.token.Some? ==> s.tokenTakes[s.token.value] == 0 && s.token.value < s.epochs)
    && (s.handle.Some? ==> s.handleTakes[s.handle.value] == 0 && s.handle.value in s.tasks)
  }

  ghost predicate Epochs(s: State) {
    && (forall e :: e in s.tasks ==> e < s.epochs)
    && (forall e :: e in s.tasks && e != s.epochs - 1 ==> s.tasks[e].Over())
    && (forall e :: e in s.watchers ==> e < s.epochs)
  }

  /** The finishing writes of the latest task. */
  ghost predicate Finishing(s: State) {
    Spawned(s) ==>
      var t := s.tasks[s.epochs - 1];
      && (t.pc == StoreStopped || t.pc == Ended ==> s.finished)
      && (s.finished ==> t.pc == StoreStopped || t.Over())
      && (t.pc == Ended ==> !Active(s))
  }

  ghost predicate Core(s: State) { Takes(s) && Epochs(s) && Finishing(s) }

  /** No start is past its compare-and-swap: the latest task can be joined, is being joined, or is over. */
  ghost predicate Rest(s: State) {
    if s.epochs == 0 then s.status == Stopped
    else
      && Spawned(s) && (s.handle.Some? ==> s.handle.value == s.epochs - 1)
      && (s.status == Stopping ==>
            s.stopper.Some? && s.stopper.value in s.callers && StopEngaged(s.callers[s.stopper.value]))
      && (s.status == Stopped ==> s.tasks[s.epochs - 1].pc == Ended || s.handle.None?)
      && (s.handle.None? ==>
            && s.joiner.Some? && s.joiner.value in s.callers
            && (Joining(s.callers[s.joiner.value]) || (s.finished && s.tasks[s.epochs - 1].Over())))
  }

  /** A start that has won epoch `e` and not spawned yet: no task is left. */
  ghost predicate Fresh(s: State, e: Epoch) {
    && s.epochs > 0 && e == s.epochs - 1 && e !in s.tasks && AllOver(s) && Active(s)
    && s.handleTakes[e] == 0 && s.handle != Some(e)
  }

  ghost predicate StartPc(s: State, pc: Pc) {
    match pc
    case StartCas(_) => Rest(s)
    case StartClearFinished(e, _) => Fresh(s, e) && s.tokenTakes[e] == 0
    case StartClearCancelled(e, _) => Fresh(s, e) && s.tokenTakes[e] == 0 && !s.finished
    case StartStoreToken(e, _) => Fresh(s, e) && s.tokenTakes[e] == 0 && !s.finished
    case StartMarkRunning(e, _) => Fresh(s, e) && !s.finished
    case StartSpawn(e, _) => Fresh(s, e) && !s.finished
    case StartStoreHandle(e) =>
      && Spawned(s) && e == s.epochs - 1 && s.handleTakes[e] == 0 && s.handle != Some(e)
      && s.status != Stopping && (s.status == Stopped ==> s.tasks[e].pc == Ended)
    case _ => false
  }

  /** What holds of a stop that has not returned. */
  ghost predicate StopPc(s: State, pc: Pc) {
    && !pc.IsStart()
    && (s.epochs == 0 ==> pc.StopLoad?)
    && (Active(s) ==> BeforeStopping(pc))
    && (pc.StopReadCancelled? ==> s.finished)
    && (pc.StopAbort? || pc.StopJoin? ==> pc.epoch == s.epochs - 1)
    && (pc.StopStoreFinished? ==> Spawned(s) && s.tasks[s.epochs - 1].Over())
    && (Joining(pc) || pc.StopStoreStopped? ==> s.handle.None?)
  }

  /** `starter` is the start in flight, if there is one; then every other call has returned. */
  ghost predicate Inv(s: State, starter: Option<Caller>) {
    && Core(s)
    && (starter.None? ==> Rest(s))
    && (starter.Some? ==> starter.value in s.callers && StartPc(s, s.callers[starter.value]))
    && (forall c :: c in s.callers && starter != Some(c) ==>
          s.callers[c].Returned() || (starter.None? && StopPc(s, s.callers[c])))
  }

  // ---- Calls ----

  lemma CallStartKeepsInv(s: State, starter: Option<Caller>, c: Caller, ready: bool)
    requires Inv(s, starter) && Enabled(s, CallStart(c, ready)) && AllReturned(s)
    ensures starter.None? && Inv(Next(s, CallStart(c, ready)), Some(c))
  {
    assert starter.Some? ==> !s.callers[starter.value].Returned();
  }

  lemma CallStopKeepsInv(s: State, starter: Option<Caller>, c: Caller)
    requires Inv(s, starter) && Enabled(s, CallStop(c)) && NoStartInFlight(s)
    ensures starter.None? && Inv(Next(s, CallStop(c)), None)
  {
    assert starter.Some? ==> s.callers[starter.value].IsStart() && !s.callers[starter.value].Returned();
  }

  // ---- The start in flight ----

  /** The start moves to `pc` and everyone else has returned. */
  ghost predicate Starts(s: State, s': State, c: Caller, pc: Pc) {
    c in s.callers && s'.callers == s.callers[c := pc]
  }

  lemma StartMoveKeepsInv(s: State, s': State, c: Caller, pc: Pc)
    requires Inv(s, Some(c)) && Starts(s, s', c, pc) && Core(s')
    requires if pc.Returned() then Rest(s') else StartPc(s', pc)
    ensures Inv(s', if pc.Returned() then None else Some(c))
  {
  }

  /** After a step of the start `c`: it has returned, or it is still the start in flight. */
  ghost predicate Kept(s: State, c: Caller) {
    c in s.callers && Inv(s, if s.callers[c].Returned() then None else Some(c))
  }

  lemma WinKeepsInv(s: State, c: Caller)
    requires Inv(s, Some(c)) && s.callers[c].StartCas? && s.status == Stopped
    ensures Kept(StartStep(s, c, s.callers[c]), c)
  {
    assert AllOver(s);
    StartMoveKeepsInv(s, StartStep(s, c, s.callers[c]), c, StartClearFinished(s.epochs, s.callers[c].ready));
  }

  lemma LoseKeepsInv(s: State, c: Caller)
    requires Inv(s, Some(c)) && s.callers[c].StartCas? && s.status != Stopped
    ensures Kept(StartStep(s, c, s.callers[c]), c)
  {
    StartMoveKeepsInv(s, StartStep(s, c, s.callers[c]), c, StartReturned(false));
  }

  /** The start prepares its epoch: tasks, handle and epochs stay, the status stays active. */
  ghost predicate Prepares(s: State, s': State) {
    && s'.tasks == s.tasks && s'.epochs == s.epochs && s'.handle == s.handle && s'.handleTakes == s.handleTakes
    && s'.tokenTakes == s.tokenTakes && (Active(s) ==> Active(s')) && (s'.finished ==> s.finished)
    && (forall e :: e in s'.watchers ==> e in s.watchers || e == s.epochs - 1)
  }

  lemma PrepareMoveKeepsInv(s: State, s': State, c: Caller, e: Epoch, pc: Pc)
    requires Inv(s, Some(c)) && Starts(s, s', c, pc) && Prepares(s, s') && Fresh(s, e)
    requires s'.token == s.token || (s'.token == Some(e) && s.tokenTakes[e] == 0)
    requires Fresh(s', e) ==> !pc.Returned() && StartPc(s', pc)
    ensures Inv(s', Some(c))
  {
    StartMoveKeepsInv(s, s', c, pc);
  }

  lemma ClearKeepsInv(s: State, c: Caller)
    requires Inv(s, Some(c)) && (s.callers[c].StartClearFinished? || s.callers[c].StartClearCancelled?)
    ensures Kept(StartStep(s, c, s.callers[c]), c)
  {
    var s' := StartStep(s, c, s.callers[c]);
    PrepareMoveKeepsInv(s, s', c, s.callers[c].epoch, s'.callers[c]);
  }

  lemma StoreTokenKeepsInv(s: State, c: Caller)
    requires Inv(s, Some(c)) && s.callers[c].StartStoreToken?
    ensures Kept(StartStep(s, c, s.callers[c]), c)
  {
    var s' := StartStep(s, c, s.callers[c]);
    PrepareMoveKeepsInv(s, s', c, s.callers[c].epoch, s'.callers[c]);
  }

  lemma MarkRunningKeepsInv(s: State, c: Caller)
    requires Inv(s, Some(c)) && s.callers[c].StartMarkRunning?
    ensures Kept(StartStep(s, c, s.callers[c]), c)
  {
    var s' := StartStep(s, c, s.callers[c]);
    PrepareMoveKeepsInv(s, s', c, s.callers[c].epoch, s'.callers[c]);
  }

  lemma SpawnKeepsInv(s: State, c: Caller)
    requires Inv(s, Some(c)) && s.callers[c].StartSpawn?
    ensures Kept(StartStep(s, c, s.callers[c]), c)
  {
    StartMoveKeepsInv(s, StartStep(s, c, s.callers[c]), c, StartStoreHandle(s.callers[c].epoch));
  }

  lemma StoreHandleKeepsInv(s: State, c: Caller)
    requires Inv(s, Some(c)) && s.callers[c].StartStoreHandle?
    ensures Kept(StartStep(s, c, s.callers[c]), c)
  {
    StartMoveKeepsInv(s, StartStep(s, c, s.callers[c]), c, StartReturned(true));
  }

  // ---- Stops ----

  /** Stop caller `me` moves to `pc`; the tasks, the watchers and the epoch count are not touched. */
  ghost predicate Moves(s: State, s': State, me: Caller, pc: Pc) {
    && me in s.callers && s'.callers == s.callers[me := pc]
    && s'.tasks == s.tasks && s'.watchers == s.watchers && s'.epochs == s.epochs
  }

  /** A move keeps the invariant if it never reactivates the status and never restores the handle. */
  lemma MoveKeepsInv(s: State, s': State, me: Caller, pc: Pc)
    requires Inv(s, None) && Moves(s, s', me, pc)
    requires (Active(s') ==> Active(s)) && (s.handle.None? ==> s'.handle.None?) && (s.finished ==> s'.finished)
    requires Core(s') && Rest(s') && (pc.StopReturned? || StopPc(s', pc))
    ensures Inv(s', None)
  {
    forall c | c in s'.callers ensures s'.callers[c].Returned() || StopPc(s', s'.callers[c]) {
      assert c != me ==> s'.callers[c] == s.callers[c];
    }
  }

  ghost predicate SameToken(s: State, s': State) { s'.token == s.token && s'.tokenTakes == s.tokenTakes }

  ghost predicate TokenTaken(s: State, s': State) {
    s.token.Some? && s'.token.None? && s'.tokenTakes == s.tokenTakes + multiset{s.token.value}
  }

  ghost predicate SameHandle(s: State, s': State) {
    s'.handle == s.handle && s'.handleTakes == s.handleTakes && s'.joiner == s.joiner
  }

  ghost predicate SameStatus(s: State, s': State) { s'.status == s.status && s'.stopper == s.stopper }

  /** The step touches none of status, handle and finished flag, and no duty is given up. */
  ghost predicate QuietEffect(s: State, s': State, me: Caller) {
    && me in s.callers && me in s'.callers && Moves(s, s', me, s'.callers[me])
    && SameStatus(s, s') && SameHandle(s, s') && s'.finished == s.finished
    && (SameToken(s, s') || TokenTaken(s, s'))
    && (StopEngaged(s.callers[me]) ==> StopEngaged(s'.callers[me]))
    && (Joining(s.callers[me]) ==> Joining(s'.callers[me]))
    && (s'.callers[me].StopReturned? || StopPc(s', s'.callers[me]))
  }

  lemma QuietMoveKeepsInv(s: State, s': State, me: Caller)
    requires Inv(s, None) && QuietEffect(s, s', me)
    ensures Inv(s', None)
  {
    assert Takes(s') by { assert TokenTaken(s, s') ==> s.tokenTakes[s.token.value] == 0; }
    MoveKeepsInv(s, s', me, s'.callers[me]);
  }

  lemma StoreStoppingKeepsInv(s: State, s': State, me: Caller)
    requires Inv(s, None) && Moves(s, s', me, StopTakeToken) && s.callers[me].StopStoreStopping?
    requires SameToken(s, s') && SameHandle(s, s') && s'.finished == s.finished
    requires s'.status == Stopping && s'.stopper == Some(me)
    ensures Inv(s', None)
  {
    assert StopPc(s, s.callers[me]);
    MoveKeepsInv(s, s', me, StopTakeToken);
  }

  lemma TakeHandleKeepsInv(s: State, s': State, me: Caller, pc: Pc)
    requires Inv(s, None) && Moves(s, s', me, pc) && s.callers[me].StopTakeHandle? && s.handle.Some?
    requires pc.StopAbort? && pc.epoch == s.handle.value
    requires SameToken(s, s') && SameStatus(s, s') && s'.finished == s.finished
    requires s'.handle.None? && s'.handleTakes == s.handleTakes + multiset{s.handle.value} && s'.joiner == Some(me)
    ensures Inv(s', None)
  {
    assert StopPc(s, s.callers[me]);
    MoveKeepsInv(s, s', me, pc);
  }

  lemma StoreFinishedKeepsInv(s: State, s': State, me: Caller, pc: Pc)
    requires Inv(s, None) && Moves(s, s', me, pc) && s.callers[me].StopStoreFinished? && pc.StopStoreStopped?
    requires SameToken(s, s') && SameHandle(s, s') && SameStatus(s, s') && s'.finished
    ensures Inv(s', None)
  {
    assert StopPc(s, s.callers[me]);
    MoveKeepsInv(s, s', me, pc);
  }

  lemma StoreStoppedKeepsInv(s: State, s': State, me: Caller, pc: Pc)
    requires Inv(s, None) && Moves(s, s', me, pc) && s.callers[me].StopStoreStopped? && pc.StopReturned?
    requires SameToken(s, s') && SameHandle(s, s') && s'.finished == s.finished && s'.status == Stopped
    ensures Inv(s', None)
  {
    assert StopPc(s, s.callers[me]);
    MoveKeepsInv(s, s', me, pc);
  }

  ghost predicate StopStepOf(s: State, step: Step, me: Caller) {
    && Enabled(s, step) && (step.Advance? || step.SeeFinished? || step.TimeOut?)
    && step.caller == me && !s.callers[me].IsStart() && !s.callers[me].Returned() && StopPc(s, s.callers[me])
  }

  lemma LoadIsQuiet(s: State, me: Caller)
    requires StopStepOf(s, Advance(me), me) && s.callers[me].StopLoad?
    requires s.epochs == 0 ==> s.status == Stopped
    ensures QuietEffect(s, Next(s, Advance(me)), me)
  {
  }

  lemma TakeTokenIsQuiet(s: State, me: Caller)
    requires StopStepOf(s, Advance(me), me) && s.callers[me].StopTakeToken?
    ensures QuietEffect(s, Next(s, Advance(me)), me)
  {
  }

  lemma CancellingIsQuiet(s: State, me: Caller)
    requires StopStepOf(s, Advance(me), me) && (s.callers[me].StopMarkCancelled? || s.callers[me].StopCancel?)
    ensures QuietEffect(s, Next(s, Advance(me)), me)
  {
  }

  lemma HandleGoneIsQuiet(s: State, me: Caller)
    requires StopStepOf(s, Advance(me), me)
    requires s.callers[me].StopReadCancelled? || (s.callers[me].StopTakeHandle? && s.handle.None?)
    ensures QuietEffect(s, Next(s, Advance(me)), me)
  {
  }

  lemma AbortIsQuiet(s: State, me: Caller)
    requires StopStepOf(s, Advance(me), me) && s.callers[me].StopAbort?
    ensures QuietEffect(s, Next(s, Advance(me)), me)
  {
  }

  lemma JoinIsQuiet(s: State, me: Caller)
    requires StopStepOf(s, Advance(me), me) && s.callers[me].StopJoin?
    ensures QuietEffect(s, Next(s, Advance(me)), me)
  {
  }

  lemma WaitingIsQuiet(s: State, step: Step, me: Caller)
    requires StopStepOf(s, step, me) && !step.Advance?
    ensures QuietEffect(s, Next(s, step), me)
  {
  }

  predicate Loud(s: State, pc: Pc) {
    || pc.StopStoreStopping? || (pc.StopTakeHandle? && s.handle.Some?)
    || pc.StopStoreFinished? || pc.StopStoreStopped?
  }

  lemma LoudStepKeepsInv(s: State, me: Caller)
    requires Inv(s, None) && StopStepOf(s, Advance(me), me) && Loud(s, s.callers[me])
    ensures Inv(Next(s, Advance(me)), None)
  {
    var s' := Next(s, Advance(me));
    var pc := s.callers[me];
    if pc.StopStoreStopping? {
      StoreStoppingKeepsInv(s, s', me);
    } else if pc.StopTakeHandle? {
      TakeHandleKeepsInv(s, s', me, StopAbort(s.handle.value, pc.reason));
    } else if pc.StopStoreFinished? {
      StoreFinishedKeepsInv(s, s', me, StopStoreStopped(pc.reason));
    } else {
      StoreStoppedKeepsInv(s, s', me, StopReturned(pc.reason));
    }
  }

  lemma QuietStepKeepsInv(s: State, step: Step, me: Caller)
    requires Inv(s, None) && StopStepOf(s, step, me) && !Loud(s, s.callers[me])
    ensures Inv(Next(s, step), None)
  {
    var pc := s.callers[me];
    if !step.Advance? {
      WaitingIsQuiet(s, step, me);
    } else if pc.StopAbort? {
      AbortIsQuiet(s, me);
    } else if pc.StopJoin? {
      JoinIsQuiet(s, me);
    } else if pc.StopReadCancelled? || pc.StopTakeHandle? {
      HandleGoneIsQuiet(s, me);
    } else if pc.StopLoad? {
      LoadIsQuiet(s, me);
    } else if pc.StopTakeToken? {
      TakeTokenIsQuiet(s, me);
    } else {
      CancellingIsQuiet(s, me);
    }
    QuietMoveKeepsInv(s, Next(s, step), me);
  }

  // ---- The task and the watchers ----

  /** No call moves, and the handle, the token and the epochs are not touched. */
  ghost predicate SameCalls(s: State, s': State) {
    && s'.callers == s.callers && s'.epochs == s.epochs && SameToken(s, s') && SameHandle(s, s')
    && s'.stopper == s.stopper && s'.tasks.Keys == s.tasks.Keys
  }

  /** Tasks only get closer to being over, the finished flag stays set, and the status is not reactivated. */
  ghost predicate Onward(s: State, s': State) {
    && SameCalls(s, s') && s'.watchers <= s.watchers && (Active(s') ==> Active(s)) && (s.finished ==> s'.finished)
    && (AllOver(s) ==> s'.finished == s.finished)
    && (forall e :: e in s.tasks && s.tasks[e].Over() ==> s'.tasks[e].pc == s.tasks[e].pc)
    && (s'.status == s.status || (s.status == Starting && s'.status == Running)
        || (Spawned(s) && !AllOver(s) && s'.status == Stopped && s'.tasks[s.epochs - 1].pc == Ended))
  }

  lemma OnwardKeepsRest(s: State, s': State)
    requires Onward(s, s') && Epochs(s) && Rest(s)
    ensures Rest(s')
  {
  }

  lemma OnwardKeepsStartPc(s: State, s': State, pc: Pc)
    requires Onward(s, s') && Epochs(s) && StartPc(s, pc)
    ensures StartPc(s', pc)
  {
    if pc.StartCas? { OnwardKeepsRest(s, s'); }
    assert AllOver(s) ==> AllOver(s');
  }

  lemma OnwardKeepsInv(s: State, starter: Option<Caller>, s': State)
    requires Inv(s, starter) && Onward(s, s') && Finishing(s')
    ensures Inv(s', starter)
  {
    assert Epochs(s');
    if starter.None? { OnwardKeepsRest(s, s'); } else { OnwardKeepsStartPc(s, s', s.callers[starter.value]); }
    forall c | c in s.callers && StopPc(s, s.callers[c]) ensures StopPc(s', s.callers[c]) {}
  }

  predicate TaskStep(step: Step) {
    || step.Notify? || step.DropSignal? || step.BodyReturns? || step.BodyPanics? || step.AbortTakesEffect?
    || step.TaskStores? || step.WatcherFires? || step.WatcherGivesUp? || step.Observe?
  }

  lemma SignalGoesOnward(s: State, step: Step)
    requires Finishing(s) && Enabled(s, step) && (step.Notify? || step.DropSignal?)
    ensures Onward(s, Next(s, step)) && Finishing(Next(s, step))
  {
  }

  lemma BodyGoesOnward(s: State, step: Step)
    requires Epochs(s) && Finishing(s) && Enabled(s, step)
    requires step.BodyReturns? || step.BodyPanics? || step.AbortTakesEffect?
    ensures Onward(s, Next(s, step)) && Finishing(Next(s, step))
  {
  }

  lemma FinishGoesOnward(s: State, step: Step)
    requires Epochs(s) && Finishing(s) && Enabled(s, step) && step.TaskStores?
    ensures Onward(s, Next(s, step)) && Finishing(Next(s, step))
  {
    assert !s.tasks[step.epoch].Over();
  }

  lemma WatcherGoesOnward(s: State, step: Step)
    requires Finishing(s) && Enabled(s, step) && (step.WatcherFires? || step.WatcherGivesUp? || step.Observe?)
    ensures Onward(s, Next(s, step)) && Finishing(Next(s, step))
  {
  }

  // ---- Runs ----

  ghost function StarterAfter(starter: Option<Caller>, step: Step, s': State): Option<Caller> {
    if step.CallStart? then Some(step.caller)
    else if starter.Some? && starter.value in s'.callers && s'.callers[starter.value].Returned() then None
    else starter
  }

  lemma StarterKeepsInv(s: State, c: Caller)
    requires Inv(s, Some(c)) && Enabled(s, Advance(c))
    ensures var s' := Next(s, Advance(c)); Inv(s', StarterAfter(Some(c), Advance(c), s'))
  {
    var pc := s.callers[c];
    var s' := StartStep(s, c, pc);
    assert Next(s, Advance(c)) == s';
    assert Kept(s', c) by {
      match pc
      case StartCas(_) => if s.status == Stopped { WinKeepsInv(s, c); } else { LoseKeepsInv(s, c); }
      case StartClearFinished(_, _) => ClearKeepsInv(s, c);
      case StartClearCancelled(_, _) => ClearKeepsInv(s, c);
      case StartStoreToken(_, _) => StoreTokenKeepsInv(s, c);
      case StartMarkRunning(_, _) => MarkRunningKeepsInv(s, c);
      case StartSpawn(_, _) => SpawnKeepsInv(s, c);
      case StartStoreHandle(_) => StoreHandleKeepsInv(s, c);
    }
  }

  lemma CallerKeepsInv(s: State, starter: Option<Caller>, step: Step)
    requires Inv(s, starter) && Enabled(s, step) && (step.Advance? || step.SeeFinished? || step.TimeOut?)
    ensures Inv(Next(s, step), StarterAfter(starter, step, Next(s, step)))
  {
    var me := step.caller;
    if starter == Some(me) {
      StarterKeepsInv(s, me);
    } else {
      assert starter.None? && StopStepOf(s, step, me);
      if Loud(s, s.callers[me]) { LoudStepKeepsInv(s, me); } else { QuietStepKeepsInv(s, step, me); }
    }
  }

  lemma TaskKeepsInv(s: State, starter: Option<Caller>, step: Step)
    requires Inv(s, starter) && Enabled(s, step) && TaskStep(step)
    ensures Inv(Next(s, step), starter) && Onward(s, Next(s, step))
  {
    if step.TaskStores? {
      FinishGoesOnward(s, step);
    } else if step.WatcherFires? || step.WatcherGivesUp? || step.Observe? {
      WatcherGoesOnward(s, step);
    } else if step.Notify? || step.DropSignal? {
      SignalGoesOnward(s, step);
    } else {
      BodyGoesOnward(s, step);
    }
    OnwardKeepsInv(s, starter, Next(s, step));
  }

  /** Only its own steps end a start. */
  lemma StarterUnmoved(s: State, starter: Option<Caller>, step: Step)
    requires Enabled(s, step) && !step.CallStart? && (CallerStep(step) ==> starter != Some(step.caller))
    requires starter.Some? ==> starter.value in s.callers && !s.callers[starter.value].Returned()
    ensures StarterAfter(starter, step, Next(s, step)) == starter
  {
    if starter.Some? { StepFrame(s, step, starter.value); }
  }

  lemma StepKeepsInv(s: State, starter: Option<Caller>, step: Step)
    requires Inv(s, starter) && Enabled(s, step) && Permits(Phased, s, step)
    ensures Inv(Next(s, step), StarterAfter(starter, step, Next(s, step)))
  {
    if step.CallStart? {
      CallStartKeepsInv(s, starter, step.caller, step.ready);
    } else if CallerStep(step) {
      CallerKeepsInv(s, starter, step);
    } else {
      StarterUnmoved(s, starter, step);
      if step.CallStop? { CallStopKeepsInv(s, starter, step.caller); } else { TaskKeepsInv(s, starter, step); }
    }
  }

  lemma {:induction false} RunKeepsInv(s: State, starter: Option<Caller>, run: seq<Step>) returns (starter': Option<Caller>)
    requires Inv(s, starter) && Legal(Phased, s, run)
    ensures Inv(Exec(Phased, s, run), starter')
    decreases |run|
  {
    if run == [] {
      starter' := starter;
    } else {
      var s' := Next(s, run[0]);
      StepKeepsInv(s, starter, run[0]);
      starter' := RunKeepsInv(s', StarterAfter(starter, run[0], s'), run[1..]);
    }
  }

  // ---- What every run keeps ----

  /** At most one task is live in any reachable state, and it is the one of the latest successful start. */
  lemma OneLiveTask(run: seq<Step>, e: Epoch)
    requires Legal(Phased, Init, run)
    requires var s := Exec(Phased, Init, run); e in s.tasks && !s.tasks[e].Over()
    ensures e == Exec(Phased, Init, run).epochs - 1
  {
    var starter := RunKeepsInv(Init, None, run);
  }

  /** A start wins its compare-and-swap only when every earlier task has made its last write or died. */
  lemma StartFindsNoLiveTask(run: seq<Step>, c: Caller)
    requires Legal(Phased, Init, run)
    requires var s := Exec(Phased, Init, run); c in s.callers && s.callers[c].StartCas? && s.status == Stopped
    ensures AllOver(Exec(Phased, Init, run))
  {
    var starter := RunKeepsInv(Init, None, run);
    assert starter == Some(c);
  }

  /** A finishing write belongs to the latest epoch, and no start has won and not spawned yet when it is made. */
  lemma FinishWritesAreCurrent(run: seq<Step>, e: Epoch)
    requires Legal(Phased, Init, run) && Enabled(Exec(Phased, Init, run), TaskStores(e))
    ensures e == Exec(Phased, Init, run).epochs - 1
    ensures forall c :: c in Exec(Phased, Init, run).callers && Exec(Phased, Init, run).callers[c].IsStart() ==>
              var pc := Exec(Phased, Init, run).callers[c];
              pc.Returned() || pc.StartCas? || pc.StartStoreHandle?
  {
    var starter := RunKeepsInv(Init, None, run);
    assert !AllOver(Exec(Phased, Init, run));
  }

  /** However many stop callers race, each epoch's token and join handle are taken at most once. */
  lemma TakenAtMostOnce(run: seq<Step>, e: Epoch)
    requires Legal(Phased, Init, run)
    ensures Exec(Phased, Init, run).tokenTakes[e] <= 1 && Exec(Phased, Init, run).handleTakes[e] <= 1
  {
    var starter := RunKeepsInv(Init, None, run);
  }

  /** Without ready mode the status is Running before the task exists. */
  lemma RunningBeforeSpawn(run: seq<Step>, c: Caller)
    requires Legal(Phased, Init, run)
    requires var s := Exec(Phased, Init, run); c in s.callers && s.callers[c].StartMarkRunning? && !s.callers[c].ready
    ensures var s := Exec(Phased, Init, run);
            var e := s.callers[c].epoch;
            var s' := Next(s, Advance(c));
            s'.callers[c] == StartSpawn(e, false) && s'.status == Running && e !in s'.tasks
  {
    var starter := RunKeepsInv(Init, None, run);
    assert starter == Some(c);
  }

  /** Between starts, the finished flag means that the latest task has finished or is over. */
  lemma FinishedIsCurrent(run: seq<Step>)
    requires Legal(Phased, Init, run) && NoStartInFlight(Exec(Phased, Init, run)) && Exec(Phased, Init, run).finished
    ensures var s := Exec(Phased, Init, run);
            s.epochs > 0 ==> Spawned(s) && (s.tasks[s.epochs - 1].pc == StoreStopped || s.tasks[s.epochs - 1].Over())
  {
    var starter := RunKeepsInv(Init, None, run);
    assert starter.Some? ==> (var s := Exec(Phased, Init, run);
                              s.callers[starter.value].IsStart() && !s.callers[starter.value].Returned());
  }

  // ---- Within one epoch ----

  lemma StartStaysInactive(s: State, c: Caller, pc: Pc)
    requires pc.StartStoreHandle? || (pc.StartCas? && s.status != Stopped)
    requires !Active(s)
    ensures !Active(StartStep(s, c, pc))
  {
  }

  lemma WinningBeginsEpoch(s: State, c: Caller)
    requires Enabled(s, Advance(c)) && s.callers[c].StartCas? && Next(s, Advance(c)).epochs == s.epochs
    ensures s.status != Stopped
  {
  }

  lemma StepStaysInactive(s: State, starter: Option<Caller>, step: Step)
    requires Inv(s, starter) && Enabled(s, step) && !Active(s) && Next(s, step).epochs == s.epochs
    ensures !Active(Next(s, step))
  {
    if TaskStep(step) {
      TaskKeepsInv(s, starter, step);
    } else if step.Advance? {
      var pc := s.callers[step.caller];
      if pc.IsStart() {
        assert starter == Some(step.caller);
        if pc.StartCas? { WinningBeginsEpoch(s, step.caller); }
        StartStaysInactive(s, step.caller, pc);
      } else {
        StopStepFrame(s, step.caller, pc);
      }
    }
  }

  lemma {:induction false} RunStaysInactive(s: State, starter: Option<Caller>, run: seq<Step>)
    requires Inv(s, starter) && Legal(Phased, s, run) && !Active(s) && Exec(Phased, s, run).epochs == s.epochs
    ensures !Active(Exec(Phased, s, run))
    decreases |run|
  {
    if run != [] {
      var s' := Next(s, run[0]);
      StepKeepsEpochs(s, run[0]);
      EpochsGrow(Phased, s', run[1..]);
      StepKeepsInv(s, starter, run[0]);
      StepStaysInactive(s, starter, run[0]);
      RunStaysInactive(s', StarterAfter(starter, run[0], s'), run[1..]);
    }
  }

  /** Once Stopping or Stopped has been written in an epoch, no later state of that epoch is Starting or Running. */
  lemma StoppingIsFinal(before: seq<Step>, after: seq<Step>)
    requires Legal(Phased, Init, before) && Legal(Phased, Exec(Phased, Init, before), after)
    requires var s := Exec(Phased, Init, before);
             s.status in {Stopping, Stopped} && Exec(Phased, s, after).epochs == s.epochs
    ensures Exec(Phased, Exec(Phased, Init, before), after).status in {Stopping, Stopped}
  {
    var starter := RunKeepsInv(Init, None, before);
    RunStaysInactive(Exec(Phased, Init, before), starter, after);
  }

  /** The stop `c` either has not written Stopping yet, or the epoch is being stopped or has been. */
  ghost predicate InEffect(s: State, c: Caller) {
    c in s.callers && !s.callers[c].IsStart() && (BeforeStopping(s.callers[c]) || !Active(s))
  }

  lemma StopTakesEffect(s: State, c: Caller)
    requires Enabled(s, Advance(c)) && InEffect(s, c) && BeforeStopping(s.callers[c])
    ensures InEffect(Next(s, Advance(c)), c)
  {
  }

  lemma StepKeepsEffect(s: State, starter: Option<Caller>, step: Step, c: Caller)
    requires Inv(s, starter) && Enabled(s, step) && InEffect(s, c) && Next(s, step).epochs == s.epochs
    ensures InEffect(Next(s, step), c)
  {
    StepFrame(s, step, c);
    if !Active(s) {
      StepStaysInactive(s, starter, step);
    } else if step == Advance(c) {
      StopTakesEffect(s, c);
    }
  }

  lemma {:induction false} RunKeepsEffect(s: State, starter: Option<Caller>, run: seq<Step>, c: Caller)
    returns (starter': Option<Caller>)
    requires Inv(s, starter) && Legal(Phased, s, run) && InEffect(s, c) && Exec(Phased, s, run).epochs == s.epochs
    ensures Inv(Exec(Phased, s, run), starter') && InEffect(Exec(Phased, s, run), c)
    decreases |run|
  {
    if run == [] {
      starter' := starter;
    } else {
      var s' := Next(s, run[0]);
      StepKeepsEpochs(s, run[0]);
      EpochsGrow(Phased, s', run[1..]);
      StepKeepsInv(s, starter, run[0]);
      StepKeepsEffect(s, starter, run[0], c);
      starter' := RunKeepsEffect(s', StarterAfter(starter, run[0], s'), run[1..], c);
    }
  }

  lemma ReturnedStopHasStopped(s: State, starter: Option<Caller>, c: Caller)
    requires Inv(s, starter) && InEffect(s, c) && AllReturned(s) && s.epochs > 0
    ensures s.status == Stopped && s.finished && AllOver(s)
  {
    assert starter.None?;
  }

  lemma CalledStopHasStopped(s: State, starter: Option<Caller>, c: Caller, after: seq<Step>)
    requires Inv(s, starter) && Enabled(s, CallStop(c)) && Permits(Phased, s, CallStop(c))
    requires Legal(Phased, Next(s, CallStop(c)), after)
    requires var s' := Exec(Phased, Next(s, CallStop(c)), after); s'.epochs == s.epochs > 0 && AllReturned(s')
    ensures var s' := Exec(Phased, Next(s, CallStop(c)), after); s'.status == Stopped && s'.finished && AllOver(s')
  {
    var s1 := Next(s, CallStop(c));
    StepKeepsInv(s, starter, CallStop(c));
    var starter' := RunKeepsEffect(s1, StarterAfter(starter, CallStop(c), s1), after, c);
    ReturnedStopHasStopped(Exec(Phased, s1, after), starter', c);
  }

  /**
   * When a stop was called in an epoch and every call has returned, with no new epoch begun, the lifecycle really is
   * stopped, however many other stops there were.
   */
  lemma StopsReturnedMeansStopped(before: seq<Step>, c: Caller, after: seq<Step>)
    requires Legal(Phased, Init, before) && Legal(Phased, Exec(Phased, Init, before), [CallStop(c)] + after)
    requires var s := Exec(Phased, Init, before);
             var s' := Exec(Phased, s, [CallStop(c)] + after);
             s'.epochs == s.epochs > 0 && AllReturned(s')
    ensures var s' := Exec(Phased, Exec(Phased, Init, before), [CallStop(c)] + after);
            s'.status == Stopped && s'.finished && AllOver(s')
  {
    var s := Exec(Phased, Init, before);
    var starter := RunKeepsInv(Init, None, before);
    assert ([CallStop(c)] + after)[0] == CallStop(c) && ([CallStop(c)] + after)[1..] == after;
    CalledStopHasStopped(s, starter, c, after);
  }
}
