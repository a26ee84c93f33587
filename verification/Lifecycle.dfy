/**
 * The lifecycle controller as a step relation. One step is one atomic load, store, compare-and-swap,
 * mutex-guarded take, spawn or join of `start_core`, `stop`, the background task or the ready watcher.
 */
module Lifecycle {
  import opened Seqs

  datatype Status = Stopped | Starting | Running | Stopping
  datatype StopReason = Finished | Cancelled | Timeout

  // One successful start; it identifies the token, the join handle, the task and the watcher made by it.
  type Epoch = nat
  type Caller = nat

  datatype TaskPc = Body | StoreFinished | StoreStopped | Ended | Dead
  datatype Signal = Held | Sent | Dropped
  datatype Task = Task(pc: TaskPc, readyMode: bool, signal: Signal) {
    // Over: it has made its last write, or it panicked or was aborted and will never make one.
    predicate Over() { pc == Ended || pc == Dead }
  }

  datatype Pc =
    | StartCas(ready: bool)
    | StartClearFinished(epoch: Epoch, ready: bool)
    | StartClearCancelled(epoch: Epoch, ready: bool)
    | StartStoreToken(epoch: Epoch, ready: bool)
    | StartMarkRunning(epoch: Epoch, ready: bool)
    | StartSpawn(epoch: Epoch, ready: bool)
    | StartStoreHandle(epoch: Epoch)
    | StartReturned(ok: bool)
    | StopLoad
    | StopStoreStopping
    | StopTakeToken
    | StopMarkCancelled(epoch: Epoch)
    | StopCancel(epoch: Epoch)
    | StopWait
    | StopReadCancelled
    | StopTakeHandle(reason: StopReason)
    | StopAbort(epoch: Epoch, reason: StopReason)
    | StopJoin(epoch: Epoch, reason: StopReason)
    | StopStoreFinished(reason: StopReason)
    | StopStoreStopped(reason: StopReason)
    | StopReturned(reason: StopReason)
  {
    predicate Returned() { StartReturned? || StopReturned? }
    predicate IsStart() {
      || StartCas? || StartClearFinished? || StartClearCancelled? || StartStoreToken? || StartMarkRunning?
      || StartSpawn? || StartStoreHandle? || StartReturned?
    }
  }

  datatype State = State(
    status: Status, finished: bool, wasCancelled: bool, token: Option<Epoch>, handle: Option<Epoch>,
    epochs: nat,                   // successful starts so far; the current one is epochs - 1
    tasks: map<Epoch, Task>,
    watchers: set<Epoch>,          // ready watchers that have not run yet
    cancelled: set<Epoch>, aborting: set<Epoch>,
    callers: map<Caller, Pc>,
    // History: the tokens and handles taken so far, who took a handle last, who wrote Stopping last, and the
    // epochs in which the controller has read the status Running.
    tokenTakes: multiset<Epoch>, handleTakes: multiset<Epoch>, joiner: Option<Caller>, stopper: Option<Caller>,
    seenRunning: set<Epoch>)

  const Init := State(
    Stopped, false, false, None, None, 0, map[], {}, {}, {}, map[], multiset{}, multiset{}, None, None, {})

  datatype Step =
    | CallStart(caller: Caller, ready: bool)
    | CallStop(caller: Caller)
    | Advance(caller: Caller)         // the caller's next step, where there is only one
    | SeeFinished(caller: Caller)     // `stop` wakes up because the finished flag is set
    | TimeOut(caller: Caller)
    | Notify(epoch: Epoch)            // by whoever holds the ready signal, which may outlive the body
    | DropSignal(epoch: Epoch)
    | BodyReturns(epoch: Epoch)
    | BodyPanics(epoch: Epoch)
    | AbortTakesEffect(epoch: Epoch)
    | TaskStores(epoch: Epoch)        // the task's next finishing write
    | WatcherFires(epoch: Epoch)
    | WatcherGivesUp(epoch: Epoch)
    | Observe                         // the controller reads the status

  predicate CanAdvance(s: State, pc: Pc) {
    match pc
    case StartReturned(_) => false
    case StopReturned(_) => false
    case StopWait => false
    case StopJoin(e, _) => e in s.tasks && s.tasks[e].Over()
    case _ => true
  }

  predicate Enabled(s: State, step: Step) {
    match step
    case CallStart(c, _) => c !in s.callers
    case CallStop(c) => c !in s.callers
    case Advance(c) => c in s.callers && CanAdvance(s, s.callers[c])
    case SeeFinished(c) => c in s.callers && s.callers[c] == StopWait && s.finished
    case TimeOut(c) => c in s.callers && s.callers[c] == StopWait
    case Notify(e) => e in s.tasks && s.tasks[e].signal == Held
    case DropSignal(e) => e in s.tasks && s.tasks[e].signal == Held
    case BodyReturns(e) => e in s.tasks && s.tasks[e].pc == Body
    case BodyPanics(e) => e in s.tasks && s.tasks[e].pc == Body
    case AbortTakesEffect(e) => e in s.tasks && s.tasks[e].pc == Body && e in s.aborting
    case TaskStores(e) => e in s.tasks && (s.tasks[e].pc == StoreFinished || s.tasks[e].pc == StoreStopped)
    case WatcherFires(e) => e in s.watchers && e in s.tasks && s.tasks[e].signal == Sent
    case WatcherGivesUp(e) => e in s.watchers && e in s.tasks && s.tasks[e].signal == Dropped
    case Observe => true
  }

  function Go(s: State, c: Caller, pc: Pc): State { s.(callers := s.callers[c := pc]) }

  function SetTask(s: State, e: Epoch, t: Task): State { s.(tasks := s.tasks[e := t]) }

  // A step of a call is what it writes to the shared variables and where its caller goes next.

  function StartWrites(s: State, pc: Pc): State {
    match pc
    case StartCas(_) => if s.status == Stopped then s.(status := Starting, epochs := s.epochs + 1) else s
    case StartClearFinished(_, _) => s.(finished := false)
    case StartClearCancelled(_, _) => s.(wasCancelled := false)
    case StartStoreToken(e, _) => s.(token := Some(e))
    case StartMarkRunning(e, ready) => if ready then s.(watchers := s.watchers + {e}) else s.(status := Running)
    case StartSpawn(e, ready) => SetTask(s, e, Task(Body, ready, if ready then Held else Dropped))
    case StartStoreHandle(e) => s.(handle := Some(e))
    case _ => s
  }

  function StartGoesTo(s: State, pc: Pc): Pc
    requires pc.IsStart() && !pc.StartReturned?
  {
    match pc
    case StartCas(ready) => if s.status == Stopped then StartClearFinished(s.epochs, ready) else StartReturned(false)
    case StartClearFinished(e, ready) => StartClearCancelled(e, ready)
    case StartClearCancelled(e, ready) => StartStoreToken(e, ready)
    case StartStoreToken(e, ready) => StartMarkRunning(e, ready)
    case StartMarkRunning(e, ready) => StartSpawn(e, ready)
    case StartSpawn(e, _) => StartStoreHandle(e)
    case StartStoreHandle(_) => StartReturned(true)
  }

  function StartStep(s: State, c: Caller, pc: Pc): State
    requires pc.IsStart() && !pc.StartReturned?
  {
    Go(StartWrites(s, pc), c, StartGoesTo(s, pc))
  }

  function StopWrites(s: State, c: Caller, pc: Pc): State {
    match pc
    case StopStoreStopping => s.(status := Stopping, stopper := Some(c))
    case StopTakeToken =>
      if s.token.Some? then s.(token := None, tokenTakes := s.tokenTakes + multiset{s.token.value}) else s
    case StopMarkCancelled(_) => s.(wasCancelled := true)
    case StopCancel(e) => s.(cancelled := s.cancelled + {e})
    case StopTakeHandle(_) =>
      if s.handle.Some?
      then s.(handle := None, handleTakes := s.handleTakes + multiset{s.handle.value}, joiner := Some(c))
      else s
    case StopAbort(e, r) =>
      if r == Timeout && !(e in s.tasks && s.tasks[e].Over()) then s.(aborting := s.aborting + {e}) else s
    case StopStoreFinished(_) => s.(finished := true)
    case StopStoreStopped(_) => s.(status := Stopped)
    case _ => s
  }

  function StopGoesTo(s: State, pc: Pc): Pc
    requires !pc.IsStart() && !pc.StopReturned? && !pc.StopWait?
  {
    match pc
    case StopLoad => if s.status == Stopped then StopReturned(Finished) else StopStoreStopping
    case StopStoreStopping => StopTakeToken
    case StopTakeToken => if s.token.Some? then StopMarkCancelled(s.token.value) else StopWait
    case StopMarkCancelled(e) => StopCancel(e)
    case StopCancel(_) => StopWait
    case StopReadCancelled => StopTakeHandle(if s.wasCancelled then Cancelled else Finished)
    case StopTakeHandle(r) => if s.handle.Some? then StopAbort(s.handle.value, r) else StopStoreStopped(r)
    case StopAbort(e, r) => StopJoin(e, r)
    case StopJoin(_, r) => StopStoreFinished(r)
    case StopStoreFinished(r) => StopStoreStopped(r)
    case StopStoreStopped(r) => StopReturned(r)
  }

  function StopStep(s: State, c: Caller, pc: Pc): State
    requires !pc.IsStart() && !pc.StopReturned? && !pc.StopWait?
  {
    Go(StopWrites(s, c, pc), c, StopGoesTo(s, pc))
  }

  function Next(s: State, step: Step): State
    requires Enabled(s, step)
  {
    match step
    case CallStart(c, ready) => Go(s, c, StartCas(ready))
    case CallStop(c) => Go(s, c, StopLoad)
    case Advance(c) => if s.callers[c].IsStart() then StartStep(s, c, s.callers[c]) else StopStep(s, c, s.callers[c])
    case SeeFinished(c) => Go(s, c, StopReadCancelled)
    case TimeOut(c) => Go(s, c, StopTakeHandle(Timeout))
    case Notify(e) => SetTask(s, e, s.tasks[e].(signal := Sent))
    case DropSignal(e) => SetTask(s, e, s.tasks[e].(signal := Dropped))
    case BodyReturns(e) => SetTask(s, e, s.tasks[e].(pc := StoreFinished))
    case BodyPanics(e) => SetTask(s, e, s.tasks[e].(pc := Dead))
    case AbortTakesEffect(e) => SetTask(s, e, s.tasks[e].(pc := Dead))
    case TaskStores(e) =>
      if s.tasks[e].pc == StoreFinished
      then SetTask(s, e, s.tasks[e].(pc := StoreStopped)).(finished := true)
      else SetTask(s, e, s.tasks[e].(pc := Ended)).(status := Stopped)
    case WatcherFires(e) =>
      s.(watchers := s.watchers - {e}, status := if s.status == Starting then Running else s.status)
    case WatcherGivesUp(e) => s.(watchers := s.watchers - {e})
    case Observe =>
      if s.status == Running && s.epochs > 0 then s.(seenRunning := s.seenRunning + {s.epochs - 1}) else s
  }

  // ---- What a step leaves alone ----

  /** A step of `stop` leaves tasks, watchers and epochs alone and never makes the status active. */
  lemma StopStepFrame(s: State, c: Caller, pc: Pc)
    requires !pc.IsStart() && !pc.StopReturned? && !pc.StopWait?
    ensures var s' := StopStep(s, c, pc);
            && s'.tasks == s.tasks && s'.watchers == s.watchers && s'.epochs == s.epochs
            && s'.seenRunning == s.seenRunning
            && (s'.status == s.status || s'.status == Stopping || s'.status == Stopped)
  {
  }

  predicate CallerStep(step: Step) { step.Advance? || step.SeeFinished? || step.TimeOut? }

  lemma StartFrame(s: State, me: Caller)
    requires Enabled(s, Advance(me)) && s.callers[me].IsStart()
    ensures Next(s, Advance(me)).callers == s.callers[me := StartGoesTo(s, s.callers[me])]
  {
  }

  lemma StopFrame(s: State, me: Caller)
    requires Enabled(s, Advance(me)) && !s.callers[me].IsStart()
    ensures Next(s, Advance(me)).callers == s.callers[me := StopGoesTo(s, s.callers[me])]
  {
  }

  lemma GoesToFrame(s: State, pc: Pc)
    requires CanAdvance(s, pc)
    ensures pc.IsStart() ==> StartGoesTo(s, pc).IsStart()
    ensures !pc.IsStart() ==> !StopGoesTo(s, pc).IsStart()
  {
  }

  /** Only the caller that steps moves, and a stop stays a stop. */
  lemma StepFrame(s: State, step: Step, c: Caller)
    requires Enabled(s, step) && c in s.callers
    ensures c in Next(s, step).callers
    ensures !(CallerStep(step) && step.caller == c) ==> Next(s, step).callers[c] == s.callers[c]
    ensures s.callers[c].IsStart() <==> Next(s, step).callers[c].IsStart()
  {
    if step.Advance? {
      if s.callers[step.caller].IsStart() { StartFrame(s, step.caller); } else { StopFrame(s, step.caller); }
      GoesToFrame(s, s.callers[step.caller]);
    }
  }

  /** Which calls the environment may make, and when. */
  datatype Discipline =
    | Free        // any call at any time
    | Phased      // a start is called when every call has returned, a stop when no start is in flight; stops overlap
    | Serial      // one controller: each call is made after the previous one has returned
    | Settled     // Phased, and a ready-mode start wins its epoch only with no earlier ready watcher that can fire
    | Observing   // Phased, and a ready-mode start is called after Running was read in each earlier ready-mode epoch
  {
    /** Only the calls are restricted, by what is in flight. */
    predicate Plain() { Free? || Phased? || Serial? }
  }

  predicate Permits(d: Discipline, s: State, step: Step) {
    match d
    case Free => true
    case Phased => InPhase(s, step)
    case Serial => step.CallStart? || step.CallStop? || step.Observe? ==> AllReturned(s)
    case Settled =>
      && InPhase(s, step)
      && (step.Advance? && step.caller in s.callers && s.callers[step.caller] == StartCas(true) && s.status == Stopped ==>
            !WatcherPending(s))
    case Observing => InPhase(s, step) && (step.CallStart? && step.ready ==> ReadyEpochsSeen(s))
  }

  predicate AllReturned(s: State) { forall c :: c in s.callers ==> s.callers[c].Returned() }

  predicate NoStartInFlight(s: State) {
    forall c :: c in s.callers && s.callers[c].IsStart() ==> s.callers[c].Returned()
  }

  predicate InPhase(s: State, step: Step) {
    && (step.CallStart? ==> AllReturned(s))
    && (step.CallStop? || step.Observe? ==> NoStartInFlight(s))
  }

  /** Some ready watcher has not run yet, and its signal has been sent or can still be. */
  predicate WatcherPending(s: State) {
    exists w :: w in s.watchers && w in s.tasks && s.tasks[w].signal != Dropped
  }

  /** In every ready-mode epoch so far, the controller has read the status Running. */
  predicate ReadyEpochsSeen(s: State) {
    forall e :: e in s.tasks && s.tasks[e].readyMode ==> e in s.seenRunning
  }

  predicate Legal(d: Discipline, s: State, run: seq<Step>)
    decreases |run|
  {
    run == [] || (Enabled(s, run[0]) && Permits(d, s, run[0]) && Legal(d, Next(s, run[0]), run[1..]))
  }

  /** The state reached by a run. */
  function Exec(d: Discipline, s: State, run: seq<Step>): State
    requires Legal(d, s, run)
    decreases |run|
  {
    if run == [] then s else Exec(d, Next(s, run[0]), run[1..])
  }

  lemma {:induction false} LegalConcat(d: Discipline, s: State, a: seq<Step>, b: seq<Step>)
    ensures Legal(d, s, a + b) <==> Legal(d, s, a) && Legal(d, Exec(d, s, a), b)
    ensures Legal(d, s, a + b) ==> Exec(d, s, a + b) == Exec(d, Exec(d, s, a), b)
    decreases |a|
  {
    if a == [] {
      assert a + b == b;
    } else {
      assert (a + b)[0] == a[0] && (a + b)[1..] == a[1..] + b;
      if Enabled(s, a[0]) { LegalConcat(d, Next(s, a[0]), a[1..], b); }
    }
  }

  /** A serial controller is a special case of the phased discipline. */
  lemma {:induction false} SerialIsPhased(s: State, run: seq<Step>)
    requires Legal(Serial, s, run)
    ensures Legal(Phased, s, run) && Exec(Phased, s, run) == Exec(Serial, s, run)
    decreases |run|
  {
    if run != [] { SerialIsPhased(Next(s, run[0]), run[1..]); }
  }

  lemma StepKeepsEpochs(s: State, step: Step)
    requires Enabled(s, step)
    ensures s.epochs <= Next(s, step).epochs
  {
  }

  lemma {:induction false} EpochsGrow(d: Discipline, s: State, run: seq<Step>)
    requires Legal(d, s, run)
    ensures s.epochs <= Exec(d, s, run).epochs
    decreases |run|
  {
    if run != [] {
      StepKeepsEpochs(s, run[0]);
      EpochsGrow(d, Next(s, run[0]), run[1..]);
    }
  }
}
