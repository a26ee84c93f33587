/** What `stop` answers and what it does to the task: its reasons, the cancellation and the abort. */
module LifecycleAnswers {
  import opened Seqs
  import opened Lifecycle
  import opened LifecyclePhased
  import opened LifecycleRuns

  /** The stop knows its answer. */
  predicate Decided(pc: Pc) {
    pc.StopTakeHandle? || pc.StopAbort? || pc.StopJoin? || pc.StopStoreFinished? || pc.StopStoreStopped? || pc.StopReturned?
  }

  // ---- Where the answer comes from, in any run ----

  lemma OwnStepKeepsReason(s: State, c: Caller)
    requires Enabled(s, Advance(c)) && Decided(s.callers[c])
    ensures var pc := StopGoesTo(s, s.callers[c]); Decided(pc) && pc.reason == s.callers[c].reason
  {
  }

  lemma StepKeepsReason(s: State, step: Step, c: Caller)
    requires Enabled(s, step) && c in s.callers && Decided(s.callers[c])
    ensures var t := Next(s, step); c in t.callers && Decided(t.callers[c]) && t.callers[c].reason == s.callers[c].reason
  {
    StepFrame(s, step, c);
    if step == Advance(c) {
      OwnStepKeepsReason(s, c);
      StopFrame(s, c);
    }
  }

  lemma {:induction false} RunKeepsReason(d: Discipline, s: State, run: seq<Step>, c: Caller)
    requires Legal(d, s, run) && c in s.callers && Decided(s.callers[c])
    ensures var t := Exec(d, s, run); c in t.callers && Decided(t.callers[c]) && t.callers[c].reason == s.callers[c].reason
    decreases |run|
  {
    if run != [] {
      StepKeepsReason(s, run[0], c);
      RunKeepsReason(d, Next(s, run[0]), run[1..], c);
    }
  }

  /** The step by which stop `c` comes to its answer: it times out, reads the flag, or finds nothing to stop. */
  ghost predicate Cause(s: State, step: Step, c: Caller, answer: StopReason) {
    && c in s.callers
    && match answer
       case Timeout => step == TimeOut(c) && s.callers[c] == StopWait
       case Cancelled => step == Advance(c) && s.callers[c] == StopReadCancelled && s.wasCancelled
       case Finished =>
         && step == Advance(c)
         && ((s.callers[c] == StopReadCancelled && !s.wasCancelled) || (s.callers[c] == StopLoad && s.status == Stopped))
  }

  lemma StepDecides(s: State, step: Step, c: Caller)
    requires Enabled(s, step) && (c in s.callers ==> !Decided(s.callers[c]))
    requires c in Next(s, step).callers && Decided(Next(s, step).callers[c])
    ensures Cause(s, step, c, Next(s, step).callers[c].reason)
  {
    if c !in s.callers {
      NewcomerIsUndecided(s, step, c);
    } else {
      StepFrame(s, step, c);
      if step == Advance(c) { AdvanceDecides(s, c); } else { WakeDecides(s, step, c); }
    }
  }

  lemma NewcomerIsUndecided(s: State, step: Step, c: Caller)
    requires Enabled(s, step) && c !in s.callers && c in Next(s, step).callers
    ensures !Decided(Next(s, step).callers[c])
  {
    if step.Advance? {
      if s.callers[step.caller].IsStart() { StartFrame(s, step.caller); } else { StopFrame(s, step.caller); }
    }
  }

  lemma WakeDecides(s: State, step: Step, c: Caller)
    requires Enabled(s, step) && CallerStep(step) && step.caller == c && !step.Advance?
    requires Decided(Next(s, step).callers[c])
    ensures Cause(s, step, c, Next(s, step).callers[c].reason)
  {
  }

  lemma AdvanceDecides(s: State, c: Caller)
    requires Enabled(s, Advance(c)) && !Decided(s.callers[c]) && Decided(Next(s, Advance(c)).callers[c])
    ensures Cause(s, Advance(c), c, Next(s, Advance(c)).callers[c].reason)
  {
    if s.callers[c].IsStart() { StartFrame(s, c); } else { StopFrame(s, c); }
  }

  /** Every answer has its cause, in runs of any discipline. */
  lemma {:induction false} AnswerHasCause(d: Discipline, s: State, run: seq<Step>, c: Caller) returns (k: nat)
    requires Legal(d, s, run) && (c in s.callers ==> !Decided(s.callers[c]))
    requires c in Exec(d, s, run).callers && Decided(Exec(d, s, run).callers[c])
    ensures k < |run| && Legal(d, s, run[..k])
    ensures Cause(Exec(d, s, run[..k]), run[k], c, Exec(d, s, run).callers[c].reason)
    decreases |run|
  {
    var t := Next(s, run[0]);
    if c in t.callers && Decided(t.callers[c]) {
      StepDecides(s, run[0], c);
      RunKeepsReason(d, t, run[1..], c);
      k := 0;
    } else {
      var i := AnswerHasCause(d, t, run[1..], c);
      assert run[..i + 1] == [run[0]] + run[1..][..i];
      LegalCons(d, s, run[0], run[1..][..i]);
      k := i + 1;
    }
  }

  lemma CauseDecides(s: State, step: Step, c: Caller, answer: StopReason)
    requires Enabled(s, step) && Cause(s, step, c, answer)
    ensures var t := Next(s, step); c in t.callers && Decided(t.callers[c]) && t.callers[c].reason == answer
  {
  }

  /** Each cause has its answer: a stop that has timed out answers Timeout, whatever happens later; and so on. */
  lemma CauseHasAnswer(d: Discipline, s: State, step: Step, rest: seq<Step>, c: Caller, answer: StopReason)
    requires Enabled(s, step) && Cause(s, step, c, answer) && Legal(d, Next(s, step), rest)
    ensures var t := Exec(d, Next(s, step), rest); c in t.callers && Decided(t.callers[c]) && t.callers[c].reason == answer
  {
    CauseDecides(s, step, c, answer);
    RunKeepsReason(d, Next(s, step), rest, c);
  }

  // ---- The token ----

  ghost predicate NobodyMarks(s: State) { forall c :: c in s.callers ==> !s.callers[c].StopMarkCancelled? }

  /** The stop has been at the token and not returned. */
  predicate PastToken(pc: Pc) { StopEngaged(pc) && !pc.StopTakeToken? }

  /**
   * Between starts: the token of the epoch is in place, and nobody has been at it; or it was taken once, and the
   * cancelled flag is set unless the taker is just about to set it.
   */
  ghost predicate TokenRest(s: State) {
    if s.epochs == 0 then s.token.None? && NobodyMarks(s)
    else
      && (forall c, d :: c in s.callers && d in s.callers && s.callers[c].StopMarkCancelled? && s.callers[d].StopMarkCancelled? ==>
            c == d)
      && (s.token.Some? ==>
            && s.token.value == s.epochs - 1 && !s.wasCancelled
            && forall c :: c in s.callers ==> !PastToken(s.callers[c]))
      && (s.token.None? ==> s.tokenTakes[s.epochs - 1] == 1 && (s.wasCancelled <==> NobodyMarks(s)))
  }

  ghost predicate TokenPc(s: State, pc: Pc) {
    match pc
    case StartCas(_) => TokenRest(s)
    case StartStoreToken(_, _) => !s.wasCancelled
    case StartMarkRunning(e, _) => s.token == Some(e) && !s.wasCancelled
    case StartSpawn(e, _) => s.token == Some(e) && !s.wasCancelled
    case StartStoreHandle(e) => s.token == Some(e) && !s.wasCancelled
    case _ => true
  }

  ghost predicate TokenInv(s: State, starter: Option<Caller>) {
    && (starter.None? ==> TokenRest(s))
    && (starter.Some? && starter.value in s.callers ==> TokenPc(s, s.callers[starter.value]))
  }

  lemma NobodyElseMarks(s: State, t: State, c: Caller, pc: Pc)
    requires c in s.callers && t.callers == s.callers[c := pc]
    requires !s.callers[c].StopMarkCancelled? && !pc.StopMarkCancelled?
    ensures NobodyMarks(s) <==> NobodyMarks(t)
  {
    if NobodyMarks(t) {
      forall d | d in s.callers ensures !s.callers[d].StopMarkCancelled? {
        assert d in t.callers && (d != c ==> t.callers[d] == s.callers[d]);
      }
    }
  }

  /** One caller moves, and has nothing to do with the token before or after. */
  ghost predicate TokenUntouched(s: State, t: State, c: Caller, pc: Pc) {
    && t.token == s.token && t.tokenTakes == s.tokenTakes && t.wasCancelled == s.wasCancelled && t.epochs == s.epochs
    && c in s.callers && t.callers == s.callers[c := pc]
    && !s.callers[c].StopMarkCancelled? && !pc.StopMarkCancelled? && (PastToken(pc) ==> PastToken(s.callers[c]) || s.token.None?)
  }

  lemma UntouchedKeepsToken(s: State, t: State, c: Caller, pc: Pc)
    requires TokenRest(s) && TokenUntouched(s, t, c, pc)
    ensures TokenRest(t)
  {
    NobodyElseMarks(s, t, c, pc);
  }

  lemma LoseKeepsToken(s: State, c: Caller)
    requires Inv(s, Some(c)) && TokenInv(s, Some(c)) && s.callers[c].StartCas? && s.status != Stopped
    ensures TokenRest(StartStep(s, c, s.callers[c]))
  {
    UntouchedKeepsToken(s, StartStep(s, c, s.callers[c]), c, StartReturned(false));
  }

  lemma StoreHandleKeepsToken(s: State, c: Caller)
    requires Inv(s, Some(c)) && TokenInv(s, Some(c)) && s.callers[c].StartStoreHandle?
    ensures TokenRest(StartStep(s, c, s.callers[c]))
  {
    var t := StartStep(s, c, s.callers[c]);
    forall d | d in t.callers ensures t.callers[d].Returned() { assert d != c ==> s.callers[d].Returned(); }
  }

  lemma StarterKeepsToken(s: State, c: Caller)
    requires Inv(s, Some(c)) && TokenInv(s, Some(c)) && Enabled(s, Advance(c))
    ensures TokenInv(Next(s, Advance(c)), StarterAfter(Some(c), Advance(c), Next(s, Advance(c))))
  {
    var pc := s.callers[c];
    StartFrame(s, c);
    assert Next(s, Advance(c)) == StartStep(s, c, pc);
    if pc.StartCas? && s.status != Stopped {
      LoseKeepsToken(s, c);
    } else if pc.StartStoreHandle? {
      StoreHandleKeepsToken(s, c);
    } else {
      PrepareTokenPc(s, c, pc);
    }
  }

  lemma PrepareTokenPc(s: State, c: Caller, pc: Pc)
    requires pc.IsStart() && !pc.Returned() && !pc.StartStoreHandle? && (pc.StartCas? ==> s.status == Stopped)
    requires pc.StartCas? || TokenPc(s, pc)
    ensures var to := StartGoesTo(s, pc); !to.Returned() && !to.StartCas? && TokenPc(StartStep(s, c, pc), to)
  {
  }

  lemma StopTokenUntouched(s: State, step: Step)
    requires Enabled(s, step) && CallerStep(step) && !s.callers[step.caller].IsStart()
    requires !s.callers[step.caller].StopTakeToken? && !s.callers[step.caller].StopMarkCancelled?
    ensures step.caller in Next(s, step).callers
    ensures TokenUntouched(s, Next(s, step), step.caller, Next(s, step).callers[step.caller])
  {
    if step.Advance? { StopFrame(s, step.caller); }
  }

  /** The stop takes part in nothing that concerns the token. */
  lemma OtherStopKeepsToken(s: State, step: Step)
    requires TokenRest(s) && Enabled(s, step) && CallerStep(step) && !s.callers[step.caller].IsStart()
    requires !s.callers[step.caller].StopTakeToken? && !s.callers[step.caller].StopMarkCancelled?
    ensures TokenRest(Next(s, step))
  {
    StopTokenUntouched(s, step);
    UntouchedKeepsToken(s, Next(s, step), step.caller, Next(s, step).callers[step.caller]);
  }

  lemma TakeTokenKeepsToken(s: State, c: Caller)
    requires Inv(s, None) && TokenRest(s) && Enabled(s, Advance(c)) && s.callers[c].StopTakeToken?
    ensures TokenRest(Next(s, Advance(c)))
  {
    var t := Next(s, Advance(c));
    assert StopPc(s, s.callers[c]);
    StopFrame(s, c);
    if s.token.None? {
      UntouchedKeepsToken(s, t, c, StopWait);
    } else {
      assert t.callers[c].StopMarkCancelled?;
      assert t.tokenTakes[s.epochs - 1] == 1;
    }
  }

  lemma MarkKeepsToken(s: State, c: Caller)
    requires Inv(s, None) && TokenRest(s) && Enabled(s, Advance(c)) && s.callers[c].StopMarkCancelled?
    ensures TokenRest(Next(s, Advance(c)))
  {
    assert StopPc(s, s.callers[c]);
    StopFrame(s, c);
    assert s.token.None? && !s.wasCancelled;
  }

  lemma StopKeepsToken(s: State, step: Step)
    requires Inv(s, None) && TokenRest(s) && Enabled(s, step) && CallerStep(step)
    ensures TokenRest(Next(s, step))
  {
    var pc := s.callers[step.caller];
    if pc.StopTakeToken? {
      TakeTokenKeepsToken(s, step.caller);
    } else if pc.StopMarkCancelled? {
      MarkKeepsToken(s, step.caller);
    } else {
      OtherStopKeepsToken(s, step);
    }
  }

  lemma TaskKeepsToken(s: State, starter: Option<Caller>, step: Step)
    requires Inv(s, starter) && TokenInv(s, starter) && Enabled(s, step) && TaskStep(step)
    ensures TokenInv(Next(s, step), starter)
  {
    TaskKeepsInv(s, starter, step);
    TaskKeepsFlag(s, step);
    SameCallsKeepToken(s, Next(s, step), starter);
  }

  lemma SameCallsKeepToken(s: State, t: State, starter: Option<Caller>)
    requires TokenInv(s, starter) && SameCalls(s, t) && t.wasCancelled == s.wasCancelled
    ensures TokenInv(t, starter)
  {
    assert NobodyMarks(s) <==> NobodyMarks(t);
  }

  lemma TaskKeepsFlag(s: State, step: Step)
    requires Enabled(s, step) && TaskStep(step)
    ensures Next(s, step).wasCancelled == s.wasCancelled
  {
  }

  /** A new caller does not change what the others are at. */
  lemma NewCallerKeepsToken(s: State, c: Caller, pc: Pc)
    requires TokenRest(s) && c !in s.callers && (pc.StartCas? || pc.StopLoad?)
    ensures TokenRest(Go(s, c, pc))
  {
    var t := Go(s, c, pc);
    assert NobodyMarks(s) <==> NobodyMarks(t) by {
      assert forall d :: d in s.callers ==> d in t.callers && t.callers[d] == s.callers[d];
    }
  }

  lemma StepKeepsToken(s: State, starter: Option<Caller>, step: Step)
    requires Inv(s, starter) && TokenInv(s, starter) && Enabled(s, step) && Permits(Phased, s, step)
    ensures TokenInv(Next(s, step), StarterAfter(starter, step, Next(s, step)))
  {
    if step.CallStart? {
      CallStartKeepsInv(s, starter, step.caller, step.ready);
      NewCallerKeepsToken(s, step.caller, StartCas(step.ready));
    } else if CallerStep(step) && starter == Some(step.caller) {
      StarterKeepsToken(s, step.caller);
    } else {
      StarterUnmoved(s, starter, step);
      if CallerStep(step) {
        StopKeepsToken(s, step);
      } else if TaskStep(step) {
        TaskKeepsToken(s, starter, step);
      } else {
        CallStopKeepsInv(s, starter, step.caller);
        NewCallerKeepsToken(s, step.caller, StopLoad);
      }
    }
  }

  lemma {:induction false} RunKeepsToken(s: State, starter: Option<Caller>, run: seq<Step>) returns (starter': Option<Caller>)
    requires Inv(s, starter) && TokenInv(s, starter) && Legal(Phased, s, run)
    ensures Inv(Exec(Phased, s, run), starter') && TokenInv(Exec(Phased, s, run), starter')
    decreases |run|
  {
    if run == [] {
      starter' := starter;
    } else {
      var t := Next(s, run[0]);
      StepKeepsInv(s, starter, run[0]);
      StepKeepsToken(s, starter, run[0]);
      starter' := RunKeepsToken(t, StarterAfter(starter, run[0], t), run[1..]);
    }
  }

  /** When a stop reads the flag: the task has finished, the epoch's token was taken, and the flag says if it is marked. */
  ghost predicate FlagIsRead(s: State) {
    && s.finished && s.epochs > 0 && s.tokenTakes[s.epochs - 1] == 1
    && (s.wasCancelled <==> NobodyMarks(s))
  }

  lemma ReadingMeans(s: State, starter: Option<Caller>, c: Caller)
    requires Inv(s, starter) && TokenInv(s, starter) && c in s.callers && s.callers[c] == StopReadCancelled
    ensures FlagIsRead(s)
  {
    assert starter.None? && StopPc(s, s.callers[c]);
  }

  /**
   * The answer of every stop in every phased run. Timeout: it timed out. Cancelled: it saw the task finished, and the
   * token of the epoch had been taken and marked. Finished: the same, but the taker had not marked it yet; or there was
   * nothing to stop. And it answers so in each of these cases.
   */
  lemma StopAnswers(run: seq<Step>, c: Caller) returns (k: nat)
    requires Legal(Phased, Init, run)
    requires c in Exec(Phased, Init, run).callers && Exec(Phased, Init, run).callers[c].StopReturned?
    ensures k < |run| && Legal(Phased, Init, run[..k])
    ensures var s, answer := Exec(Phased, Init, run[..k]), Exec(Phased, Init, run).callers[c].reason;
            && Cause(s, run[k], c, answer)
            && (s.callers[c] == StopReadCancelled ==> FlagIsRead(s))
  {
    k := AnswerHasCause(Phased, Init, run, c);
    var starter := RunKeepsToken(Init, None, run[..k]);
    var s := Exec(Phased, Init, run[..k]);
    if s.callers[c] == StopReadCancelled { ReadingMeans(s, starter, c); }
  }

  // ---- The cancellation, in any run ----

  ghost predicate Cancelling(s: State, e: Epoch) {
    exists c :: c in s.callers && (s.callers[c] == StopMarkCancelled(e) || s.callers[c] == StopCancel(e))
  }

  /** Exactly the tokens that were taken are cancelled, once their takers have got that far. */
  ghost predicate CancelInv(s: State) {
    && (forall e :: e in s.cancelled ==> s.tokenTakes[e] > 0)
    && (forall e :: s.tokenTakes[e] > 0 ==> e in s.cancelled || Cancelling(s, e))
    && (forall c :: c in s.callers && s.callers[c].StopMarkCancelled? ==> s.tokenTakes[s.callers[c].epoch] > 0)
    && (forall c :: c in s.callers && s.callers[c].StopCancel? ==> s.tokenTakes[s.callers[c].epoch] > 0)
  }

  /** A step that leaves the token, the cancellations and the callers that are cancelling alone. */
  ghost predicate CancelsNothing(s: State, t: State) {
    && t.cancelled == s.cancelled && t.tokenTakes == s.tokenTakes
    && (forall c :: c in s.callers && (s.callers[c].StopMarkCancelled? || s.callers[c].StopCancel?) ==>
          c in t.callers && t.callers[c] == s.callers[c])
    && (forall c :: c in t.callers && (t.callers[c].StopMarkCancelled? || t.callers[c].StopCancel?) ==>
          c in s.callers && t.callers[c] == s.callers[c])
  }

  lemma NothingKeepsCancel(s: State, t: State)
    requires CancelInv(s) && CancelsNothing(s, t)
    ensures CancelInv(t)
  {
    forall e | Cancelling(s, e) ensures Cancelling(t, e) {
      var c :| c in s.callers && (s.callers[c] == StopMarkCancelled(e) || s.callers[c] == StopCancel(e));
      assert t.callers[c] == s.callers[c];
    }
  }

  lemma TakeKeepsCancel(s: State, c: Caller)
    requires CancelInv(s) && Enabled(s, Advance(c)) && s.callers[c].StopTakeToken? && s.token.Some?
    ensures CancelInv(Next(s, Advance(c)))
  {
    var t := Next(s, Advance(c));
    StopFrame(s, c);
    forall e | Cancelling(s, e) ensures Cancelling(t, e) {
      var d :| d in s.callers && (s.callers[d] == StopMarkCancelled(e) || s.callers[d] == StopCancel(e));
      assert t.callers[d] == s.callers[d];
    }
    assert t.callers[c] == StopMarkCancelled(s.token.value);
  }

  lemma MarkKeepsCancel(s: State, c: Caller)
    requires CancelInv(s) && Enabled(s, Advance(c)) && s.callers[c].StopMarkCancelled?
    ensures CancelInv(Next(s, Advance(c)))
  {
    var t := Next(s, Advance(c));
    StopFrame(s, c);
    forall e | Cancelling(s, e) ensures Cancelling(t, e) {
      var d :| d in s.callers && (s.callers[d] == StopMarkCancelled(e) || s.callers[d] == StopCancel(e));
      assert d in t.callers && (t.callers[d] == StopMarkCancelled(e) || t.callers[d] == StopCancel(e));
    }
  }

  lemma CancelKeepsCancel(s: State, c: Caller)
    requires CancelInv(s) && Enabled(s, Advance(c)) && s.callers[c].StopCancel?
    ensures CancelInv(Next(s, Advance(c)))
  {
    var t := Next(s, Advance(c));
    StopFrame(s, c);
    forall e | Cancelling(s, e) ensures e in t.cancelled || Cancelling(t, e) {
      var d :| d in s.callers && (s.callers[d] == StopMarkCancelled(e) || s.callers[d] == StopCancel(e));
      if d != c { assert d in t.callers && t.callers[d] == s.callers[d]; }
    }
  }

  lemma OtherStepCancelsNothing(s: State, step: Step)
    requires Enabled(s, step)
    requires step.Advance? ==>
               var pc := s.callers[step.caller];
               !(pc.StopTakeToken? && s.token.Some?) && !pc.StopMarkCancelled? && !pc.StopCancel?
    ensures CancelsNothing(s, Next(s, step))
  {
    if step.Advance? {
      var c := step.caller;
      if s.callers[c].IsStart() { StartCancelsNothing(s, c); } else { OtherStopCancelsNothing(s, c); }
    }
  }

  lemma StartCancelsNothing(s: State, c: Caller)
    requires Enabled(s, Advance(c)) && s.callers[c].IsStart()
    ensures CancelsNothing(s, Next(s, Advance(c)))
  {
    StartFrame(s, c);
    GoesToFrame(s, s.callers[c]);
  }

  lemma OtherStopCancelsNothing(s: State, c: Caller)
    requires Enabled(s, Advance(c)) && !s.callers[c].IsStart()
    requires !(s.callers[c].StopTakeToken? && s.token.Some?) && !s.callers[c].StopMarkCancelled? && !s.callers[c].StopCancel?
    ensures CancelsNothing(s, Next(s, Advance(c)))
  {
    StopFrame(s, c);
  }

  lemma StepKeepsCancel(s: State, step: Step)
    requires CancelInv(s) && Enabled(s, step)
    ensures CancelInv(Next(s, step))
  {
    if step.Advance? && s.callers[step.caller].StopTakeToken? && s.token.Some? {
      TakeKeepsCancel(s, step.caller);
    } else if step.Advance? && s.callers[step.caller].StopMarkCancelled? {
      MarkKeepsCancel(s, step.caller);
    } else if step.Advance? && s.callers[step.caller].StopCancel? {
      CancelKeepsCancel(s, step.caller);
    } else {
      OtherStepCancelsNothing(s, step);
      NothingKeepsCancel(s, Next(s, step));
    }
  }

  lemma {:induction false} RunKeepsCancel(d: Discipline, s: State, run: seq<Step>)
    requires CancelInv(s) && Legal(d, s, run)
    ensures CancelInv(Exec(d, s, run))
    decreases |run|
  {
    if run != [] {
      StepKeepsCancel(s, run[0]);
      RunKeepsCancel(d, Next(s, run[0]), run[1..]);
    }
  }

  /** In any run: once nobody is on the way from taking a token to cancelling it, exactly the taken ones are cancelled. */
  lemma TakenIsCancelled(d: Discipline, run: seq<Step>, e: Epoch)
    requires Legal(d, Init, run) && !Cancelling(Exec(d, Init, run), e)
    ensures e in Exec(d, Init, run).cancelled <==> Exec(d, Init, run).tokenTakes[e] > 0
  {
    RunKeepsCancel(d, Init, run);
  }

  // ---- The abort ----

  /** No stop has timed out, and nothing is to be aborted. */
  ghost predicate NoTimeout(s: State) {
    s.aborting == {} && forall c :: c in s.callers && Decided(s.callers[c]) ==> s.callers[c].reason != Timeout
  }

  lemma AdvanceKeepsNoTimeout(s: State, c: Caller)
    requires NoTimeout(s) && Enabled(s, Advance(c))
    ensures NoTimeout(Next(s, Advance(c)))
  {
    if s.callers[c].IsStart() {
      StartFrame(s, c);
      GoesToFrame(s, s.callers[c]);
    } else {
      StopFrame(s, c);
    }
  }

  lemma StepKeepsNoTimeout(s: State, step: Step)
    requires NoTimeout(s) && Enabled(s, step) && !step.TimeOut?
    ensures NoTimeout(Next(s, step))
  {
    if step.Advance? { AdvanceKeepsNoTimeout(s, step.caller); }
  }

  lemma {:induction false} RunKeepsNoTimeout(d: Discipline, s: State, run: seq<Step>)
    requires NoTimeout(s) && Legal(d, s, run) && forall i :: 0 <= i < |run| ==> !run[i].TimeOut?
    ensures NoTimeout(Exec(d, s, run))
    decreases |run|
  {
    if run != [] {
      StepKeepsNoTimeout(s, run[0]);
      RunKeepsNoTimeout(d, Next(s, run[0]), run[1..]);
    }
  }

  /** In any run: a task is aborted only if some stop has timed out. */
  lemma AbortNeedsTimeout(d: Discipline, run: seq<Step>)
    requires Legal(d, Init, run) && Exec(d, Init, run).aborting != {}
    ensures exists i :: 0 <= i < |run| && run[i].TimeOut?
  {
    if forall i :: 0 <= i < |run| ==> !run[i].TimeOut? { RunKeepsNoTimeout(d, Init, run); }
  }

  /** From the taken handle of a running body to the return: the stop aborts the task, which dies, and joins it. */
  lemma AbortRuns(d: Discipline, s: State, c: Caller, e: Epoch) returns (run: seq<Step>)
    requires d.Plain() && c in s.callers && s.callers[c] == StopAbort(e, Timeout) && e in s.tasks && s.tasks[e].pc == Body
    ensures Legal(d, s, run)
    ensures var t := Exec(d, s, run);
            && t.callers == s.callers[c := StopReturned(Timeout)] && t.status == Stopped
            && t.tasks == s.tasks[e := s.tasks[e].(pc := Dead)]
  {
    var s1 := Next(s, Advance(c));
    assert s1 == Go(s, c, StopJoin(e, Timeout)).(aborting := s.aborting + {e});
    var s2 := Next(s1, AbortTakesEffect(e));
    run := StopJoinsAndReturns(d, s2, c);
    assert s2.callers[c := StopReturned(Timeout)] == s.callers[c := StopReturned(Timeout)];
    LegalCons(d, s1, AbortTakesEffect(e), run);
    run := [AbortTakesEffect(e)] + run;
    run := AdvanceThen(d, s, c, run);
  }

  /** A waiting stop that finds the handle of a body that never returns can time out, abort it and answer Timeout. */
  lemma TimeoutAborts(d: Discipline, s: State, c: Caller, e: Epoch) returns (run: seq<Step>)
    requires d.Plain() && c in s.callers && s.callers[c] == StopWait && s.handle == Some(e)
    requires e in s.tasks && s.tasks[e].pc == Body
    ensures Legal(d, s, run) && run != [] && run[0] == TimeOut(c)
    ensures var t := Exec(d, s, run);
            && t.callers == s.callers[c := StopReturned(Timeout)] && t.status == Stopped
            && t.tasks == s.tasks[e := s.tasks[e].(pc := Dead)]
  {
    var a := StopTakesHandle(d, s, c);
    var s1 := Exec(d, s, a);
    var b := AbortRuns(d, s1, c, e);
    assert s1.callers[c := StopReturned(Timeout)] == s.callers[c := StopReturned(Timeout)];
    LegalConcat(d, s, a, b);
    run := a + b;
  }

  lemma AnswerRuns(d: Discipline, s: State, c: Caller) returns (run: seq<Step>)
    requires d.Plain() && c in s.callers && s.callers[c] == StopReadCancelled
    requires s.handle.Some? && s.handle.value in s.tasks && s.tasks[s.handle.value].Over()
    ensures Legal(d, s, run)
    ensures var t := Exec(d, s, run);
            && t.callers == s.callers[c := StopReturned(if s.wasCancelled then Cancelled else Finished)]
            && t.status == Stopped && t.tasks == s.tasks
  {
    var answer := if s.wasCancelled then Cancelled else Finished;
    var s1 := Next(s, Advance(c));
    assert s1 == Go(s, c, StopTakeHandle(answer));
    var s2 := Next(s1, Advance(c));
    assert s2.callers == s1.callers[c := StopAbort(s.handle.value, answer)] && s2.tasks == s.tasks;
    run := StopJoinsAndReturns(d, s2, c);
    assert s2.callers[c := StopReturned(answer)] == s.callers[c := StopReturned(answer)];
    run := AdvanceThen(d, s1, c, run);
    run := AdvanceThen(d, s, c, run);
  }

  /** A waiting stop whose task has finished and is over can return at once, with the answer of the flag. */
  lemma FinishedStopReturns(d: Discipline, s: State, c: Caller) returns (run: seq<Step>)
    requires d.Plain() && c in s.callers && s.callers[c] == StopWait && s.finished
    requires s.handle.Some? && s.handle.value in s.tasks && s.tasks[s.handle.value].Over()
    ensures Legal(d, s, run)
    ensures var t := Exec(d, s, run);
            && t.callers == s.callers[c := StopReturned(if s.wasCancelled then Cancelled else Finished)]
            && t.status == Stopped && t.tasks == s.tasks
  {
    var s1 := Next(s, SeeFinished(c));
    run := AnswerRuns(d, s1, c);
    var answer := StopReturned(if s.wasCancelled then Cancelled else Finished);
    assert s1.callers[c := answer] == s.callers[c := answer];
    LegalCons(d, s, SeeFinished(c), run);
    run := [SeeFinished(c)] + run;
  }

  /** A body that panics ends the task without a write; a waiting stop that times out still joins it and returns. */
  lemma PanicIsJoined(d: Discipline, s: State, c: Caller, e: Epoch) returns (run: seq<Step>)
    requires d.Plain() && c in s.callers && s.callers[c] == StopWait && s.handle == Some(e)
    requires e in s.tasks && s.tasks[e].pc == Body
    ensures Legal(d, s, run) && run != [] && run[0] == BodyPanics(e)
    ensures var t := Exec(d, s, run);
            && t.callers == s.callers[c := StopReturned(Timeout)] && t.status == Stopped
            && t.tasks == s.tasks[e := s.tasks[e].(pc := Dead)]
  {
    var s1 := Next(s, BodyPanics(e));
    run := StopLeavesWait(d, s1, c);
    LegalCons(d, s, BodyPanics(e), run);
    run := [BodyPanics(e)] + run;
  }

  /** A ready watcher is done once it has fired or its signal was dropped; in the latter case the status stays. */
  lemma WatcherEnds(s: State, e: Epoch)
    requires e in s.watchers && e in s.tasks
    ensures s.tasks[e].signal == Sent ==> Enabled(s, WatcherFires(e)) && e !in Next(s, WatcherFires(e)).watchers
    ensures s.tasks[e].signal == Dropped ==>
              && Enabled(s, WatcherGivesUp(e)) && e !in Next(s, WatcherGivesUp(e)).watchers
              && Next(s, WatcherGivesUp(e)).status == s.status
    ensures s.tasks[e].signal == Held ==> Enabled(s, DropSignal(e)) && Next(s, DropSignal(e)).tasks[e].signal == Dropped
  {
  }
}
