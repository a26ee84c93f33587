/** Why the premises are what they are: what can go wrong from every state in which one of them is given up. */
module LifecycleLimits {
  import opened Seqs
  import opened Lifecycle
  import opened LifecyclePhased
  import opened LifecycleRuns

  predicate Live(s: State, e: Epoch) { e in s.tasks && !s.tasks[e].Over() }

  // ---- A stop that overlaps a start ----

  /** A start has won its epoch and not returned, and its task is not over, if it exists already. */
  predicate StartUnderWay(s: State, c: Caller) {
    && c in s.callers && PastCas(s.callers[c])
    && (s.callers[c].StartStoreHandle? ==> Live(s, s.callers[c].epoch))
  }

  /** The handle slot is empty or holds the handle of a task that is over. */
  predicate NothingToJoin(s: State) { s.handle.Some? ==> s.handle.value in s.tasks && s.tasks[s.handle.value].Over() }

  /** From every such state, a stop called now can return, and the start after it, with the task still alive. */
  lemma StopDuringStartIsLost(s: State, c: Caller, stop: Caller) returns (run: seq<Step>, r: StopReason)
    requires StartUnderWay(s, c) && NothingToJoin(s) && stop !in s.callers
    ensures Legal(Free, s, run)
    ensures var s' := Exec(Free, s, run);
            && s'.callers == s.callers[stop := StopReturned(r)][c := StartReturned(true)]
            && s'.epochs == s.epochs && Live(s', s.callers[c].epoch)
  {
    run, r := StopReturns(Free, s, stop);
    var s1 := Exec(Free, s, run);
    assert s1.callers[c] == s.callers[c];
    var rest := StartFinishes(Free, s1, c);
    LegalConcat(Free, s, run, rest);
    run := run + rest;
  }

  lemma HandleIsStale(s: State, starter: Option<Caller>, c: Caller)
    requires Inv(s, starter) && StartUnderWay(s, c)
    ensures NothingToJoin(s) && s.epochs > 0 && s.callers[c].epoch == s.epochs - 1
    ensures forall d :: d in s.callers && d != c ==> s.callers[d].Returned()
  {
    assert starter == Some(c);
  }

  /** All calls have returned, the stop among them, no epoch has begun since `s`, and the task of its epoch lives. */
  ghost predicate StopLost(s: State, s': State, stop: Caller) {
    && s'.epochs == s.epochs > 0 && AllReturned(s') && stop in s'.callers && s'.callers[stop].StopReturned?
    && Live(s', s.epochs - 1)
  }

  lemma StopIsLost(s: State, starter: Option<Caller>, c: Caller, stop: Caller) returns (run: seq<Step>)
    requires Inv(s, starter) && StartUnderWay(s, c) && stop !in s.callers
    ensures Legal(Free, s, run) && StopLost(s, Exec(Free, s, run), stop)
  {
    HandleIsStale(s, starter, c);
    var r;
    run, r := StopDuringStartIsLost(s, c, stop);
  }

  /**
   * In the states that phased runs reach, the premise on stops cannot be relaxed: a stop called while a start is under
   * way can be lost, although it belongs to the same epoch and every call has returned.
   */
  lemma OverlappingStopIsLost(before: seq<Step>, c: Caller, stop: Caller) returns (run: seq<Step>)
    requires Legal(Phased, Init, before)
    requires StartUnderWay(Exec(Phased, Init, before), c) && stop !in Exec(Phased, Init, before).callers
    ensures Legal(Free, Exec(Phased, Init, before), run)
    ensures StopLost(Exec(Phased, Init, before), Exec(Free, Exec(Phased, Init, before), run), stop)
  {
    var starter := RunKeepsInv(Init, None, before);
    run := StopIsLost(Exec(Phased, Init, before), starter, c, stop);
  }

  // ---- A start that overlaps stops ----

  /** Two fresh stops, or one, can leave the status Stopped while the task they should have stopped lives on. */
  lemma StopsLeaveTaskAlive(s: State, a: Caller, b: Caller) returns (run: seq<Step>)
    requires NoStartInFlight(s) && a != b && a !in s.callers && b !in s.callers
    ensures Legal(Phased, s, run)
    ensures var s' := Exec(Phased, s, run);
            && s'.status == Stopped && s'.tasks == s.tasks && s'.epochs == s.epochs
            && (forall c :: c in s'.callers ==> c in s.callers || c == a || c == b) && NoStartInFlight(s')
  {
    if s.status == Stopped {
      run := [];
    } else {
      run := HandleGoes(s, a);
      var s1 := Exec(Phased, s, run);
      var begin := StopBegins(Phased, s1, b);
      var s2 := Exec(Phased, s1, begin);
      var end := StopFindsNoHandle(Phased, s2, b);
      LegalConcat(Phased, s1, begin, end);
      LegalConcat(Phased, s, run, begin + end);
      run := run + (begin + end);
    }
  }

  lemma HandleGoes(s: State, a: Caller) returns (run: seq<Step>)
    requires NoStartInFlight(s) && a !in s.callers && s.status != Stopped
    ensures Legal(Phased, s, run)
    ensures var s' := Exec(Phased, s, run);
            && s'.status != Stopped && s'.handle.None? && s'.tasks == s.tasks && s'.epochs == s.epochs
            && (forall c :: c in s'.callers ==> c in s.callers || c == a) && NoStartInFlight(s')
  {
    run := [];
    if s.handle.Some? {
      var begin := StopBegins(Phased, s, a);
      var end := StopTakesHandle(Phased, Exec(Phased, s, begin), a);
      LegalConcat(Phased, s, begin, end);
      run := begin + end;
    }
  }

  /**
   * The premise on starts cannot be relaxed either: from every state with a live task and no start in flight, phased
   * stop calls lead to a state where one start, called although a stop has not returned, makes a second live task.
   */
  lemma OverlappingStopsAllowTwoTasks(s: State, e: Epoch, a: Caller, b: Caller, c: Caller, ready: bool)
    returns (stops: seq<Step>, start: seq<Step>)
    requires Live(s, e) && e < s.epochs && NoStartInFlight(s)
    requires a != b && a != c && b != c && a !in s.callers && b !in s.callers && c !in s.callers
    ensures Legal(Phased, s, stops) && Legal(Free, Exec(Phased, s, stops), start)
    ensures start != [] && start[0] == CallStart(c, ready)
    ensures var s' := Exec(Free, Exec(Phased, s, stops), start);
            c in s'.callers && s'.callers[c] == StartReturned(true) && Live(s', e) && Live(s', s.epochs)
  {
    stops := StopsLeaveTaskAlive(s, a, b);
    start := StartSucceeds(Free, Exec(Phased, s, stops), c, ready);
  }

  // ---- Ready watchers of earlier epochs ----

  /** The watcher sees its signal, which is sent first if it was still held, and fires. */
  lemma WatcherComesThrough(d: Discipline, s: State, w: Epoch) returns (run: seq<Step>)
    requires d.Plain() && w in s.watchers && w in s.tasks && s.tasks[w].signal != Dropped && s.status == Starting
    ensures Legal(d, s, run)
    ensures var s' := Exec(d, s, run);
            s'.status == Running && s'.callers == s.callers && s'.epochs == s.epochs && s'.tasks.Keys == s.tasks.Keys
  {
    if s.tasks[w].signal == Sent {
      LegalCons(d, s, WatcherFires(w), []);
      run := [WatcherFires(w)] + [];
    } else {
      var s1 := Next(s, Notify(w));
      LegalCons(d, s1, WatcherFires(w), []);
      run := [WatcherFires(w)] + [];
      LegalCons(d, s, Notify(w), run);
      run := [Notify(w)] + run;
    }
  }

  /**
   * The condition on watchers is exact: whenever a ready-mode start can win while an earlier watcher can still fire,
   * the run can go on so that the start returns with status Running although its task has notified nobody.
   */
  lemma PendingWatcherMarksNextEpochRunning(d: Discipline, s: State, c: Caller) returns (run: seq<Step>)
    requires d.Plain() && c in s.callers && s.callers[c] == StartCas(true) && s.status == Stopped && WatcherPending(s)
    ensures Legal(d, s, run)
    ensures var s' := Exec(d, s, run);
            && s'.status == Running && s'.callers == s.callers[c := StartReturned(true)]
            && s'.epochs == s.epochs + 1 && s.epochs in s'.tasks && s'.tasks[s.epochs] == Task(Body, true, Held)
  {
    var w :| w in s.watchers && w in s.tasks && s.tasks[w].signal != Dropped;
    var s1 := Next(s, Advance(c));
    var a := WatcherComesThrough(d, s1, w);
    var s2 := Exec(d, s1, a);
    var b := StartFinishes(d, s2, c);
    assert s2.callers[c := StartReturned(true)] == s.callers[c := StartReturned(true)];
    LegalConcat(d, s1, a, b);
    run := AdvanceThen(d, s, c, a + b);
  }

  /** A ready-mode epoch whose body returns while somebody else keeps the ready signal, and the next start call. */
  lemma SignalOutlivesBody() returns (run: seq<Step>)
    ensures Legal(Serial, Init, run)
    ensures var s := Exec(Serial, Init, run);
            && s.callers == map[0 := StartReturned(true), 1 := StartCas(true)] && s.status == Stopped && s.epochs == 1
            && WatcherPending(s)
  {
    run := StartSucceeds(Serial, Init, 0, true);
    var s1 := Exec(Serial, Init, run);
    assert s1.callers == map[0 := StartReturned(true)] && 0 in s1.watchers;
    var rest := TaskFinishes(Serial, s1, 0);
    var s2 := Exec(Serial, s1, rest);
    assert s2.callers == map[0 := StartReturned(true)];
    assert 0 in s2.watchers && 0 in s2.tasks && s2.tasks[0].signal == Held;
    CallAddsStart(s2, 1);
    LegalConcat(Serial, s1, rest, [CallStart(1, true)]);
    LegalConcat(Serial, Init, run, rest + [CallStart(1, true)]);
    run := run + (rest + [CallStart(1, true)]);
  }

  lemma CallAddsStart(s: State, c: Caller)
    requires c !in s.callers && AllReturned(s)
    ensures Legal(Serial, s, [CallStart(c, true)])
    ensures Exec(Serial, s, [CallStart(c, true)]) == Go(s, c, StartCas(true))
  {
    assert Legal(Serial, Go(s, c, StartCas(true)), []);
    LegalCons(Serial, s, CallStart(c, true), []);
    assert [CallStart(c, true)] + [] == [CallStart(c, true)];
  }

  /** Such a state is reachable with serial calls alone, so the ready guarantee does not carry over to restarts. */
  lemma RestartRunningWithoutNotify() returns (run: seq<Step>)
    ensures Legal(Serial, Init, run)
    ensures var s := Exec(Serial, Init, run);
            && s.status == Running && s.callers == map[0 := StartReturned(true), 1 := StartReturned(true)]
            && s.epochs == 2 && 1 in s.tasks && s.tasks[1] == Task(Body, true, Held)
  {
    run := SignalOutlivesBody();
    var rest := PendingWatcherMarksNextEpochRunning(Serial, Exec(Serial, Init, run), 1);
    LegalConcat(Serial, Init, run, rest);
    run := run + rest;
  }
}
