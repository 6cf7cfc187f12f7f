/** Concrete runs of the pipeline stage in which a waiter is released before its work has been done. */
module PipelineRuns {
  import opened Options
  import opened Pipeline

  // The run extended by one event.
  lemma Also(events: seq<Event>, e: Event) returns (extended: seq<Event>)
    requires IsRun(events) && Enabled(After(events), e)
    ensures IsRun(extended) && After(extended) == Next(After(events), e)
  {
    Take(events, e);
    extended := events + [e];
  }

  // Caller t locks activeMutex, finds the stage active and swaps done.
  lemma Swaps(events: seq<Event>, t: nat) returns (extended: seq<Event>)
    requires IsRun(events) && t in After(events).callers && After(events).callers[t].pc.AtQueue?
    requires After(events).activeMutex == Nobody && After(events).active && After(events).done
    requires !After(events).log.panicked
    ensures IsRun(extended)
    ensures var s := After(events);
            After(extended) == s.(done := false, activeMutex := Caller(t), callers := Moved(s.callers, t, Swapped),
                                  log := s.log.(asked := s.log.asked[t := s.log.starts]))
  {
    extended := Also(events, Step(t));
    extended := Also(extended, Step(t));
    extended := Also(extended, Step(t));
  }

  // Caller 0 enters, and swaps done.
  lemma FirstSwap() returns (events: seq<Event>)
    ensures IsRun(events)
    ensures After(events) == INITIAL.(
              done := false, activeMutex := Caller(0), callers := map[0 := Thread(Queue, Swapped)],
              log := INITIAL.log.(asked := map[0 := 0]))
  {
    events := Also([], Call(0, Queue));
    events := Swaps(events, 0);
  }

  // It sends and leaves.
  lemma FirstRequest() returns (events: seq<Event>)
    ensures IsRun(events)
    ensures After(events) == INITIAL.(
              done := false, tokens := 1, callers := map[0 := Thread(Queue, Returned)],
              log := INITIAL.log.(asked := map[0 := 0], effect := map[0 := 0]))
  {
    events := FirstSwap();
    events := Also(events, Step(0));
    events := Also(events, Step(0));
  }

  // Run receives the token and calls work.
  lemma FirstWorkBegins() returns (events: seq<Event>)
    ensures IsRun(events)
    ensures After(events) == INITIAL.(
              callers := map[0 := Thread(Queue, Returned)], run := Working,
              log := INITIAL.log.(starts := 1, asked := map[0 := 0], effect := map[0 := 0]))
  {
    events := FirstRequest();
    events := Also(events, RunStep(true));
    events := Also(events, RunStep(true));
    events := Also(events, RunStep(true));
  }

  /** While work runs for the first time, with these callers, waiters and requests. */
  function Busy(caller: Thread, blockings: seq<nat>, asked: map<nat, nat>): State {
    INITIAL.(callers := map[0 := Thread(Queue, Returned), 1 := caller], run := Working, blockings := blockings,
             log := INITIAL.log.(starts := 1, asked := asked, effect := map[0 := 0]))
  }

  // While work runs, caller 1 enters and locks blockingsMutex.
  lemma SecondCallerEnters() returns (events: seq<Event>)
    ensures IsRun(events)
    ensures After(events)
            == Busy(Thread(QueueBlocking, Registering), [], map[0 := 0]).(blockingsMutex := Caller(1))
  {
    events := FirstWorkBegins();
    events := Also(events, Call(1, QueueBlocking));
    events := Also(events, Step(1));
  }

  // It registers its waiter.
  lemma SecondCallerRegisters() returns (events: seq<Event>)
    ensures IsRun(events)
    ensures After(events) == Busy(Thread(QueueBlocking, AtQueue), [1], map[0 := 0])
  {
    events := SecondCallerEnters();
    events := Also(events, Step(1));
    events := Also(events, Step(1));
  }

  // It swaps done, but does not send yet.
  lemma SecondCallerSwaps() returns (events: seq<Event>)
    ensures IsRun(events)
    ensures After(events) == Busy(Thread(QueueBlocking, Swapped), [1], map[0 := 0, 1 := 1]).(
              done := false, activeMutex := Caller(1))
  {
    events := SecondCallerRegisters();
    events := Swaps(events, 1);
  }

  // Work returns, and Run locks blockingsMutex.
  lemma WorkReturns(events: seq<Event>) returns (extended: seq<Event>)
    requires IsRun(events) && After(events).run.Working? && After(events).blockingsMutex == Nobody
    requires !After(events).log.panicked
    ensures IsRun(extended)
    ensures var s := After(events);
            After(extended) == s.(run := Releasing, isFirstWork := false, blockingsMutex := Runner,
                                  log := s.log.(finishes := s.log.finishes + 1, succeeded := true))
  {
    extended := Also(events, RunStep(true));
    extended := Also(extended, RunStep(true));
    extended := Also(extended, RunStep(true));
  }

  lemma LooksAtOne(s: State, w: nat)
    requires s.blockings == [w] && s.tokens == 0
    ensures TestLength(s) == s.(run := ClosingWaiters(0), log := s.log.(looked := map[w := LookAt(s, w)]))
  {
  }

  // It finds launch empty.
  lemma RunFindsNothing(events: seq<Event>) returns (extended: seq<Event>)
    requires IsRun(events) && After(events).run.Working? && After(events).blockings == [1]
    requires After(events).tokens == 0 && After(events).blockingsMutex == Nobody && !After(events).log.panicked
    ensures IsRun(extended)
    ensures var s := After(events);
            After(extended) == s.(
              run := ClosingWaiters(0), isFirstWork := false, blockingsMutex := Runner,
              log := s.log.(finishes := s.log.finishes + 1, succeeded := true, looked := map[1 := LookAt(s, 1)]))
  {
    extended := WorkReturns(events);
    LooksAtOne(After(extended), 1);
    extended := Also(extended, RunStep(true));
  }

  // The caller had swapped before, and sends now.
  lemma SwappedSends() returns (events: seq<Event>)
    ensures IsRun(events)
    ensures After(events) == Closing(Leaving, NotSent(true), map[])
  {
    events := SecondCallerSwaps();
    events := RunFindsNothing(events);
    events := Also(events, Step(1));
  }

  /** Run has found launch empty and closed the given waiters, and caller 1 has sent. */
  function Closing(pc: CallerPc, look: Look, released: map<nat, Release>): State {
    var sent := Busy(Thread(QueueBlocking, pc), [1], map[0 := 0, 1 := 1]);
    sent.(done := false, tokens := 1, activeMutex := if InsideActive(pc) then Caller(1) else Nobody,
          run := ClosingWaiters(|released|), isFirstWork := false, blockingsMutex := Runner,
          log := sent.log.(finishes := 1, succeeded := true, looked := map[1 := look], effect := map[0 := 0, 1 := 1],
                           released := released))
  }

  // The caller had only registered before, and swaps and sends now.
  lemma RegisteredSends() returns (events: seq<Event>)
    ensures IsRun(events)
    ensures After(events) == Closing(Leaving, NotAsked, map[])
  {
    events := SecondCallerRegisters();
    events := RunFindsNothing(events);
    events := Swaps(events, 1);
    events := Also(events, Step(1));
  }

  /**
   * "Released only after a call of work that began after the request" fails even for a request that has been sent:
   * between the length test and the close, a caller that had swapped before the test sends.
   */
  lemma SentRequestIsReleasedEarly()
    ensures exists events :: IsRun(events) && ClosesEarly(After(events), 1) && After(events).active
                             && 1 in After(events).log.looked && After(events).log.looked[1] == NotSent(true)
  {
    var events := SwappedSends();
    assert ClosesEarly(After(events), 1);
  }

  /** It also fails for a caller that was only registered at the length test: it swaps and sends before the close. */
  lemma LateRequestIsReleasedEarly()
    ensures exists events :: IsRun(events) && ClosesEarly(After(events), 1) && After(events).active
                             && 1 in After(events).log.looked && After(events).log.looked[1] == NotAsked
  {
    var events := RegisteredSends();
    assert ClosesEarly(After(events), 1);
  }

  // Caller 1 enters and locks blockingsMutex before Run has received the first token.
  lemma EntersFirst() returns (events: seq<Event>)
    ensures IsRun(events)
    ensures After(events) == INITIAL.(
              done := false, tokens := 1, blockingsMutex := Caller(1),
              callers := map[0 := Thread(Queue, Returned), 1 := Thread(QueueBlocking, Registering)],
              log := INITIAL.log.(asked := map[0 := 0], effect := map[0 := 0]))
  {
    events := FirstRequest();
    events := Also(events, Call(1, QueueBlocking));
    events := Also(events, Step(1));
  }

  // It registers its waiter.
  lemma RegistersFirst() returns (events: seq<Event>)
    ensures IsRun(events)
    ensures After(events) == INITIAL.(
              done := false, tokens := 1, blockings := [1],
              callers := map[0 := Thread(Queue, Returned), 1 := Thread(QueueBlocking, AtQueue)],
              log := INITIAL.log.(asked := map[0 := 0], effect := map[0 := 0]))
  {
    events := EntersFirst();
    events := Also(events, Step(1));
    events := Also(events, Step(1));
  }

  // Run sets done, and caller 1 swaps it back before Run calls work.
  lemma SwapsBeforeWork() returns (events: seq<Event>)
    ensures IsRun(events)
    ensures After(events) == Busy(Thread(QueueBlocking, Swapped), [1], map[0 := 0, 1 := 0]).(
              done := false, activeMutex := Caller(1))
  {
    events := RegistersFirst();
    events := Also(events, RunStep(true));
    events := Also(events, RunStep(true));
    events := Swaps(events, 1);
    events := Also(events, RunStep(true));
  }

  /** Nor does it help to have swapped before work was called, if the caller sends only after the length test. */
  lemma SlowSenderIsReleasedEarly()
    ensures exists events :: IsRun(events) && ClosesEarly(After(events), 1) && After(events).active
                             && 1 in After(events).log.looked && After(events).log.looked[1] == NotSent(false)
  {
    var events := SwapsBeforeWork();
    events := RunFindsNothing(events);
    events := Also(events, Step(1));
    assert ClosesEarly(After(events), 1);
  }

  // Run closes the waiter.
  lemma RunReleasesEarly() returns (events: seq<Event>)
    ensures IsRun(events)
    ensures After(events) == Closing(Leaving, NotSent(true), map[1 := Release(1, NotSent(true))])
  {
    events := SwappedSends();
    events := Also(events, RunStep(true));
  }

  /** In this run QueueWorkBlocking of caller 1 returns although no call of work has begun since its request. */
  lemma WaiterCanReturnEarly()
    ensures exists events :: IsRun(events) && ReturnedEarly(After(events), 1)
  {
    var events := RunReleasesEarly();
    events := Also(events, Step(1));
    events := Also(events, Step(1));
    assert ReturnedEarly(After(events), 1);
  }

  /** QueueWorkBlocking has returned on an active stage, and no call of work has begun since its request was sent. */
  predicate ReturnedEarly(s: State, t: nat) {
    && t in s.callers && s.callers[t] == Thread(QueueBlocking, Returned)
    && t in s.log.effect && s.log.effect[t] == s.log.starts
    && s.active && !s.log.panicked
  }
}
