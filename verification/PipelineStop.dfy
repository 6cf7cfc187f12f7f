/** What becomes of Run once launch has been closed by Stop or ForceStop, and what the callers find when they return. */
module PipelineStop {
  import opened Options
  import opened Pipeline

  /** How many steps of its own Run takes until it exits, if launch is empty now. */
  function AloneRank(s: State): nat {
    match s.run
    case Exited => 0
    case Idle => 1
    case Released => 2
    case ClosingWaiters(k) => if k < |s.blockings| then 3 + |s.blockings| - k else 3
    case Releasing => 4 + Waiters(s)
    case AtRelease => 5 + Waiters(s)
    case Worked => 6 + Waiters(s)
    case Working => 7 + Waiters(s)
    case Marked => 8 + Waiters(s)
    case Retrying => 8 + Waiters(s)
    case Received => 9 + Waiters(s)
  }

  /** The same if there is still a token in launch. */
  function TokenRank(s: State): nat {
    match s.run
    case Exited => 0
    case Idle => 10 + Waiters(s)
    case Released => 11 + Waiters(s)
    case ClosingWaiters(k) => if k < |s.blockings| then 12 + |s.blockings| - k else 12
    case Releasing => 12 + Waiters(s)
    case AtRelease => 13 + Waiters(s)
    case Worked => 14 + Waiters(s)
    case Working => 15 + Waiters(s)
    case Marked => 16 + Waiters(s)
    case Retrying => 16 + Waiters(s)
    case Received => 17 + Waiters(s)
  }

  /** A bound on the number of steps that Run takes until it exits. */
  function ExitRank(s: State): (n: nat)
    ensures n <= |s.blockings| + 18
    ensures n == 0 <==> s.run.Exited?
  {
    if s.tokens > 0 then TokenRank(s) else AloneRank(s)
  }

  /** Work succeeds, or it fails after the context has been cancelled; it is not called again then. */
  predicate GivesIn(s: State, ok: bool) {
    s.run.Working? ==> ok || s.cancelled
  }

  lemma WorkIsNotRetried(s: State, ok: bool)
    requires s.run.Working? && GivesIn(s, ok) && !s.log.panicked
    ensures RunnerStep(s, ok).run.Worked?
  {
  }

  lemma WorkIsRetried(s: State, ok: bool)
    requires s.run.Working? && !GivesIn(s, ok) && !s.log.panicked
    ensures RunnerStep(s, ok).run.Retrying?
  {
  }

  // ----- steps of Run

  lemma WorkingLeaves(s: State, ok: bool)
    requires Inv(s) && s.closed && Enabled(s, RunStep(ok)) && GivesIn(s, ok) && !HoldsBlockings(s.run)
    ensures ExitRank(RunnerStep(s, ok)) < ExitRank(s)
  {
  }

  lemma ReleasingLeaves(s: State, ok: bool)
    requires Inv(s) && s.closed && Enabled(s, RunStep(ok)) && HoldsBlockings(s.run)
    ensures ExitRank(RunnerStep(s, ok)) < ExitRank(s)
  {
    if s.run.ClosingWaiters? && s.run.next < |s.blockings| { assert ThreadOk(s, s.blockings[s.run.next]); }
  }

  /** Every step of Run brings its exit closer. */
  lemma RunLeaves(s: State, ok: bool)
    requires Inv(s) && s.closed && Enabled(s, RunStep(ok)) && GivesIn(s, ok)
    ensures ExitRank(RunnerStep(s, ok)) < ExitRank(s)
  {
    if HoldsBlockings(s.run) {
      ReleasingLeaves(s, ok);
    } else {
      WorkingLeaves(s, ok);
    }
  }

  /** Once launch is closed Run can take a step until it has exited, unless a caller registers its waiter right then. */
  lemma RunCanStep(s: State, ok: bool)
    requires Inv(s) && s.closed && !s.log.panicked && !s.run.Exited?
    ensures || Enabled(s, RunStep(ok))
            || (s.run.AtRelease? && (Holds(s, Registering) || Holds(s, Registered))
                && Enabled(s, Step(s.blockingsMutex.id)))
  {
    if s.run.AtRelease? && s.blockingsMutex.Caller? { assert ThreadOk(s, s.blockingsMutex.id); }
  }

  // ----- steps of callers

  /** What matters for the exit of Run is as it was, but for a waiter that is being registered. */
  predicate Undelayed(s: State, s': State, more: nat) {
    && s'.closed && s'.run == s.run && s'.tokens == s.tokens && Waiters(s') <= Waiters(s) + more
    && (s.run.ClosingWaiters? ==> s'.blockings == s.blockings)
  }

  lemma UndelayedRank(s: State, s': State, more: nat)
    requires Undelayed(s, s', more)
    ensures ExitRank(s') <= ExitRank(s) + more
  {
  }

  lemma RegisterUndelayed(s: State, t: nat)
    requires Global(s) && t in s.callers && PlaceOk(s, t) && s.closed && Registers(s.callers[t].pc)
    requires Enabled(s, Step(t))
    ensures Undelayed(s, RegisterStep(s, t), OneIf(s.callers[t].pc.AtRegister?))
  {
  }

  lemma QueueUndelayed(s: State, t: nat)
    requires Global(s) && t in s.callers && PlaceOk(s, t) && s.closed && Queues(s.callers[t].pc)
    ensures Undelayed(s, QueueStep(s, t), 0)
  {
  }

  lemma CloseUndelayed(s: State, t: nat)
    requires Global(s) && t in s.callers && PlaceOk(s, t) && s.closed && Closes(s.callers[t].pc)
    ensures Undelayed(s, CloseStep(s, t), 0)
  {
  }

  /** No step of a caller keeps Run from exiting, except that each new waiter has to be looked at. */
  lemma OthersDelayLittle(s: State, e: Event)
    requires Inv(s) && s.closed && Enabled(s, e) && !e.RunStep?
    ensures Next(s, e).closed && ExitRank(Next(s, e)) <= ExitRank(s) + OneIf(Enlists(s, e))
  {
    match e
    case Call(t, op) =>
      assert ThreadOk(s, t);
      UndelayedRank(s, Enter(s, t, op), 0);
    case Step(t) =>
      assert ThreadOk(s, t);
      if Registers(s.callers[t].pc) {
        RegisterUndelayed(s, t);
      } else if Queues(s.callers[t].pc) {
        QueueUndelayed(s, t);
      } else {
        CloseUndelayed(s, t);
      }
      UndelayedRank(s, CallerStep(s, t), OneIf(Enlists(s, e)));
  }

  // ----- every schedule

  /** From event n of the run on, whenever work returns it has succeeded or the context is cancelled. */
  ghost predicate WorkGivesIn(events: seq<Event>, n: nat)
    requires IsRun(events)
    decreases |events|
  {
    |events| <= n
    || (var before := events[..|events| - 1];
        var e := events[|events| - 1];
        WorkGivesIn(before, n) && (e.RunStep? ==> GivesIn(After(before), e.ok)))
  }

  /** How many steps Run takes from event n of the run on. */
  function RunSteps(events: seq<Event>, n: nat): nat {
    if |events| <= n then 0 else RunSteps(events[..|events| - 1], n) + OneIf(events[|events| - 1].RunStep?)
  }

  /**
   * Whatever the schedule, once launch is closed Run exits before it has taken more than a bounded number of steps,
   * where every waiter registered in the meantime adds one, if work succeeds or the context is cancelled.
   */
  lemma {:induction false} EveryScheduleStopsRun(events: seq<Event>, later: seq<Event>)
    requires IsRun(events) && IsRun(later) && events <= later && After(events).closed && WorkGivesIn(later, |events|)
    ensures After(later).closed
    ensures RunSteps(later, |events|) + ExitRank(After(later)) <= ExitRank(After(events)) + Enlistings(later, |events|)
    decreases |later|
  {
    if later != events {
      var before, e := later[..|later| - 1], later[|later| - 1];
      EveryScheduleStopsRun(events, before);
      RunsKeepInv(before);
      if e.RunStep? {
        RunLeaves(After(before), e.ok);
        RunKeepsClosed(After(before), e.ok);
      } else {
        OthersDelayLittle(After(before), e);
      }
    }
  }

  lemma RunKeepsClosed(s: State, ok: bool)
    requires s.closed && Enabled(s, RunStep(ok))
    ensures RunnerStep(s, ok).closed
  {
    match s.run
    case ClosingWaiters(k) => if k < |s.blockings| { assert CloseWaiter(s, s.blockings[k], k + 1).closed; }
    case _ =>
  }

  // ----- Run can exit

  /** The next step on the way to the exit of Run. */
  function Leaving(s: State): Event {
    if s.run.AtRelease? && s.blockingsMutex.Caller? then Step(s.blockingsMutex.id) else RunStep(true)
  }

  /** A bound on the number of these steps: before each step of Run a caller may have to register its waiter. */
  function LeaveRank(s: State): nat {
    3 * ExitRank(s) + HeldUp(s)
  }

  lemma LeavingLeaves(s: State)
    requires Inv(s) && s.closed && !s.log.panicked && !s.run.Exited?
    ensures Enabled(s, Leaving(s))
    ensures var s' := Next(s, Leaving(s)); s'.closed && !s'.log.panicked && LeaveRank(s') < LeaveRank(s)
  {
    if s.run.AtRelease? && s.blockingsMutex.Caller? {
      HolderLeaves(s);
    } else {
      RunCanStep(s, true);
      RunLeaves(s, true);
      RunKeepsClosed(s, true);
      RunDoesNotPanic(s);
    }
  }

  lemma HolderLeaves(s: State)
    requires Inv(s) && s.closed && !s.log.panicked && s.run.AtRelease? && s.blockingsMutex.Caller?
    ensures Enabled(s, Leaving(s))
    ensures var s' := Next(s, Leaving(s)); s'.closed && !s'.log.panicked && LeaveRank(s') < LeaveRank(s)
  {
    assert ThreadOk(s, s.blockingsMutex.id);
  }

  lemma RunDoesNotPanic(s: State)
    requires Inv(s) && Enabled(s, RunStep(true))
    ensures !RunnerStep(s, true).log.panicked
  {
    if s.run.ClosingWaiters? && s.run.next < |s.blockings| { assert ThreadOk(s, s.blockings[s.run.next]); }
  }

  /** From every reachable, unpanicked state in which launch is closed, Run can exit in a bounded number of steps. */
  lemma {:induction false} RunCanExit(events: seq<Event>) returns (later: seq<Event>)
    requires IsRun(events) && After(events).closed && !After(events).log.panicked
    ensures events <= later && IsRun(later) && After(later).run.Exited?
    ensures |later| <= |events| + LeaveRank(After(events))
    ensures LeaveRank(After(events)) <= 3 * |After(events).blockings| + 56
    decreases LeaveRank(After(events))
  {
    later := events;
    if !After(events).run.Exited? {
      RunsKeepInv(events);
      LeavingLeaves(After(events));
      Take(events, Leaving(After(events)));
      later := RunCanExit(events + [Leaving(After(events))]);
    }
  }

  // ----- what callers find when they return

  /**
   * QueueWorkBlocking returns only once its waiter has been released; Stop and ForceStop leave the stage inactive and
   * launch closed, and ForceStop leaves the context cancelled.
   */
  predicate ReturnOk(s: State, t: nat) {
    t in s.callers ==>
      var op, pc := s.callers[t].op, s.callers[t].pc;
      && (op.QueueBlocking? && pc.Returned? ==> t in s.log.released)
      && (IsCloser(op) && (pc.Closed? || pc.Cancelling? || pc.Returned?) ==> s.closed && !s.active)
      && (op.ForceStop? && pc.Returned? ==> s.cancelled)
      && (pc.Cancelling? ==> op.ForceStop?) && (Queues(pc) || Registers(pc) ==> !IsCloser(op))
  }

  ghost predicate AllReturnOk(s: State) {
    (forall t: nat :: ReturnOk(s, t)) && (s.closed ==> !s.active)
    && (s.cancelled ==> exists t :: t in s.callers && s.callers[t] == Thread(ForceStop, Returned))
  }

  /** What no step takes back. */
  predicate Lasting(s: State, s': State) {
    && (s.closed ==> s'.closed) && (!s.active ==> !s'.active) && (s.cancelled ==> s'.cancelled)
    && s.log.released.Keys <= s'.log.released.Keys
  }

  /** A step of Run leaves callers alone, and neither closes nor cancels anything. */
  predicate RunLasts(s: State, s': State) {
    && Lasting(s, s') && s'.callers == s.callers && s'.cancelled == s.cancelled && s'.closed == s.closed
    && s'.active == s.active && (s'.isFirstWork <==> s.isFirstWork && !s.run.Worked?)
  }

  lemma WorkerLasts(s: State, ok: bool)
    requires Enabled(s, RunStep(ok)) && !HasWorked(s.run)
    ensures RunLasts(s, RunnerStep(s, ok))
  {
  }

  lemma ReleaserLasts(s: State, ok: bool)
    requires Enabled(s, RunStep(ok)) && HasWorked(s.run) && !s.run.ClosingWaiters?
    ensures RunLasts(s, RunnerStep(s, ok))
  {
    if s.run.Releasing? { TestLasts(s); }
  }

  lemma TestLasts(s: State)
    requires s.run.Releasing?
    ensures RunLasts(s, TestLength(s))
  {
    if s.tokens > 0 {
    } else {
    }
  }

  lemma CloserLasts(s: State, ok: bool)
    requires Enabled(s, RunStep(ok)) && s.run.ClosingWaiters?
    ensures RunLasts(s, RunnerStep(s, ok))
  {
    if s.run.next < |s.blockings| { CloseLasts(s, s.blockings[s.run.next], s.run.next + 1); }
  }

  lemma CloseLasts(s: State, w: nat, next: nat)
    requires s.run.ClosingWaiters?
    ensures RunLasts(s, CloseWaiter(s, w, next))
  {
    if w in s.log.released || w !in s.log.looked {
    } else {
    }
  }

  /** A step of caller t moves only this caller, and takes nothing back. */
  predicate CallerLasts(s: State, s': State, t: nat)
    requires t in s.callers
  {
    && Lasting(s, s') && s'.isFirstWork == s.isFirstWork && (s'.closed && !s.closed ==> !s'.active)
    && t in s'.callers && s'.callers == Moved(s.callers, t, s'.callers[t].pc)
  }

  lemma RegisterLasts(s: State, t: nat)
    requires t in s.callers && Enabled(s, Step(t)) && Registers(s.callers[t].pc)
    ensures CallerLasts(s, RegisterStep(s, t), t) && RegisterStep(s, t).cancelled == s.cancelled
  {
  }

  lemma QueueLasts(s: State, t: nat)
    requires t in s.callers && Enabled(s, Step(t)) && Queues(s.callers[t].pc) && !QueueStep(s, t).log.panicked
    ensures CallerLasts(s, QueueStep(s, t), t) && QueueStep(s, t).cancelled == s.cancelled
  {
  }

  lemma CloseStepLasts(s: State, t: nat)
    requires Global(s) && t in s.callers && PlaceOk(s, t) && Enabled(s, Step(t))
    requires Closes(s.callers[t].pc) && !CloseStep(s, t).log.panicked
    ensures CallerLasts(s, CloseStep(s, t), t)
  {
  }

  lemma RegisterReturns(s: State, t: nat)
    requires t in s.callers && PlaceOk(s, t) && ReturnOk(s, t) && Enabled(s, Step(t)) && Registers(s.callers[t].pc)
    ensures ReturnOk(RegisterStep(s, t), t)
  {
  }

  lemma QueueReturns(s: State, t: nat)
    requires t in s.callers && PlaceOk(s, t) && ReturnOk(s, t) && Enabled(s, Step(t)) && Queues(s.callers[t].pc)
    requires !QueueStep(s, t).log.panicked
    ensures ReturnOk(QueueStep(s, t), t)
  {
  }

  lemma CloseReturns(s: State, t: nat)
    requires Global(s) && t in s.callers && PlaceOk(s, t) && ReturnOk(s, t) && Enabled(s, Step(t))
    requires Closes(s.callers[t].pc) && !CloseStep(s, t).log.panicked
    ensures ReturnOk(CloseStep(s, t), t)
  {
  }

  lemma CancelsOnReturn(s: State, t: nat)
    requires t in s.callers && ReturnOk(s, t) && Closes(s.callers[t].pc)
    ensures var s' := CloseStep(s, t); s'.cancelled == s.cancelled || s'.callers[t] == Thread(ForceStop, Returned)
  {
  }

  lemma OthersStillReturn(s: State, s': State, t: nat)
    requires Lasting(s, s') && ReturnOk(s, t) && (t in s'.callers ==> t in s.callers && s'.callers[t] == s.callers[t])
    ensures ReturnOk(s', t)
  {
  }

  lemma RunKeepsReturns(s: State, ok: bool)
    requires Inv(s) && AllReturnOk(s) && Enabled(s, RunStep(ok))
    ensures AllReturnOk(RunnerStep(s, ok))
  {
    var s' := RunnerStep(s, ok);
    if s.run.ClosingWaiters? {
      CloserLasts(s, ok);
    } else if HasWorked(s.run) {
      ReleaserLasts(s, ok);
    } else {
      WorkerLasts(s, ok);
    }
    forall t: nat ensures ReturnOk(s', t) { OthersStillReturn(s, s', t); }
  }

  lemma CallersKeepReturns(s: State, t: nat)
    requires Inv(s) && AllReturnOk(s) && t in s.callers && Enabled(s, Step(t)) && !CallerStep(s, t).log.panicked
    ensures AllReturnOk(CallerStep(s, t))
  {
    var s' := CallerStep(s, t);
    assert ThreadOk(s, t) && ReturnOk(s, t);
    if Registers(s.callers[t].pc) {
      RegisterLasts(s, t);
      RegisterReturns(s, t);
    } else if Queues(s.callers[t].pc) {
      QueueLasts(s, t);
      QueueReturns(s, t);
    } else {
      CloseStepLasts(s, t);
      CloseReturns(s, t);
      CancelsOnReturn(s, t);
    }
    forall u: nat ensures ReturnOk(s', u) { if u != t { OthersStillReturn(s, s', u); } }
    if s.cancelled {
      var u :| u in s.callers && s.callers[u] == Thread(ForceStop, Returned);
      assert s'.callers[u] == Thread(ForceStop, Returned);
    }
  }

  /** In every run, up to a panic, callers find what they have asked for when they return. */
  lemma {:induction false} CallersFindWhatTheyAskedFor(events: seq<Event>)
    requires IsRun(events) && !After(events).log.panicked
    ensures AllReturnOk(After(events))
    decreases |events|
  {
    if events != [] {
      var s, e := After(events[..|events| - 1]), events[|events| - 1];
      CallersFindWhatTheyAskedFor(events[..|events| - 1]);
      RunsKeepInv(events[..|events| - 1]);
      match e
      case Call(t, op) => EnteringKeepsReturns(s, t, op);
      case Step(t) => CallersKeepReturns(s, t);
      case RunStep(ok) => RunKeepsReturns(s, ok);
    }
  }

  lemma EnteringKeepsReturns(s: State, t: nat, op: Operation)
    requires AllReturnOk(s) && t !in s.callers
    ensures AllReturnOk(Enter(s, t, op))
  {
    var s' := Enter(s, t, op);
    forall u: nat ensures ReturnOk(s', u) { if u != t { OthersStillReturn(s, s', u); } }
    if s.cancelled {
      var u :| u in s.callers && s.callers[u] == Thread(ForceStop, Returned);
      assert s'.callers[u] == Thread(ForceStop, Returned);
    }
  }

  // ----- the first call of work

  /** Run has gone through its first launch, up to the retries of work. */
  ghost predicate FirstDone(events: seq<Event>)
    requires IsRun(events)
    decreases |events|
  {
    events != [] &&
    (FirstDone(events[..|events| - 1]) || (events[|events| - 1].RunStep? && After(events[..|events| - 1]).run.Worked?))
  }

  /** IsFirstWork holds exactly until then. */
  lemma {:induction false} IsFirstWorkExactly(events: seq<Event>)
    requires IsRun(events) && !After(events).log.panicked
    ensures After(events).isFirstWork <==> !FirstDone(events)
    decreases |events|
  {
    if events != [] {
      IsFirstWorkExactly(events[..|events| - 1]);
      RunsKeepInv(events[..|events| - 1]);
      FirstWorkStep(After(events[..|events| - 1]), events[|events| - 1]);
    }
  }

  lemma FirstWorkStep(s: State, e: Event)
    requires Inv(s) && Enabled(s, e) && !Next(s, e).log.panicked
    ensures Next(s, e).isFirstWork <==> s.isFirstWork && !(e.RunStep? && s.run.Worked?)
  {
    match e
    case Call(t, op) =>
    case Step(t) =>
      assert ThreadOk(s, t);
      if Registers(s.callers[t].pc) {
        RegisterLasts(s, t);
      } else if Queues(s.callers[t].pc) {
        QueueLasts(s, t);
      } else {
        CloseStepLasts(s, t);
      }
    case RunStep(ok) =>
      if s.run.ClosingWaiters? {
        CloserLasts(s, ok);
      } else if HasWorked(s.run) {
        ReleaserLasts(s, ok);
      } else {
        WorkerLasts(s, ok);
      }
  }
}
