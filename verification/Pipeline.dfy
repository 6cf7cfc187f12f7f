/**
 * The work queue of a pipeline stage: internal/app/pipeline.go.
 *
 * Any number of callers execute QueueWork, QueueWorkBlocking, Stop or ForceStop, one loop executes Run. Each has a
 * program counter, and every access to a field that another thread may use is one atomic step, so a run of the system
 * is a list of events in any interleaving. In particular Run tests the length of launch in one step and closes each
 * waiter in a step of its own.
 */
module Pipeline {

  import opened Options

  datatype Operation = Queue | QueueBlocking | Stop | ForceStop

  datatype CallerPc =
    | AtRegister      // QueueWorkBlocking: about to lock blockingsMutex
    | Registering     // about to append the waiter
    | Registered      // about to unlock blockingsMutex
    | AtQueue         // QueueWork: about to lock activeMutex
    | Entered         // about to test active
    | Checked         // about to compare and swap done
    | Swapped         // about to send on launch
    | Leaving         // about to unlock activeMutex
    | Waiting         // QueueWorkBlocking: about to receive from the waiter channel
    | AtClose         // close: about to lock activeMutex
    | Closing         // about to clear active
    | Deactivated     // about to close launch
    | Closed          // about to unlock activeMutex
    | Cancelling      // ForceStop: about to cancel the context
    | Returned

  datatype RunPc =
    | Idle            // about to receive from launch
    | Received        // about to set done
    | Marked          // about to call work
    | Working         // inside work
    | Retrying        // about to call work again
    | Worked          // about to clear IsFirstWork
    | AtRelease       // about to lock blockingsMutex
    | Releasing       // about to test the length of launch
    | ClosingWaiters(next: nat) // found launch empty, about to close waiter number next, or else to drop the list
    | Released        // about to unlock blockingsMutex
    | Exited

  datatype Holder = Nobody | Caller(id: nat) | Runner

  datatype Thread = Thread(op: Operation, pc: CallerPc)

  /** How far the request of a waiter had come when Run tested the length of launch. */
  datatype Look =
    | NotAsked                 // its caller had not executed the compare and swap
    | NotSent(sinceWork: bool) // it had swapped done, since work was last called or before that, but not yet sent
    | Effective                // it had sent, or found work queued

  /** Recorded when a waiter channel is closed: calls of work finished by then, and what the length test met. */
  datatype Release = Release(finished: nat, look: Look)

  datatype State = State(
    done: bool,
    tokens: nat,                 // messages in launch, whose capacity is CAPACITY
    closed: bool,                // launch has been closed
    active: bool,
    activeMutex: Holder,
    blockings: seq<nat>,         // a waiter channel is named after its caller
    blockingsMutex: Holder,
    cancelled: bool,
    isFirstWork: bool,
    callers: map<nat, Thread>,
    run: RunPc,
    log: Log)

  /** What has happened so far; no step depends on it, except that a channel can be closed only once. */
  datatype Log = Log(
    panicked: bool,              // a send on, or second close of, a closed channel
    panic: Option<nat>,          // the caller that did it, if one did
    closer: Option<nat>,         // the caller that closed launch
    starts: nat,                 // calls of work begun
    finishes: nat,               // calls of work finished
    succeeded: bool,             // the last call of work returned true
    drained: nat,                // launches received after launch was closed
    asked: map<nat, nat>,        // per caller: starts when it executed its compare and swap
    effect: map<nat, nat>,       // per caller: starts when its request took effect (sent, or found work queued)
    looked: map<nat, Look>,      // the listed waiters when Run last found launch empty
    released: map<nat, Release>) // the closed waiter channels

  const CAPACITY: nat := 1

  const INITIAL := State(true, 0, false, true, Nobody, [], Nobody, false, true, map[], Idle,
                         Log(false, None, None, 0, 0, false, 0, map[], map[], map[], map[]))

  datatype Event =
    | Call(caller: nat, op: Operation) // a new caller enters
    | Step(caller: nat)                // a caller executes its next step
    | RunStep(ok: bool)                // Run executes its next step; ok is the result of work where it returns

  predicate Enabled(s: State, e: Event) {
    !s.log.panicked &&
    match e
    case Call(t, op) => t !in s.callers
    case Step(t) =>
      t in s.callers &&
      (match s.callers[t].pc
       case AtRegister => s.blockingsMutex == Nobody
       case AtQueue => s.activeMutex == Nobody
       case AtClose => s.activeMutex == Nobody
       case Swapped => s.tokens < CAPACITY || s.closed
       case Waiting => t in s.log.released
       case Returned => false
       case _ => true)
    case RunStep(_) =>
      match s.run
      case Idle => s.tokens > 0 || s.closed
      case AtRelease => s.blockingsMutex == Nobody
      case Exited => false
      case _ => true
  }

  function Entry(op: Operation): CallerPc {
    match op
    case Queue => AtQueue
    case QueueBlocking => AtRegister
    case _ => AtClose
  }

  function Moved(callers: map<nat, Thread>, t: nat, pc: CallerPc): map<nat, Thread>
    requires t in callers
  {
    callers[t := Thread(callers[t].op, pc)]
  }

  function Enter(s: State, t: nat, op: Operation): State {
    s.(callers := s.callers[t := Thread(op, Entry(op))])
  }

  // QueueWorkBlocking

  function LockBlockings(s: State, t: nat): State
    requires t in s.callers
  {
    s.(callers := Moved(s.callers, t, Registering), blockingsMutex := Caller(t))
  }

  function AppendWaiter(s: State, t: nat): State
    requires t in s.callers
  {
    s.(callers := Moved(s.callers, t, Registered), blockings := s.blockings + [t])
  }

  function UnlockBlockings(s: State, t: nat): State
    requires t in s.callers
  {
    s.(callers := Moved(s.callers, t, AtQueue), blockingsMutex := Nobody)
  }

  // QueueWork

  function LockActive(s: State, t: nat, pc: CallerPc): State
    requires t in s.callers
  {
    s.(callers := Moved(s.callers, t, pc), activeMutex := Caller(t))
  }

  function TestActive(s: State, t: nat): State
    requires t in s.callers
  {
    s.(callers := Moved(s.callers, t, if s.active then Checked else Leaving))
  }

  function SwapDone(s: State, t: nat): State
    requires t in s.callers
  {
    var asked := s.log.asked[t := s.log.starts];
    if s.done then s.(callers := Moved(s.callers, t, Swapped), done := false, log := s.log.(asked := asked))
    else s.(callers := Moved(s.callers, t, Leaving),
            log := s.log.(asked := asked, effect := s.log.effect[t := s.log.starts]))
  }

  function Send(s: State, t: nat): State
    requires t in s.callers
  {
    if s.closed then s.(log := s.log.(panicked := true, panic := Some(t)))
    else s.(callers := Moved(s.callers, t, Leaving), tokens := s.tokens + 1,
            log := s.log.(effect := s.log.effect[t := s.log.starts]))
  }

  function UnlockActive(s: State, t: nat, pc: CallerPc): State
    requires t in s.callers
  {
    s.(callers := Moved(s.callers, t, pc), activeMutex := Nobody)
  }

  // close

  function ClearActive(s: State, t: nat): State
    requires t in s.callers
  {
    s.(callers := Moved(s.callers, t, Deactivated), active := false)
  }

  function CloseLaunch(s: State, t: nat): State
    requires t in s.callers
  {
    if s.closed then s.(log := s.log.(panicked := true, panic := Some(t)))
    else s.(callers := Moved(s.callers, t, Closed), closed := true, log := s.log.(closer := Some(t)))
  }

  function Finish(s: State, t: nat, cancel: bool): State
    requires t in s.callers
  {
    s.(callers := Moved(s.callers, t, Returned), cancelled := s.cancelled || cancel)
  }

  predicate Registers(pc: CallerPc) {
    pc.AtRegister? || pc.Registering? || pc.Registered? || pc.Waiting?
  }

  predicate Queues(pc: CallerPc) {
    pc.AtQueue? || pc.Entered? || pc.Checked? || pc.Swapped? || pc.Leaving?
  }

  function RegisterStep(s: State, t: nat): State
    requires t in s.callers && Registers(s.callers[t].pc)
  {
    match s.callers[t].pc
    case AtRegister => LockBlockings(s, t)
    case Registering => AppendWaiter(s, t)
    case Registered => UnlockBlockings(s, t)
    case Waiting => Finish(s, t, false)
  }

  function QueueStep(s: State, t: nat): State
    requires t in s.callers && Queues(s.callers[t].pc)
  {
    match s.callers[t].pc
    case AtQueue => LockActive(s, t, Entered)
    case Entered => TestActive(s, t)
    case Checked => SwapDone(s, t)
    case Swapped => Send(s, t)
    case Leaving => UnlockActive(s, t, if s.callers[t].op == QueueBlocking then Waiting else Returned)
  }

  predicate Closes(pc: CallerPc) {
    pc.AtClose? || pc.Closing? || pc.Deactivated? || pc.Closed? || pc.Cancelling?
  }

  function CloseStep(s: State, t: nat): State
    requires t in s.callers && Closes(s.callers[t].pc)
  {
    match s.callers[t].pc
    case AtClose => LockActive(s, t, Closing)
    case Closing => ClearActive(s, t)
    case Deactivated => CloseLaunch(s, t)
    case Closed => UnlockActive(s, t, if s.callers[t].op == ForceStop then Cancelling else Returned)
    case Cancelling => Finish(s, t, true)
  }

  function CallerStep(s: State, t: nat): State
    requires t in s.callers && Enabled(s, Step(t))
  {
    if Registers(s.callers[t].pc) then RegisterStep(s, t)
    else if Queues(s.callers[t].pc) then QueueStep(s, t)
    else CloseStep(s, t)
  }

  // Run

  function Receive(s: State): State {
    if s.tokens > 0 then
      s.(run := Received, tokens := s.tokens - 1,
         log := s.log.(drained := s.log.drained + if s.closed then 1 else 0))
    else s.(run := Exited)
  }

  function CallWork(s: State): State {
    s.(run := Working, log := s.log.(starts := s.log.starts + 1))
  }

  function ReturnFromWork(s: State, ok: bool): State {
    s.(run := if !ok && !s.cancelled then Retrying else Worked,
       log := s.log.(finishes := s.log.finishes + 1, succeeded := ok))
  }

  function ClearFirst(s: State): State {
    s.(run := AtRelease, isFirstWork := false)
  }

  function LookAt(s: State, w: nat): Look {
    if w in s.log.effect then Effective
    else if w in s.log.asked then NotSent(s.log.asked[w] == s.log.starts)
    else NotAsked
  }

  function TestLength(s: State): State {
    if s.tokens > 0 then s.(run := Released)
    else s.(run := ClosingWaiters(0), log := s.log.(looked := map w | w in s.blockings :: LookAt(s, w)))
  }

  function CloseWaiter(s: State, w: nat, next: nat): State {
    if w in s.log.released || w !in s.log.looked then s.(log := s.log.(panicked := true))
    else s.(run := ClosingWaiters(next),
            log := s.log.(released := s.log.released[w := Release(s.log.finishes, s.log.looked[w])]))
  }

  function DropWaiters(s: State): State {
    s.(run := Released, blockings := [])
  }

  function SetDone(s: State): State {
    s.(run := Marked, done := true)
  }

  function LockForRelease(s: State): State {
    s.(run := Releasing, blockingsMutex := Runner)
  }

  function UnlockReleased(s: State): State {
    s.(run := Idle, blockingsMutex := Nobody)
  }

  function RunnerStep(s: State, ok: bool): State
    requires Enabled(s, RunStep(ok))
  {
    match s.run
    case Idle => Receive(s)
    case Received => SetDone(s)
    case Marked => CallWork(s)
    case Working => ReturnFromWork(s, ok)
    case Retrying => CallWork(s)
    case Worked => ClearFirst(s)
    case AtRelease => LockForRelease(s)
    case Releasing => TestLength(s)
    case ClosingWaiters(k) => if k < |s.blockings| then CloseWaiter(s, s.blockings[k], k + 1) else DropWaiters(s)
    case Released => UnlockReleased(s)
    case Exited => s
  }

  function Next(s: State, e: Event): State
    requires Enabled(s, e)
  {
    match e
    case Call(t, op) => Enter(s, t, op)
    case Step(t) => CallerStep(s, t)
    case RunStep(ok) => RunnerStep(s, ok)
  }

  /** The events form a run of the system from its initial state. */
  ghost predicate IsRun(events: seq<Event>)
    decreases |events|, 0
  {
    events == [] || (IsRun(events[..|events| - 1]) && Enabled(After(events[..|events| - 1]), events[|events| - 1]))
  }

  ghost function After(events: seq<Event>): State
    requires IsRun(events)
    decreases |events|, 1
  {
    if events == [] then INITIAL else Next(After(events[..|events| - 1]), events[|events| - 1])
  }

  // ----- the invariant

  predicate InsideActive(pc: CallerPc) {
    pc.Entered? || pc.Checked? || pc.Swapped? || pc.Leaving? || pc.Closing? || pc.Deactivated? || pc.Closed?
  }

  predicate InsideBlockings(pc: CallerPc) {
    pc.Registering? || pc.Registered?
  }

  predicate IsCloser(op: Operation) {
    op == Stop || op == ForceStop
  }

  predicate HasClosed(thread: Thread) {
    IsCloser(thread.op) && (thread.pc.Closed? || thread.pc.Cancelling? || thread.pc.Returned?)
  }

  predicate HasRegistered(thread: Thread) {
    thread.op == QueueBlocking && !thread.pc.AtRegister? && !thread.pc.Registering?
  }

  /** Some caller has swapped done and is about to send. */
  predicate Sending(s: State) {
    s.activeMutex.Caller? && s.activeMutex.id in s.callers && s.callers[s.activeMutex.id].pc.Swapped?
  }

  /** The number of requests between the swap of done and the moment Run sets done again. */
  function Pending(s: State): nat {
    s.tokens + (if Sending(s) then 1 else 0) + (if s.run.Received? then 1 else 0)
  }

  /** done says exactly that no request is under way, and there is never more than one. */
  predicate QueueInv(s: State) {
    Pending(s) == if s.done then 0 else 1
  }

  predicate CloseInv(s: State) {
    && (s.closed ==> !s.active && s.tokens + s.log.drained <= 1)
    && (!s.closed ==> s.log.drained == 0)
    && (s.run.Exited? ==> s.closed && s.tokens == 0)
    && (s.closed <==> s.log.closer.Some?)
    && (s.log.closer.Some? ==> s.log.closer.value in s.callers && HasClosed(s.callers[s.log.closer.value]))
    && (s.log.panicked ==>
          && s.closed && s.log.panic.Some? && s.log.panic.value in s.callers
          && s.log.panic.value != s.log.closer.value && IsCloser(s.callers[s.log.panic.value].op))
  }

  /** Calls of work are counted correctly, and waiters are only looked at after a final one. */
  predicate WorkInv(s: State) {
    && s.log.starts == s.log.finishes + (if s.run.Working? then 1 else 0)
    && (HasWorked(s.run) ==> s.log.starts > 0 && (s.log.succeeded || s.cancelled))
  }

  predicate HasWorked(run: RunPc) {
    run.Worked? || run.AtRelease? || HoldsBlockings(run)
  }

  predicate HoldsBlockings(run: RunPc) {
    run.Releasing? || run.ClosingWaiters? || run.Released?
  }

  predicate NoDuplicates(waiters: seq<nat>) {
    forall i, j :: 0 <= i < j < |waiters| ==> waiters[i] != waiters[j]
  }

  ghost predicate Global(s: State) {
    && QueueInv(s) && CloseInv(s) && WorkInv(s)
    && (s.activeMutex.Caller? ==> s.activeMutex.id in s.callers)
    && (s.blockingsMutex.Caller? ==> s.blockingsMutex.id in s.callers)
    && !s.activeMutex.Runner?
    && (s.blockingsMutex.Runner? <==> HoldsBlockings(s.run))
    && (s.run.ClosingWaiters? ==> s.run.next <= |s.blockings|)
    && NoDuplicates(s.blockings)
  }

  /** Caller t is inside a critical section exactly if it holds the mutex, and sees the channel as it must. */
  predicate PlaceOk(s: State, t: nat)
    requires t in s.callers
  {
    var pc, op := s.callers[t].pc, s.callers[t].op;
    && (InsideActive(pc) <==> s.activeMutex == Caller(t))
    && (InsideBlockings(pc) <==> s.blockingsMutex == Caller(t))
    && (pc.Checked? || pc.Swapped? ==> s.active)
    && (pc.Deactivated? ==> !s.active)
    && (pc.AtClose? || pc.Closing? || pc.Deactivated? || pc.Closed? || pc.Cancelling? ==> IsCloser(op))
    && (pc.AtRegister? || InsideBlockings(pc) || pc.Waiting? ==> op == QueueBlocking)
  }

  /** The request of caller t is recorded where it is made, and not forgotten before the next call of work. */
  predicate RequestOk(s: State, t: nat)
    requires t in s.callers
  {
    var pc := s.callers[t].pc;
    && (t in s.log.asked ==> pc.Swapped? || pc.Leaving? || pc.Waiting? || pc.Returned?)
    && (t in s.log.effect ==> t in s.log.asked && !pc.Swapped?)
    && (t in s.log.asked && t !in s.log.effect ==> pc.Swapped?)
    && (pc.Swapped? ==> t in s.log.asked)
    && (t in s.log.asked ==> s.log.asked[t] <= s.log.starts)
    && (t in s.log.effect && t in s.log.asked ==> s.log.asked[t] <= s.log.effect[t] <= s.log.starts)
    && (t in s.log.asked && s.log.asked[t] == s.log.starts ==> Pending(s) == 1 || s.run.Marked?)
    && (t in s.log.effect && s.log.effect[t] == s.log.starts ==> s.tokens == 1 || s.run.Received? || s.run.Marked?)
  }

  /** What look says of the request of t, when n calls of work had begun and finished at the time of the look. */
  predicate LookOk(log: Log, t: nat, look: Look, n: nat) {
    && n <= log.finishes
    && match look
       case NotAsked => (t in log.asked ==> n <= log.asked[t]) && (t in log.effect ==> n <= log.effect[t])
       case NotSent(sinceWork) =>
         t in log.asked && (sinceWork <==> n <= log.asked[t]) && (t in log.effect ==> n <= log.effect[t])
       case Effective => t in log.effect && log.effect[t] < n
  }

  /** Run has closed the waiter of t and not yet dropped it from the list. */
  predicate JustClosed(s: State, t: nat) {
    s.run.ClosingWaiters? && s.run.next <= |s.blockings| && t in s.blockings[..s.run.next]
  }

  /** The waiter of caller t is listed or released once it is registered, and the looks are right. */
  predicate WaiterOk(s: State, t: nat)
    requires t in s.callers
  {
    && (HasRegistered(s.callers[t]) <==> t in s.blockings || t in s.log.released)
    && (t in s.blockings ==> (t in s.log.released <==> JustClosed(s, t)))
    && (t in s.blockings && s.run.ClosingWaiters? ==>
          t in s.log.looked && LookOk(s.log, t, s.log.looked[t], s.log.finishes))
    && (t in s.log.released ==> LookOk(s.log, t, s.log.released[t].look, s.log.released[t].finished))
  }

  /** What holds of caller t; a name that no caller has yet occurs nowhere. */
  predicate ThreadOk(s: State, t: nat) {
    if t in s.callers then PlaceOk(s, t) && RequestOk(s, t) && WaiterOk(s, t)
    else t !in s.log.asked && t !in s.log.effect && t !in s.blockings && t !in s.log.released
  }

  ghost predicate Inv(s: State) {
    Global(s) && forall t: nat :: ThreadOk(s, t)
  }

  // ----- every step keeps the invariant

  // Each of the following lemmas is about one step of caller t, or of Run, and an arbitrary caller u.

  lemma EnterKeepsGlobal(s: State, t: nat, op: Operation)
    requires t !in s.callers && Global(s) && ThreadOk(s, t)
    ensures Global(Enter(s, t, op))
  {
  }

  lemma EnterKeeps(s: State, t: nat, op: Operation, u: nat)
    requires t !in s.callers && Global(s) && ThreadOk(s, t) && ThreadOk(s, u)
    ensures Global(Enter(s, t, op)) && ThreadOk(Enter(s, t, op), u)
  {
    EnterKeepsGlobal(s, t, op);
    if u != t { assert ThreadOk(s, u); }
  }

  lemma LockBlockingsKeeps(s: State, t: nat, u: nat)
    requires t in s.callers && Global(s) && ThreadOk(s, t) && ThreadOk(s, u)
    requires s.callers[t].pc.AtRegister? && s.blockingsMutex == Nobody
    ensures Global(LockBlockings(s, t)) && ThreadOk(LockBlockings(s, t), u)
  {
  }

  lemma AppendWaiterKeeps(s: State, t: nat, u: nat)
    requires t in s.callers && Global(s) && ThreadOk(s, t) && ThreadOk(s, u)
    requires s.callers[t].pc.Registering?
    ensures Global(AppendWaiter(s, t)) && ThreadOk(AppendWaiter(s, t), u)
  {
    assert (s.blockings + [t])[..|s.blockings|] == s.blockings;
  }

  lemma UnlockBlockingsKeeps(s: State, t: nat, u: nat)
    requires t in s.callers && Global(s) && ThreadOk(s, t) && ThreadOk(s, u)
    requires s.callers[t].pc.Registered?
    ensures Global(UnlockBlockings(s, t)) && ThreadOk(UnlockBlockings(s, t), u)
  {
  }

  lemma LockActiveKeeps(s: State, t: nat, u: nat, pc: CallerPc)
    requires t in s.callers && Global(s) && ThreadOk(s, t) && ThreadOk(s, u)
    requires s.activeMutex == Nobody
    requires (s.callers[t].pc.AtQueue? && pc.Entered?) || (s.callers[t].pc.AtClose? && pc.Closing?)
    ensures Global(LockActive(s, t, pc)) && ThreadOk(LockActive(s, t, pc), u)
  {
  }

  lemma TestActiveKeeps(s: State, t: nat, u: nat)
    requires t in s.callers && Global(s) && ThreadOk(s, t) && ThreadOk(s, u)
    requires s.callers[t].pc.Entered?
    ensures Global(TestActive(s, t)) && ThreadOk(TestActive(s, t), u)
  {
  }

  lemma SwapDoneKeepsGlobal(s: State, t: nat)
    requires t in s.callers && Global(s) && ThreadOk(s, t)
    requires s.callers[t].pc.Checked?
    ensures Global(SwapDone(s, t))
  {
  }

  lemma SwapDoneKeeps(s: State, t: nat, u: nat)
    requires t in s.callers && Global(s) && ThreadOk(s, t) && ThreadOk(s, u)
    requires s.callers[t].pc.Checked?
    ensures Global(SwapDone(s, t)) && ThreadOk(SwapDone(s, t), u)
  {
    SwapDoneKeepsGlobal(s, t);
    if u != t { assert ThreadOk(s, u); }
  }

  lemma SendKeeps(s: State, t: nat, u: nat)
    requires t in s.callers && Global(s) && ThreadOk(s, t) && ThreadOk(s, u)
    requires s.callers[t].pc.Swapped?
    ensures Global(Send(s, t)) && ThreadOk(Send(s, t), u)
  {
  }

  lemma UnlockActiveKeeps(s: State, t: nat, u: nat, pc: CallerPc)
    requires t in s.callers && Global(s) && ThreadOk(s, t) && ThreadOk(s, u)
    requires (s.callers[t].pc.Leaving? && pc == if s.callers[t].op == QueueBlocking then Waiting else Returned)
             || (s.callers[t].pc.Closed? && pc == if s.callers[t].op == ForceStop then Cancelling else Returned)
    ensures Global(UnlockActive(s, t, pc)) && ThreadOk(UnlockActive(s, t, pc), u)
  {
  }

  lemma ClearActiveKeeps(s: State, t: nat, u: nat)
    requires t in s.callers && Global(s) && ThreadOk(s, t) && ThreadOk(s, u)
    requires s.callers[t].pc.Closing?
    ensures Global(ClearActive(s, t)) && ThreadOk(ClearActive(s, t), u)
  {
  }

  lemma CloseLaunchKeepsGlobal(s: State, t: nat)
    requires t in s.callers && Global(s) && ThreadOk(s, t)
    requires s.callers[t].pc.Deactivated? && !s.log.panicked
    ensures Global(CloseLaunch(s, t))
  {
  }

  lemma CloseLaunchKeeps(s: State, t: nat, u: nat)
    requires t in s.callers && Global(s) && ThreadOk(s, t) && ThreadOk(s, u)
    requires s.callers[t].pc.Deactivated? && !s.log.panicked
    ensures Global(CloseLaunch(s, t)) && ThreadOk(CloseLaunch(s, t), u)
  {
    CloseLaunchKeepsGlobal(s, t);
    if u != t { assert ThreadOk(s, u); }
  }

  lemma FinishKeepsGlobal(s: State, t: nat, cancel: bool)
    requires t in s.callers && Global(s) && ThreadOk(s, t)
    requires s.callers[t].pc.Waiting? || s.callers[t].pc.Cancelling?
    ensures Global(Finish(s, t, cancel))
  {
  }

  lemma FinishKeeps(s: State, t: nat, u: nat, cancel: bool)
    requires t in s.callers && Global(s) && ThreadOk(s, t) && ThreadOk(s, u)
    requires s.callers[t].pc.Waiting? || s.callers[t].pc.Cancelling?
    ensures Global(Finish(s, t, cancel)) && ThreadOk(Finish(s, t, cancel), u)
  {
    FinishKeepsGlobal(s, t, cancel);
    if u != t { assert ThreadOk(s, u); }
  }

  lemma ReceiveKeepsGlobal(s: State)
    requires Global(s)
    requires s.run.Idle? && (s.tokens > 0 || s.closed)
    ensures Global(Receive(s))
  {
  }

  lemma ReceiveKeeps(s: State, u: nat)
    requires Global(s) && ThreadOk(s, u)
    requires s.run.Idle? && (s.tokens > 0 || s.closed)
    ensures Global(Receive(s)) && ThreadOk(Receive(s), u)
  {
    ReceiveKeepsGlobal(s);
  }

  lemma SetDoneKeeps(s: State, u: nat)
    requires Global(s) && ThreadOk(s, u)
    requires s.run.Received?
    ensures Global(SetDone(s)) && ThreadOk(SetDone(s), u)
  {
  }

  lemma CallWorkKeeps(s: State, u: nat)
    requires Global(s) && ThreadOk(s, u)
    requires (s.run.Marked? || s.run.Retrying?)
    ensures Global(CallWork(s)) && ThreadOk(CallWork(s), u)
  {
  }

  lemma ReturnFromWorkKeeps(s: State, u: nat, ok: bool)
    requires Global(s) && ThreadOk(s, u)
    requires s.run.Working?
    ensures Global(ReturnFromWork(s, ok)) && ThreadOk(ReturnFromWork(s, ok), u)
  {
  }

  lemma ClearFirstKeeps(s: State, u: nat)
    requires Global(s) && ThreadOk(s, u)
    requires s.run.Worked?
    ensures Global(ClearFirst(s)) && ThreadOk(ClearFirst(s), u)
  {
  }

  lemma LockForReleaseKeeps(s: State, u: nat)
    requires Global(s) && ThreadOk(s, u)
    requires s.run.AtRelease? && s.blockingsMutex == Nobody
    ensures Global(LockForRelease(s)) && ThreadOk(LockForRelease(s), u)
  {
  }

  lemma SkipWaitersKeeps(s: State, u: nat)
    requires ThreadOk(s, u) && s.run.Releasing?
    ensures ThreadOk(s.(run := Released), u)
  {
  }

  // The look at the request of a listed waiter is right: if it took effect, work was called since then.
  lemma LookIsOk(s: State, u: nat)
    requires u in s.callers && RequestOk(s, u) && WorkInv(s) && s.run.Releasing? && s.tokens == 0
    ensures LookOk(s.log, u, LookAt(s, u), s.log.finishes)
  {
  }

  lemma LooksKeep(s: State, u: nat, looked: map<nat, Look>)
    requires u in s.callers && ThreadOk(s, u) && s.run.Releasing?
    requires u in s.blockings ==> u in looked && LookOk(s.log, u, looked[u], s.log.finishes)
    ensures ThreadOk(s.(run := ClosingWaiters(0), log := s.log.(looked := looked)), u)
  {
  }

  lemma TestLengthKeepsGlobal(s: State)
    requires Global(s)
    requires s.run.Releasing?
    ensures Global(TestLength(s))
  {
  }

  lemma TestLengthKeeps(s: State, u: nat)
    requires Global(s) && ThreadOk(s, u)
    requires s.run.Releasing?
    ensures Global(TestLength(s)) && ThreadOk(TestLength(s), u)
  {
    TestLengthKeepsGlobal(s);
    SkipWaitersKeeps(s, u);
    if u in s.callers && s.tokens == 0 {
      LookIsOk(s, u);
      LooksKeep(s, u, TestLength(s).log.looked);
    }
  }

  lemma CloseWaiterKeeps(s: State, u: nat)
    requires Global(s) && ThreadOk(s, u)
    requires s.run.ClosingWaiters? && s.run.next < |s.blockings| && ThreadOk(s, s.blockings[s.run.next])
    ensures var s' := CloseWaiter(s, s.blockings[s.run.next], s.run.next + 1); Global(s') && ThreadOk(s', u)
  {
  }

  lemma DropWaitersKeeps(s: State, u: nat)
    requires Global(s) && ThreadOk(s, u)
    requires s.run.ClosingWaiters? && s.run.next == |s.blockings|
    ensures Global(DropWaiters(s)) && ThreadOk(DropWaiters(s), u)
  {
  }

  lemma UnlockReleasedKeeps(s: State, u: nat)
    requires Global(s) && ThreadOk(s, u)
    requires s.run.Released?
    ensures Global(UnlockReleased(s)) && ThreadOk(UnlockReleased(s), u)
  {
  }

  lemma RegisterStepKeepsInv(s: State, t: nat)
    requires Inv(s) && t in s.callers && Registers(s.callers[t].pc) && !s.log.panicked
    requires s.callers[t].pc.AtRegister? ==> s.blockingsMutex == Nobody
    ensures Inv(RegisterStep(s, t))
  {
    forall u: nat ensures Global(RegisterStep(s, t)) && ThreadOk(RegisterStep(s, t), u) {
      match s.callers[t].pc
      case AtRegister => LockBlockingsKeeps(s, t, u);
      case Registering => AppendWaiterKeeps(s, t, u);
      case Registered => UnlockBlockingsKeeps(s, t, u);
      case Waiting => FinishKeeps(s, t, u, false);
    }
    assert ThreadOk(RegisterStep(s, t), t);
  }

  lemma QueueStepKeepsInv(s: State, t: nat)
    requires Inv(s) && t in s.callers && Queues(s.callers[t].pc) && !s.log.panicked
    requires s.callers[t].pc.AtQueue? ==> s.activeMutex == Nobody
    ensures Inv(QueueStep(s, t))
  {
    forall u: nat ensures Global(QueueStep(s, t)) && ThreadOk(QueueStep(s, t), u) {
      match s.callers[t].pc
      case AtQueue => LockActiveKeeps(s, t, u, Entered);
      case Entered => TestActiveKeeps(s, t, u);
      case Checked => SwapDoneKeeps(s, t, u);
      case Swapped => SendKeeps(s, t, u);
      case Leaving => UnlockActiveKeeps(s, t, u, if s.callers[t].op == QueueBlocking then Waiting else Returned);
    }
    assert ThreadOk(QueueStep(s, t), t);
  }

  lemma CloseStepKeepsInv(s: State, t: nat)
    requires Inv(s) && t in s.callers && Closes(s.callers[t].pc) && !s.log.panicked
    requires s.callers[t].pc.AtClose? ==> s.activeMutex == Nobody
    ensures Inv(CloseStep(s, t))
  {
    forall u: nat ensures Global(CloseStep(s, t)) && ThreadOk(CloseStep(s, t), u) {
      match s.callers[t].pc
      case AtClose => LockActiveKeeps(s, t, u, Closing);
      case Closing => ClearActiveKeeps(s, t, u);
      case Deactivated => CloseLaunchKeeps(s, t, u);
      case Closed => UnlockActiveKeeps(s, t, u, if s.callers[t].op == ForceStop then Cancelling else Returned);
      case Cancelling => FinishKeeps(s, t, u, true);
    }
    assert ThreadOk(CloseStep(s, t), t);
  }

  lemma CallerStepKeepsInv(s: State, t: nat)
    requires Inv(s) && t in s.callers && Enabled(s, Step(t))
    ensures Inv(CallerStep(s, t))
  {
    if Registers(s.callers[t].pc) {
      RegisterStepKeepsInv(s, t);
    } else if Queues(s.callers[t].pc) {
      QueueStepKeepsInv(s, t);
    } else {
      CloseStepKeepsInv(s, t);
    }
  }

  lemma RunnerStepKeepsInv(s: State, ok: bool)
    requires Inv(s) && Enabled(s, RunStep(ok))
    ensures Inv(RunnerStep(s, ok))
  {
    if s.run.ClosingWaiters? && s.run.next < |s.blockings| { assert ThreadOk(s, s.blockings[s.run.next]); }
    forall u: nat ensures Global(RunnerStep(s, ok)) && ThreadOk(RunnerStep(s, ok), u) {
      match s.run
      case Idle => ReceiveKeeps(s, u);
      case Received => SetDoneKeeps(s, u);
      case Marked => CallWorkKeeps(s, u);
      case Working => ReturnFromWorkKeeps(s, u, ok);
      case Retrying => CallWorkKeeps(s, u);
      case Worked => ClearFirstKeeps(s, u);
      case AtRelease => LockForReleaseKeeps(s, u);
      case Releasing => TestLengthKeeps(s, u);
      case ClosingWaiters(k) => if k < |s.blockings| { CloseWaiterKeeps(s, u); } else { DropWaitersKeeps(s, u); }
      case Released => UnlockReleasedKeeps(s, u);
    }
    assert ThreadOk(RunnerStep(s, ok), 0);
  }

  /** The invariant holds after every run, in every interleaving. */
  lemma {:induction false} RunsKeepInv(events: seq<Event>)
    requires IsRun(events)
    ensures Inv(After(events))
    decreases |events|
  {
    if events != [] {
      var s := After(events[..|events| - 1]);
      RunsKeepInv(events[..|events| - 1]);
      match events[|events| - 1]
      case Call(t, op) => forall u: nat ensures ThreadOk(Enter(s, t, op), u) { EnterKeeps(s, t, op, u); }
      case Step(t) => CallerStepKeepsInv(s, t);
      case RunStep(ok) => RunnerStepKeepsInv(s, ok);
    }
  }

  // ----- what holds in every interleaving

  /**
   * No request is lost: as long as no call of work has begun since a caller's compare and swap on an active stage,
   * there is a token in the channel, or Run has received one and not yet called work, or a caller is between its
   * swap and its send, which is then the only thing missing.
   */
  lemma NoRequestIsLost(events: seq<Event>, t: nat)
    requires IsRun(events)
    requires t in After(events).log.asked && After(events).log.asked[t] == After(events).log.starts
    ensures var s := After(events);
            && (s.tokens == 1 || s.run.Received? || s.run.Marked? || Sending(s))
            && (t in s.log.effect ==> s.tokens == 1 || s.run.Received? || s.run.Marked?)
  {
    RunsKeepInv(events);
    assert ThreadOk(After(events), t);
  }

  /**
   * The channel is safe: it never holds more than one token, none while done is set; a caller about to send finds it
   * open and with room; after it is closed at most one token is received before Run exits; and only a second Stop
   * or ForceStop can panic.
   */
  lemma ChannelIsSafe(events: seq<Event>)
    requires IsRun(events)
    ensures var s := After(events);
            && s.tokens <= CAPACITY
            && (s.done ==> s.tokens == 0)
            && (forall t :: t in s.callers && s.callers[t].pc.Swapped? ==> !s.closed && s.tokens < CAPACITY)
            && (s.closed ==> s.log.drained + s.tokens <= 1)
            && (s.run.Exited? ==> s.closed && s.tokens == 0)
            && (s.log.panicked ==> exists t, u :: t in s.callers && u in s.callers && t != u
                                                  && IsCloser(s.callers[t].op) && IsCloser(s.callers[u].op))
  {
    RunsKeepInv(events);
    var s := After(events);
    forall t | t in s.callers && s.callers[t].pc.Swapped? ensures !s.closed && s.tokens < CAPACITY {
      assert ThreadOk(s, t);
    }
    PanicNeedsTwoClosers(s);
  }

  lemma PanicNeedsTwoClosers(s: State)
    requires Global(s)
    ensures s.log.panicked ==> exists t, u :: t in s.callers && u in s.callers && t != u
                                              && IsCloser(s.callers[t].op) && IsCloser(s.callers[u].op)
  {
    if s.log.panicked {
      var t, u := s.log.panic.value, s.log.closer.value;
      assert t in s.callers && u in s.callers && t != u;
      assert IsCloser(s.callers[t].op) && IsCloser(s.callers[u].op);
    }
  }

  /**
   * Waiters: a channel is closed at most once, a registered waiter is listed or closed, and one whose request had
   * taken effect when Run tested the length of launch is closed only after a call of work that began after that
   * effect has finished.
   */
  lemma WaitersAreServed(events: seq<Event>, w: nat)
    requires IsRun(events) && w in After(events).callers
    ensures var s := After(events);
            && (HasRegistered(s.callers[w]) <==> w in s.blockings || w in s.log.released)
            && (w in s.blockings && w in s.log.released ==> JustClosed(s, w))
            && (w in s.log.released && s.log.released[w].look.Effective? ==>
                  w in s.log.effect && s.log.effect[w] < s.log.released[w].finished <= s.log.finishes)
  {
    RunsKeepInv(events);
    assert ThreadOk(After(events), w);
  }

  /** Run closes waiters only after a call of work that succeeded, unless the stage was force-stopped. */
  lemma ReleaseFollowsSuccess(events: seq<Event>)
    requires IsRun(events) && After(events).run.ClosingWaiters?
    ensures var s := After(events);
            0 < s.log.finishes == s.log.starts && (s.log.succeeded || s.cancelled)
  {
    RunsKeepInv(events);
  }

  /**
   * For every waiter that has been released and whose request has taken effect, before or after its release: a call of
   * work that began after the effect had finished at the release if and only if the request had taken effect when Run
   * tested the length of launch. Sending between the test and the close does not help, whenever the caller swapped.
   */
  lemma EarlyReleaseExactly(events: seq<Event>, w: nat)
    requires IsRun(events) && w in After(events).log.effect && w in After(events).log.released
    ensures var log := After(events).log;
            log.effect[w] < log.released[w].finished <==> log.released[w].look.Effective?
  {
    RunsKeepInv(events);
    assert ThreadOk(After(events), w);
  }

  /** The request of t has taken effect and work has not begun since, but Run's next step closes its waiter. */
  predicate ClosesEarly(s: State, t: nat) {
    && t in s.log.effect && s.log.effect[t] == s.log.starts
    && t !in s.log.released && Enabled(s, RunStep(true)) && t in Next(s, RunStep(true)).log.released
  }

  /**
   * When Run is about to close the waiter of w, and the request of w has taken effect by then, it closes it early if
   * and only if the request had not taken effect at the length test.
   */
  lemma ClosesEarlyExactly(events: seq<Event>, w: nat)
    requires IsRun(events) && !After(events).log.panicked && w in After(events).log.effect
    requires var s := After(events); s.run.ClosingWaiters? && s.run.next < |s.blockings| && s.blockings[s.run.next] == w
    ensures var s := After(events);
            w in s.log.looked && (ClosesEarly(s, w) <==> !s.log.looked[w].Effective?)
  {
    RunsKeepInv(events);
    assert ThreadOk(After(events), w);
  }

  /**
   * Counted from the compare and swap instead, a caller that at the test had swapped before work was last called, and
   * had yet to send, has been served as well.
   */
  lemma ServedSinceSwap(events: seq<Event>, w: nat)
    requires IsRun(events) && w in After(events).log.asked && w in After(events).log.released
    ensures var log := After(events).log;
            log.asked[w] < log.released[w].finished <==>
              log.released[w].look.Effective? || log.released[w].look == NotSent(false)
  {
    RunsKeepInv(events);
    assert ThreadOk(After(events), w);
  }

  // ----- work follows a request

  /** A request is under way, from its swap until work is called. */
  predicate AwaitsWork(s: State) {
    Pending(s) > 0 || s.run.Marked?
  }

  /** Run is about to call work. */
  predicate AboutToWork(run: RunPc) {
    run.Marked? || run.Retrying?
  }

  /** The next step on the way to work: one of the thread that holds up Run, or one of Run. */
  function Helpful(s: State): Event {
    if AboutToWork(s.run) then RunStep(true)
    else if Sending(s) then Step(s.activeMutex.id)
    else if s.run.AtRelease? && s.blockingsMutex.Caller? then Step(s.blockingsMutex.id)
    else RunStep(true)
  }

  /** e is a step of the thread whose next step is helpful, whatever work returns. */
  predicate Helps(s: State, e: Event) {
    e == Helpful(s) || (e.RunStep? && Helpful(s).RunStep?)
  }

  /** e locks blockingsMutex for one more waiter. */
  predicate Enlists(s: State, e: Event) {
    e.Step? && e.caller in s.callers && s.callers[e.caller].pc.AtRegister?
  }

  predicate Holds(s: State, pc: CallerPc) {
    s.blockingsMutex.Caller? && s.blockingsMutex.id in s.callers && s.callers[s.blockingsMutex.id].pc == pc
  }

  /** How long the caller that holds blockingsMutex, if there is one, holds up Run. */
  function HeldUp(s: State): nat {
    if Holds(s, Registering) then 2 else if Holds(s, Registered) then 1 else 0
  }

  /** The waiters that are listed or just about to be. */
  function Waiters(s: State): nat {
    |s.blockings| + if Holds(s, Registering) then 1 else 0
  }

  /** What Run has to do before it can receive, if launch is not empty. */
  function RunDistance(s: State): nat {
    match s.run
    case Exited => 0
    case Marked => 1
    case Retrying => 1
    case Received => 2
    case Idle => 3
    case Released => 4
    case Releasing => 5
    case ClosingWaiters(k) => if k < |s.blockings| then 5 + |s.blockings| - k else 5
    case AtRelease => 6 + HeldUp(s)
    case Worked => 9
    case Working => 10
  }

  /** While a caller is yet to send, Run may find launch empty and close all waiters first. */
  function SendDistance(s: State): nat {
    if !Sending(s) || AboutToWork(s.run) then 0
    else if s.run.Working? || s.run.Worked? || s.run.AtRelease? || s.run.Releasing? then 2 + Waiters(s)
    else 1
  }

  /** A bound on the number of helpful steps until work is called. */
  function Distance(s: State): (n: nat)
    ensures n <= |s.blockings| + 13
  {
    RunDistance(s) + SendDistance(s)
  }

  /** Work is called, or its call has come closer. */
  predicate Approaches(s: State, s': State) {
    && !s'.log.panicked
    && if s'.log.starts == s.log.starts then AwaitsWork(s') && Distance(s') < Distance(s)
       else s'.log.starts > s.log.starts
  }

  lemma SenderHelps(s: State)
    requires Inv(s) && !s.log.panicked && Sending(s) && !AboutToWork(s.run)
    ensures Enabled(s, Helpful(s)) && Approaches(s, Next(s, Helpful(s)))
  {
    assert ThreadOk(s, s.activeMutex.id);
  }

  lemma RegistrantHelps(s: State)
    requires Inv(s) && !s.log.panicked && AwaitsWork(s) && !Sending(s) && s.run.AtRelease? && s.blockingsMutex.Caller?
    ensures Enabled(s, Helpful(s)) && Approaches(s, Next(s, Helpful(s)))
  {
    assert ThreadOk(s, s.blockingsMutex.id);
  }

  lemma CloserHelps(s: State, ok: bool)
    requires Inv(s) && !s.log.panicked && AwaitsWork(s) && s.run.ClosingWaiters?
    ensures Approaches(s, RunnerStep(s, ok))
  {
    if s.run.next < |s.blockings| { assert ThreadOk(s, s.blockings[s.run.next]); }
  }

  lemma ReceiverHelps(s: State, ok: bool)
    requires Inv(s) && !s.log.panicked && AwaitsWork(s) && Enabled(s, RunStep(ok))
    requires s.run.Idle? || s.run.Received? || s.run.Exited?
    ensures Approaches(s, RunnerStep(s, ok))
  {
    assert Sending(s) ==> ThreadOk(s, s.activeMutex.id);
  }

  lemma WorkerHelps(s: State, ok: bool)
    requires Inv(s) && !s.log.panicked && AwaitsWork(s)
    requires s.run.Marked? || s.run.Working? || s.run.Retrying?
    ensures Approaches(s, RunnerStep(s, ok))
  {
  }

  lemma WorkedHelps(s: State, ok: bool)
    requires Global(s) && !s.log.panicked && AwaitsWork(s) && Enabled(s, RunStep(ok))
    requires s.run.Worked? || s.run.AtRelease?
    ensures Approaches(s, RunnerStep(s, ok))
  {
  }

  lemma ReleaserHelps(s: State, ok: bool)
    requires Global(s) && !s.log.panicked && AwaitsWork(s) && Enabled(s, RunStep(ok))
    requires s.run.Releasing? || s.run.Released?
    ensures Approaches(s, RunnerStep(s, ok))
  {
  }

  /** Every step of Run brings work closer. */
  lemma RunApproaches(s: State, ok: bool)
    requires Inv(s) && !s.log.panicked && AwaitsWork(s) && Enabled(s, RunStep(ok))
    ensures Approaches(s, RunnerStep(s, ok))
  {
    if s.run.ClosingWaiters? {
      CloserHelps(s, ok);
    } else if s.run.Releasing? || s.run.Released? {
      ReleaserHelps(s, ok);
    } else if HasWorked(s.run) {
      WorkedHelps(s, ok);
    } else if s.run.Marked? || s.run.Working? || s.run.Retrying? {
      WorkerHelps(s, ok);
    } else {
      ReceiverHelps(s, ok);
    }
  }

  /** The helpful step can always be taken, and brings work closer. */
  lemma HelpfulHelps(s: State)
    requires Inv(s) && !s.log.panicked && AwaitsWork(s)
    ensures Enabled(s, Helpful(s)) && Approaches(s, Next(s, Helpful(s)))
  {
    if Sending(s) && !AboutToWork(s.run) {
      SenderHelps(s);
    } else if s.run.AtRelease? && s.blockingsMutex.Caller? {
      RegistrantHelps(s);
    } else {
      RunApproaches(s, true);
    }
  }

  // ----- steps that do not help do no harm

  /** A step of another caller, or a new one: work comes closer, or the same thread is to take the helpful step. */
  predicate Harmless(s: State, s': State) {
    && s'.log.starts == s.log.starts && AwaitsWork(s') && Distance(s') <= Distance(s)
    && (Distance(s') < Distance(s) || Helpful(s') == Helpful(s))
  }

  lemma CallIsHarmless(s: State, t: nat, op: Operation)
    requires Inv(s) && AwaitsWork(s) && t !in s.callers
    ensures Harmless(s, Enter(s, t, op))
  {
  }

  lemma EnlistingCosts(s: State, t: nat)
    requires Inv(s) && AwaitsWork(s) && t in s.callers && s.callers[t].pc.AtRegister? && s.blockingsMutex == Nobody
    ensures var s' := LockBlockings(s, t);
            s'.log.starts == s.log.starts && AwaitsWork(s') && Distance(s') <= Distance(s) + 3
  {
    assert ThreadOk(s, t);
  }

  /** Nothing changes on which the helpful step or the distance depends. */
  predicate SameSituation(s: State, s': State) {
    && s'.log.starts == s.log.starts && s'.run == s.run && s'.tokens == s.tokens
    && s'.blockings == s.blockings && s'.blockingsMutex == s.blockingsMutex
    && (Sending(s') <==> Sending(s)) && (Sending(s) ==> s'.activeMutex == s.activeMutex)
    && HeldUp(s') == HeldUp(s) && Waiters(s') == Waiters(s)
  }

  lemma SameSituationIsHarmless(s: State, s': State)
    requires AwaitsWork(s) && SameSituation(s, s')
    ensures Harmless(s, s')
  {
  }

  lemma RegisterIsHarmless(s: State, t: nat)
    requires Global(s) && t in s.callers && PlaceOk(s, t) && AwaitsWork(s)
    requires s.callers[t].pc.Registering? || s.callers[t].pc.Registered?
    ensures Harmless(s, RegisterStep(s, t))
  {
  }

  lemma SwapIsHarmless(s: State, t: nat)
    requires Global(s) && t in s.callers && PlaceOk(s, t) && AwaitsWork(s) && s.callers[t].pc.Checked?
    ensures Harmless(s, SwapDone(s, t))
  {
    if !s.done { SameSituationIsHarmless(s, SwapDone(s, t)); }
  }

  lemma SendIsHarmless(s: State, t: nat)
    requires Global(s) && t in s.callers && PlaceOk(s, t) && AwaitsWork(s) && s.callers[t].pc.Swapped? && !s.closed
    ensures Harmless(s, Send(s, t))
  {
  }

  predicate IsPlain(pc: CallerPc) {
    !pc.Swapped? && !pc.Registering? && !pc.Registered?
  }

  // A caller moves on between two plain places.
  lemma MoveIsHarmless(s: State, s': State, t: nat, pc: CallerPc)
    requires AwaitsWork(s) && t in s.callers && s'.callers == Moved(s.callers, t, pc)
    requires IsPlain(s.callers[t].pc) && IsPlain(pc)
    requires s'.log.starts == s.log.starts && s'.run == s.run && s'.tokens == s.tokens
    requires s'.blockings == s.blockings && s'.blockingsMutex == s.blockingsMutex
    requires Sending(s) ==> s'.activeMutex == s.activeMutex
    requires s'.activeMutex == s.activeMutex || s'.activeMutex == Caller(t) || s'.activeMutex == Nobody
    ensures Harmless(s, s')
  {
    SameSituationIsHarmless(s, s');
  }

  lemma QueueIsHarmless(s: State, t: nat)
    requires Global(s) && t in s.callers && PlaceOk(s, t) && AwaitsWork(s) && Enabled(s, Step(t))
    requires s.callers[t].pc.AtQueue? || s.callers[t].pc.Entered? || s.callers[t].pc.Leaving?
    ensures Harmless(s, QueueStep(s, t))
  {
    MoveIsHarmless(s, QueueStep(s, t), t, QueueStep(s, t).callers[t].pc);
  }

  lemma CloseIsHarmless(s: State, t: nat)
    requires Global(s) && t in s.callers && PlaceOk(s, t) && AwaitsWork(s) && Enabled(s, Step(t))
    requires Closes(s.callers[t].pc) && !CloseStep(s, t).log.panicked
    ensures Harmless(s, CloseStep(s, t))
  {
    assert Sending(s) ==> s.activeMutex != Caller(t);
    match s.callers[t].pc
    case AtClose => MoveIsHarmless(s, LockActive(s, t, Closing), t, Closing);
    case Closing => MoveIsHarmless(s, ClearActive(s, t), t, Deactivated);
    case Deactivated => MoveIsHarmless(s, CloseLaunch(s, t), t, Closed);
    case Closed => MoveIsHarmless(s, CloseStep(s, t), t, if s.callers[t].op == ForceStop then Cancelling else Returned);
    case Cancelling => MoveIsHarmless(s, Finish(s, t, true), t, Returned);
  }

  lemma FinishIsHarmless(s: State, t: nat)
    requires AwaitsWork(s) && t in s.callers && s.callers[t].pc.Waiting?
    ensures Harmless(s, Finish(s, t, false))
  {
    MoveIsHarmless(s, Finish(s, t, false), t, Returned);
  }

  /** A step that is not one of Run, and does not lock blockingsMutex for one more waiter, does no harm. */
  lemma OthersAreHarmless(s: State, e: Event)
    requires Inv(s) && AwaitsWork(s) && Enabled(s, e) && !Next(s, e).log.panicked
    requires !e.RunStep? && !Enlists(s, e)
    ensures Harmless(s, Next(s, e))
  {
    match e
    case Call(t, op) => CallIsHarmless(s, t, op);
    case Step(t) =>
      assert ThreadOk(s, t);
      match s.callers[t].pc {
        case Registering => RegisterIsHarmless(s, t);
        case Registered => RegisterIsHarmless(s, t);
        case Waiting => FinishIsHarmless(s, t);
        case Checked => SwapIsHarmless(s, t);
        case Swapped => SendIsHarmless(s, t);
        case AtQueue => QueueIsHarmless(s, t);
        case Entered => QueueIsHarmless(s, t);
        case Leaving => QueueIsHarmless(s, t);
        case _ => CloseIsHarmless(s, t);
      }
  }

  // ----- every schedule

  function OneIf(b: bool): nat {
    if b then 1 else 0
  }

  /** What any step does on the way to work. */
  predicate Counts(s: State, e: Event, s': State) {
    && s'.log.starts >= s.log.starts
    && (s'.log.starts == s.log.starts ==>
          AwaitsWork(s') && Distance(s') + OneIf(Helps(s, e)) <= Distance(s) + 3 * OneIf(Enlists(s, e)))
  }

  lemma StepCounts(s: State, e: Event)
    requires Inv(s) && AwaitsWork(s) && Enabled(s, e) && !Next(s, e).log.panicked
    ensures Counts(s, e, Next(s, e))
  {
    if e.RunStep? {
      RunApproaches(s, e.ok);
    } else if e == Helpful(s) {
      HelpfulHelps(s);
    } else if Enlists(s, e) {
      EnlistingCosts(s, e.caller);
    } else {
      OthersAreHarmless(s, e);
    }
  }

  /** How many steps of the run, from event n on, are steps of the thread whose next step is helpful. */
  ghost function HelpfulSteps(events: seq<Event>, n: nat): nat
    requires IsRun(events)
    decreases |events|
  {
    if |events| <= n then 0
    else
      var before := events[..|events| - 1];
      HelpfulSteps(before, n) + OneIf(Helps(After(before), events[|events| - 1]))
  }

  /** How many callers begin to register a waiter, from event n of the run on. */
  ghost function Enlistings(events: seq<Event>, n: nat): nat
    requires IsRun(events)
    decreases |events|
  {
    if |events| <= n then 0
    else
      var before := events[..|events| - 1];
      Enlistings(before, n) + OneIf(Enlists(After(before), events[|events| - 1]))
  }

  /** Some step of the run, from event n on, has called work. */
  ghost predicate WorkCalled(events: seq<Event>, n: nat)
    requires IsRun(events)
    decreases |events|
  {
    && |events| > n
    && (WorkCalled(events[..|events| - 1], n)
        || After(events).log.starts > After(events[..|events| - 1]).log.starts)
  }

  /** The helpful steps since events have brought work closer, except for what new waiters cost. */
  ghost predicate Paid(events: seq<Event>, later: seq<Event>)
    requires IsRun(events) && IsRun(later)
  {
    && AwaitsWork(After(later))
    && HelpfulSteps(later, |events|) + Distance(After(later))
       <= Distance(After(events)) + 3 * Enlistings(later, |events|)
  }

  /**
   * Whatever the schedule, work is called before the threads on the way to it have taken more than a bounded number of
   * steps, where every waiter registered in the meantime adds three. As the helpful step can always be taken and stays
   * helpful while others move, work follows a request in every fair schedule with finitely many registrations.
   */
  lemma {:induction false} EveryScheduleReachesWork(events: seq<Event>, later: seq<Event>)
    requires IsRun(events) && IsRun(later) && events <= later && !After(later).log.panicked
    requires AwaitsWork(After(events))
    ensures WorkCalled(later, |events|) || Paid(events, later)
    decreases |later|
  {
    if later != events {
      var before, e := later[..|later| - 1], later[|later| - 1];
      EveryScheduleReachesWork(events, before);
      if Paid(events, before) {
        RunsKeepInv(before);
        StepCounts(After(before), e);
      }
    }
  }

  lemma Take(events: seq<Event>, e: Event)
    requires IsRun(events) && Enabled(After(events), e)
    ensures IsRun(events + [e]) && After(events + [e]) == Next(After(events), e)
  {
    assert (events + [e])[..|events|] == events;
  }

  /**
   * In particular, from every reachable state with a request under way, short of a panic, the threads that are already
   * there can reach the next call of work within a bounded number of steps.
   */
  lemma {:induction false} WorkFollows(events: seq<Event>) returns (later: seq<Event>)
    requires IsRun(events) && !After(events).log.panicked && AwaitsWork(After(events))
    ensures events <= later && |later| <= |events| + Distance(After(events))
    ensures Distance(After(events)) <= |After(events).blockings| + 13
    ensures forall i :: |events| <= i < |later| ==> !later[i].Call?
    ensures IsRun(later) && After(later).log.starts > After(events).log.starts
    decreases Distance(After(events))
  {
    var s := After(events);
    RunsKeepInv(events);
    HelpfulHelps(s);
    Take(events, Helpful(s));
    later := events + [Helpful(s)];
    if After(later).log.starts == s.log.starts {
      later := WorkFollows(later);
    }
  }}
