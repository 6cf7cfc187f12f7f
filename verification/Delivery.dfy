/**
 * The counterpart of posting at most once: a mail whose Matrix id is stored was posted under the head that its thread
 * has now, unless its id is about to be cleared. The runs are those of Posting, and m is always one mail.
 */
module Delivery {
  import opened Options
  import opened Posting

  /** A move or a redaction is about to clear the Matrix ids of the mails of thread h. */
  ghost predicate Cleaning(s: State, h: nat) {
    (exists v :: v in s.movers && s.movers[v] == MoveMails(h)) || s.worker == Redacting(h) || s.worker == Redacted(h)
  }

  /** Thread h has a head, and m was posted under it. */
  predicate Shown(s: State, m: nat, h: nat) {
    h in s.head && s.head[h].Some? && (m, s.head[h].value) in s.posts
  }

  predicate InThread(s: State, m: nat) {
    m in s.threadOf && s.threadOf[m].Some?
  }

  /** The database says that m is posted, but it was not posted under the head of its thread, and never will be. */
  ghost predicate Missing(s: State, m: nat) {
    && m in s.stored && InThread(s, m)
    && var h := s.threadOf[m].value;
    && h in s.head && s.head[h].Some? && !Shown(s, m, h) && !Cleaning(s, h)
  }

  /** The step stores the id of m, as the worker or as a manual reply. */
  predicate Stores(s: State, e: Event, m: nat) {
    e == StoreId(m) || (e.StoreMail? && JustPosted(s.worker, m))
  }

  /**
   * The steps that leave m behind: its id is stored although m is not shown under the head of its thread, or the last
   * statement of a move clears that head while the id is stored; in both cases the id is not about to be cleared.
   */
  ghost predicate LeavesBehind(s: State, e: Event, m: nat) {
    InThread(s, m) &&
    var h := s.threadOf[m].value;
    && !Cleaning(s, h)
    && ((Stores(s, e, m) && m !in s.stored && !Shown(s, m, h))
        || (e.StepMove? && e.mover in s.movers && s.movers[e.mover] == MoveRoom(h) && m in s.stored))
  }

  // ----- the invariant for one mail

  /** If the id of m is stored, m is shown under the head of its thread, or the id is about to be cleared. */
  ghost predicate Delivered(s: State, m: nat) {
    m in s.stored ==>
      InThread(s, m) && (Cleaning(s, s.threadOf[m].value) || Shown(s, m, s.threadOf[m].value))
  }

  /** What is posted, or about to be, or stored, belongs to a thread. */
  predicate ThreadKnown(s: State, m: nat) {
    && (InThread(s, m) ==> s.threadOf[m].value in s.head)
    && (m in s.pending || JustPosted(s.worker, m) ==> InThread(s, m))
    && forall k :: 0 <= k < |Waiting(s.worker)| && Waiting(s.worker)[k].mail == m ==> InThread(s, m)
  }

  ghost predicate Inv(s: State, m: nat) {
    HeadsOk(s) && ThreadKnown(s, m) && Delivered(s, m)
  }

  // ----- every step that does not leave m behind keeps the invariant

  lemma ThreadStaysKnown(s: State, e: Event, m: nat)
    requires ThreadKnown(s, m) && Enabled(s, e)
    ensures ThreadKnown(Next(s, e), m)
  {
    var before, after := Waiting(s.worker), Waiting(Next(s, e).worker);
    if e.FetchMails? {
      assert forall k :: 0 <= k < |after| ==> ReadyRow(s, after[k]);
    } else {
      assert after == [] || after == before || after == before[1..];
    }
    assert e.PostMail? ==> Next(s, e).worker.row == before[0];
  }

  lemma CleaningLasts(s: State, e: Event, h: nat)
    requires Enabled(s, e) && Cleaning(s, h) && !Clears(s, e, h)
    ensures Cleaning(Next(s, e), h)
  {
    if v :| v in s.movers && s.movers[v] == MoveMails(h) {
      assert v in Next(s, e).movers && Next(s, e).movers[v] == MoveMails(h);
    }
  }

  // The ids of the mails of thread h are cleared by this step.
  predicate Clears(s: State, e: Event, h: nat) {
    || (e.StepMove? && e.mover in s.movers && s.movers[e.mover] == MoveMails(h))
    || (e.StepRedact? && s.worker == Redacted(h))
  }

  lemma StaysDelivered(s: State, e: Event, m: nat)
    requires Inv(s, m) && Enabled(s, e) && !LeavesBehind(s, e, m)
    ensures Delivered(Next(s, e), m)
  {
    if InThread(s, m) {
      var h := s.threadOf[m].value;
      if Clears(s, e, h) {
        assert m !in Next(s, e).stored;
      } else if Cleaning(s, h) {
        CleaningLasts(s, e, h);
      } else {
        StaysWithHead(s, e, m, h);
      }
    }
  }

  // No clearing is on its way: the head under which m was posted stays, or a move begins, or nothing is stored.
  lemma StaysWithHead(s: State, e: Event, m: nat, h: nat)
    requires Inv(s, m) && Enabled(s, e) && !LeavesBehind(s, e, m)
    requires m in s.threadOf && s.threadOf[m] == Some(h) && !Cleaning(s, h)
    ensures Delivered(Next(s, e), m)
  {
    assert HeadOk(s, h);
    if e.StepMove? && s.movers[e.mover] == MoveHead(h) {
      assert Next(s, e).movers[e.mover] == MoveMails(h);
    }
  }

  /** Every step that does not leave m behind keeps m shown under the head of its thread, or due for clearing. */
  lemma StepKeepsInv(s: State, e: Event, m: nat)
    requires Inv(s, m) && Enabled(s, e) && !LeavesBehind(s, e, m)
    ensures Inv(Next(s, e), m)
  {
    HeadsStayOk(s, e);
    ThreadStaysKnown(s, e, m);
    StaysDelivered(s, e, m);
  }

  // ----- whole runs

  /** From event n of the run on, no step leaves m behind. */
  ghost predicate CarriesFrom(events: seq<Event>, n: nat, m: nat)
    requires IsRun(events)
    decreases |events|
  {
    |events| <= n
    || (var before := events[..|events| - 1];
        var e := events[|events| - 1];
        CarriesFrom(before, n, m) && !LeavesBehind(After(before), e, m))
  }

  lemma {:induction false} RunsKeepInv(events: seq<Event>, m: nat)
    requires IsRun(events) && CarriesFrom(events, 0, m)
    ensures Inv(After(events), m)
    decreases |events|
  {
    if events != [] {
      RunsKeepInv(events[..|events| - 1], m);
      StepKeepsInv(After(events[..|events| - 1]), events[|events| - 1], m);
    }
  }

  /**
   * As long as no step leaves m behind, m is not missing: if its id is stored and its thread has a head, then m was
   * posted under this head, or its id is about to be cleared.
   */
  lemma NothingIsMissing(events: seq<Event>, m: nat)
    requires IsRun(events) && CarriesFrom(events, 0, m)
    ensures !Missing(After(events), m)
  {
    RunsKeepInv(events, m);
  }

  // ----- a mail that is left behind can be missing

  /** The id of m is stored and not about to be cleared, but m is not shown under the head of thread h, if any. */
  ghost predicate Left(s: State, m: nat, h: nat) {
    && m in s.stored && m in s.threadOf && s.threadOf[m] == Some(h) && h in s.head
    && !Cleaning(s, h) && !Shown(s, m, h) && HeadsOk(s)
  }

  lemma LeavingLeaves(s: State, e: Event, m: nat)
    requires Inv(s, m) && Enabled(s, e) && LeavesBehind(s, e, m)
    ensures Left(Next(s, e), m, s.threadOf[m].value)
  {
    HeadsStayOk(s, e);
  }

  lemma WindKeepsLeft(s: State, m: nat, h: nat)
    requires Left(s, m, h) && !s.worker.Idle?
    ensures Enabled(s, Wind(s.worker)) && !LeavesBehind(s, Wind(s.worker), m)
    ensures Left(Next(s, Wind(s.worker)), m, h) && Rank(Next(s, Wind(s.worker)).worker) < Rank(s.worker)
  {
    HeadsStayOk(s, Wind(s.worker));
    assert forall i :: 0 <= i < |s.posts| ==> HeadKnown(s, s.posts[i].1);
  }

  // Run extended by one event that does not leave m behind.
  lemma Extend(events: seq<Event>, n: nat, e: Event, m: nat) returns (later: seq<Event>)
    requires IsRun(events) && CarriesFrom(events, n, m) && Enabled(After(events), e)
    requires !LeavesBehind(After(events), e, m)
    ensures later == events + [e] && IsRun(later) && After(later) == Next(After(events), e) && CarriesFrom(later, n, m)
  {
    later := Also(events, e);
    assert later[..|later| - 1] == events;
  }

  // Whatever pass is under way ends.
  lemma {:induction false} WorkerStops(events: seq<Event>, n: nat, m: nat, h: nat) returns (later: seq<Event>)
    requires IsRun(events) && CarriesFrom(events, n, m) && Left(After(events), m, h)
    ensures events <= later && IsRun(later) && CarriesFrom(later, n, m)
    ensures After(later).worker.Idle? && Left(After(later), m, h)
    decreases Rank(After(events).worker)
  {
    later := events;
    if !After(events).worker.Idle? {
      WindKeepsLeft(After(events), m, h);
      later := Extend(events, n, Wind(After(events).worker), m);
      later := WorkerStops(later, n, m, h);
    }
  }

  lemma {:induction false} FreshHead(heads: set<nat>) returns (id: nat)
    ensures forall other :: other in heads ==> other < id
  {
    id := 0;
    if other :| other in heads {
      id := FreshHead(heads - {other});
      id := if id <= other then other + 1 else id;
      assert heads == heads - {other} + {other};
    }
  }

  // The next pass gives the thread a head if it has none, and m was not posted under it.
  lemma PassMisses(events: seq<Event>, n: nat, m: nat, h: nat) returns (later: seq<Event>)
    requires IsRun(events) && CarriesFrom(events, n, m) && After(events).worker.Idle? && Left(After(events), m, h)
    ensures events <= later && IsRun(later) && CarriesFrom(later, n, m) && Missing(After(later), m)
  {
    later := events;
    if After(events).head[h].None? {
      var id := FreshHead(After(events).heads);
      later := Extend(later, n, BeginPass([h]), m);
      later := Extend(later, n, PostHead(id), m);
      assert forall i :: 0 <= i < |After(events).posts| ==> HeadKnown(After(events), After(events).posts[i].1);
      later := Extend(later, n, StoreHead, m);
    }
  }

  /** A run that carries m, after which e can happen. */
  ghost predicate CanStep(events: seq<Event>, e: Event, m: nat) {
    IsRun(events) && CarriesFrom(events, 0, m) && Enabled(After(events), e)
  }

  /** The run goes on with e, and no later step leaves m behind. */
  ghost predicate GoesOn(events: seq<Event>, e: Event, m: nat, later: seq<Event>) {
    IsRun(later) && events + [e] <= later && CarriesFrom(later, |events| + 1, m)
  }

  lemma {:induction false} CarriesJoin(events: seq<Event>, later: seq<Event>, m: nat)
    requires IsRun(events) && IsRun(later) && events <= later
    requires CarriesFrom(events, 0, m) && CarriesFrom(later, |events|, m)
    ensures CarriesFrom(later, 0, m)
    decreases |later|
  {
    if |later| > |events| {
      CarriesJoin(events, later[..|later| - 1], m);
    } else {
      assert later == events;
    }
  }

  lemma CarriedIsNotMissing(events: seq<Event>, e: Event, m: nat, later: seq<Event>)
    requires CanStep(events, e, m) && !LeavesBehind(After(events), e, m) && GoesOn(events, e, m, later)
    ensures !Missing(After(later), m)
  {
    var next := Extend(events, 0, e, m);
    CarriesJoin(next, later, m);
    NothingIsMissing(later, m);
  }

  lemma LeftIsMissing(events: seq<Event>, e: Event, m: nat) returns (later: seq<Event>)
    requires CanStep(events, e, m) && LeavesBehind(After(events), e, m)
    ensures GoesOn(events, e, m, later) && Missing(After(later), m)
  {
    var n, h := |events| + 1, After(events).threadOf[m].value;
    RunsKeepInv(events, m);
    LeavingLeaves(After(events), e, m);
    later := Also(events, e);
    later := WorkerStops(later, n, m, h);
    later := PassMisses(later, n, m, h);
  }

  /** The next step leaves m behind if and only if m can then be missing although no later step leaves it behind. */
  lemma LeavingIsExact(events: seq<Event>, e: Event, m: nat)
    requires CanStep(events, e, m)
    ensures LeavesBehind(After(events), e, m) <==>
              exists later :: GoesOn(events, e, m, later) && Missing(After(later), m)
  {
    if LeavesBehind(After(events), e, m) {
      var later := LeftIsMissing(events, e, m);
    } else {
      forall later | GoesOn(events, e, m, later) ensures !Missing(After(later), m) {
        CarriedIsNotMissing(events, e, m, later);
      }
    }
  }

  // ----- a mail that is left behind

  // A move clears the head and the mails' ids of thread 1, then a pass begins.
  lemma MoveClearsIds() returns (events: seq<Event>)
    ensures IsRun(events)
    ensures After(events) == State(map[1 := None], map[0 := Some(1)], {}, Heads([1]), map[0 := MoveRoom(1)], {1}, [])
  {
    events := MoveBegins();
    events := Also(events, StepMove(0));
    events := Also(events, StepMove(0));
    events := Also(events, BeginPass([1]));
  }

  // It gives the thread head 2.
  lemma HeadBeforeRoom() returns (events: seq<Event>)
    ensures IsRun(events)
    ensures After(events)
            == State(map[1 := Some(2)], map[0 := Some(1)], {}, Heads([]), map[0 := MoveRoom(1)], {1, 2}, [])
  {
    events := MoveClearsIds();
    events := Also(events, PostHead(2));
    assert After(events).worker == HeadPosted(1, 2, []) && After(events).heads == {1, 2};
    events := Also(events, StoreHead);
  }

  // It posts the mail under head 2.
  lemma MailBeforeRoom() returns (events: seq<Event>)
    ensures IsRun(events)
    ensures After(events)
            == State(map[1 := Some(2)], map[0 := Some(1)], {0}, Mails([]), map[0 := MoveRoom(1)], {1, 2}, [(0, 2)])
  {
    events := HeadBeforeRoom();
    assert ReadyRow(After(events), Row(0, 1, 2));
    events := Also(events, FetchMails([Row(0, 1, 2)]));
    events := Also(events, PostMail);
    assert After(events).worker == MailPosted(Row(0, 1, 2), []);
    events := Also(events, StoreMail);
  }

  /** A pass between the last two statements of MoveThread: the mail is never posted in the new room. */
  lemma MoveCanLoseMail()
    ensures exists events :: IsRun(events) && Missing(After(events), 0)
  {
    var events := MailBeforeRoom();
    events := Also(events, EndPass);
    assert LeavesBehind(After(events), StepMove(0), 0);
    events := Also(events, StepMove(0));
    events := PassMisses(events, |events|, 0, 1);
  }

  // A mail is posted under head 1 while a move of its thread begins.
  lemma PostedDuringMove() returns (events: seq<Event>)
    ensures IsRun(events)
    ensures After(events)
            == State(map[1 := Some(1)], map[0 := Some(1)], {}, MailPosted(Row(0, 1, 1), []), map[0 := MoveHead(1)], {1},
                     [(0, 1)])
  {
    events := HeadIsPosted();
    assert ReadyRow(After(events), Row(0, 1, 1));
    events := Also(events, FetchMails([Row(0, 1, 1)]));
    events := Also(events, PostMail);
    assert After(events).worker == MailPosted(Row(0, 1, 1), []);
    events := Also(events, BeginMove(0, 1));
  }

  /** The id of a mail is stored only after MoveThread has cleared the ids: again it is never posted in the new room. */
  lemma LateIdCanLoseMail()
    ensures exists events :: IsRun(events) && Missing(After(events), 0)
  {
    var events := PostedDuringMove();
    events := Also(events, StepMove(0));
    events := Also(events, StepMove(0));
    assert LeavesBehind(After(events), StoreMail, 0);
    events := Also(events, StoreMail);
    events := Also(events, EndPass);
    events := PassMisses(events, |events|, 0, 1);
  }
}
