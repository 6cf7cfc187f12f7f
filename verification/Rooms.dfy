/**
 * In which room a thread lives while passes and moves run as in Posting. CreateThread sends a head to the room that the
 * pass has read for the thread, or else to one that the configuration yields, and UpdateThreadMatrixIds writes the room
 * back together with the head.
 */
module Rooms {
  import opened Options
  import opened Posting
  import Delivery

  /** An event of Posting, with the room that BeginMove aims at, or that StoreHead gets from the configuration. */
  datatype Labelled = Labelled(event: Event, room: nat)

  datatype RoomState = RoomState(
    room: map<nat, Option<nat>>, // thread.matrix_room_id
    read: map<nat, Option<nat>>, // the rooms of the threads in the rows of the pass
    target: map<nat, nat>)       // the room that a move aims at

  function Events(run: seq<Labelled>): (events: seq<Event>)
    ensures |events| == |run|
  {
    if run == [] then [] else Events(run[..|run| - 1]) + [run[|run| - 1].event]
  }

  function RoomOf(r: RoomState, h: nat): Option<nat> {
    if h in r.room then r.room[h] else None
  }

  function ReadRoom(r: RoomState, h: nat): Option<nat> {
    if h in r.read then r.read[h] else None
  }

  function Target(r: RoomState, v: nat): nat {
    if v in r.target then r.target[v] else 0
  }

  function NextRooms(s: State, r: RoomState, x: Labelled): RoomState
    requires Enabled(s, x.event)
  {
    match x.event
    case BeginMove(v, _) => r.(target := r.target[v := x.room])
    case StepMove(v) =>
      if s.movers[v].MoveRoom? then r.(room := r.room[s.movers[v].thread := Some(Target(r, v))]) else r
    case BeginPass(threads) => r.(read := map h | h in threads :: RoomOf(r, h))
    case StoreHead =>
      var h := s.worker.thread;
      r.(room := r.room[h := if ReadRoom(r, h).Some? then ReadRoom(r, h) else Some(x.room)])
    case _ => r
  }

  ghost function After(run: seq<Labelled>): State
    requires IsRun(Events(run))
  {
    Posting.After(Events(run))
  }

  ghost function RoomsAfter(run: seq<Labelled>): RoomState
    requires IsRun(Events(run))
    decreases |run|
  {
    if run == [] then RoomState(map[], map[], map[])
    else
      var before := run[..|run| - 1];
      assert Events(run)[..|run| - 1] == Events(before);
      NextRooms(After(before), RoomsAfter(before), run[|run| - 1])
  }

  lemma Take(run: seq<Labelled>, x: Labelled) returns (later: seq<Labelled>)
    requires IsRun(Events(run)) && Enabled(After(run), x.event)
    ensures later == run + [x] && IsRun(Events(later))
    ensures After(later) == Next(After(run), x.event) && RoomsAfter(later) == NextRooms(After(run), RoomsAfter(run), x)
  {
    later := run + [x];
    assert later[..|run|] == run && Events(later) == Events(run) + [x.event];
    Posting.Take(Events(run), x.event);
  }

  /** From event n of the run on, no move of thread h executes its last statement. */
  ghost predicate StaysFrom(run: seq<Labelled>, n: nat, h: nat)
    requires IsRun(Events(run))
    decreases |run|
  {
    |run| <= n
    || (var before := run[..|run| - 1];
        assert Events(run)[..|run| - 1] == Events(before);
        StaysFrom(before, n, h) && !EndsMove(After(before), run[|run| - 1].event, h))
  }

  /** The last statement of a move of thread h. */
  predicate EndsMove(s: State, e: Event, h: nat) {
    e.StepMove? && e.mover in s.movers && s.movers[e.mover] == MoveRoom(h)
  }

  // ----- a thread that stays

  /** Thread h is in room, and the pass under way will not send its head to another one. */
  predicate Settled(s: State, r: RoomState, h: nat, room: nat) {
    RoomOf(r, h) == Some(room) && (h in Headless(s.worker) ==> ReadRoom(r, h) == Some(room))
  }

  lemma StepKeepsSettled(s: State, r: RoomState, x: Labelled, h: nat, room: nat)
    requires Enabled(s, x.event) && Settled(s, r, h, room) && !EndsMove(s, x.event, h)
    ensures Settled(Next(s, x.event), NextRooms(s, r, x), h, room)
  {
  }

  lemma {:induction false} StaysSettled(run: seq<Labelled>, later: seq<Labelled>, h: nat, room: nat)
    requires IsRun(Events(run)) && IsRun(Events(later)) && run <= later && StaysFrom(later, |run|, h)
    requires Settled(After(run), RoomsAfter(run), h, room)
    ensures Settled(After(later), RoomsAfter(later), h, room)
    decreases |later|
  {
    if later == run {
    } else {
      var before := later[..|later| - 1];
      assert Events(later)[..|later| - 1] == Events(before);
      StaysSettled(run, before, h, room);
      StepKeepsSettled(After(before), RoomsAfter(before), later[|later| - 1], h, room);
    }
  }

  // ----- a thread that is moved back

  // The run extended by one event.
  lemma Extend(run: seq<Labelled>, n: nat, x: Labelled, h: nat) returns (later: seq<Labelled>)
    requires IsRun(Events(run)) && StaysFrom(run, n, h) && Enabled(After(run), x.event)
    requires !EndsMove(After(run), x.event, h)
    ensures later == run + [x] && IsRun(Events(later)) && StaysFrom(later, n, h)
    ensures After(later) == Next(After(run), x.event) && RoomsAfter(later) == NextRooms(After(run), RoomsAfter(run), x)
  {
    later := Take(run, x);
    assert later[..|later| - 1] == run;
  }

  /** The pass under way is about to give thread h a head in another room. */
  predicate AboutToMoveBack(s: State, r: RoomState, h: nat, room: nat) {
    h in Headless(s.worker) && ReadRoom(r, h) != Some(room)
  }

  /** A run that moves nothing from event n on, in the middle of a pass that is about to move h back. */
  ghost predicate MovesBack(run: seq<Labelled>, n: nat, h: nat, room: nat) {
    IsRun(Events(run)) && StaysFrom(run, n, h) && AboutToMoveBack(After(run), RoomsAfter(run), h, room)
  }

  /** A run that moves nothing from event n on, after which h is in another room. */
  ghost predicate MovedBack(run: seq<Labelled>, n: nat, h: nat, room: nat) {
    IsRun(Events(run)) && StaysFrom(run, n, h) && RoomOf(RoomsAfter(run), h) != Some(room)
  }

  // The next head is posted.
  lemma HeadFollows(run: seq<Labelled>, n: nat, h: nat, room: nat) returns (later: seq<Labelled>)
    requires MovesBack(run, n, h, room) && After(run).worker.Heads?
    ensures run <= later && MovesBack(later, n, h, room) && After(later).worker.HeadPosted?
    ensures |Headless(After(later).worker)| == |Headless(After(run).worker)|
  {
    var id := Delivery.FreshHead(After(run).heads);
    later := Extend(run, n, Labelled(PostHead(id), 0), h);
    assert Headless(After(later).worker) == After(run).worker.threads;
  }

  lemma StoringMovesBack(s: State, r: RoomState, h: nat, room: nat)
    requires AboutToMoveBack(s, r, h, room) && s.worker.HeadPosted?
    ensures var s', r' := Next(s, StoreHead), NextRooms(s, r, Labelled(StoreHead, room + 1));
            if s.worker.thread == h then RoomOf(r', h) != Some(room)
            else AboutToMoveBack(s', r', h, room) && |Headless(s'.worker)| < |Headless(s.worker)|
  {
  }

  // It is stored, and with it the room of its thread.
  lemma HeadIsStored(run: seq<Labelled>, n: nat, h: nat, room: nat) returns (later: seq<Labelled>)
    requires MovesBack(run, n, h, room) && After(run).worker.HeadPosted?
    ensures run <= later
    ensures MovedBack(later, n, h, room)
            || (MovesBack(later, n, h, room) && |Headless(After(later).worker)| < |Headless(After(run).worker)|)
  {
    StoringMovesBack(After(run), RoomsAfter(run), h, room);
    later := Extend(run, n, Labelled(StoreHead, room + 1), h);
  }

  // The pass gives the threads their heads, up to h.
  lemma {:induction false} PassMovesBack(run: seq<Labelled>, n: nat, h: nat, room: nat) returns (later: seq<Labelled>)
    requires MovesBack(run, n, h, room)
    ensures run <= later && MovedBack(later, n, h, room)
    decreases |Headless(After(run).worker)|
  {
    later := run;
    if After(run).worker.Heads? {
      later := HeadFollows(run, n, h, room);
    }
    later := HeadIsStored(later, n, h, room);
    if !MovedBack(later, n, h, room) {
      later := PassMovesBack(later, n, h, room);
    }
  }

  /** Mover v is about to execute the last statement of a move of thread h. */
  ghost predicate AtEnd(run: seq<Labelled>, v: nat, h: nat) {
    IsRun(Events(run)) && v in After(run).movers && After(run).movers[v] == MoveRoom(h)
  }

  /** The run goes on with this statement, and after that without another move of h executing its last one. */
  ghost predicate GoesOn(run: seq<Labelled>, v: nat, h: nat, later: seq<Labelled>) {
    IsRun(Events(later)) && run + [Labelled(StepMove(v), 0)] <= later && StaysFrom(later, |run| + 1, h)
  }

  /** At the end of the run thread h is in the room that the move of v aimed at. */
  ghost predicate Lasts(run: seq<Labelled>, v: nat, h: nat, later: seq<Labelled>)
    requires IsRun(Events(run)) && IsRun(Events(later))
  {
    RoomOf(RoomsAfter(later), h) == Some(Target(RoomsAfter(run), v))
  }

  lemma MoveLasts(run: seq<Labelled>, v: nat, h: nat, later: seq<Labelled>)
    requires AtEnd(run, v, h) && GoesOn(run, v, h, later)
    requires !AboutToMoveBack(After(run), RoomsAfter(run), h, Target(RoomsAfter(run), v))
    ensures Lasts(run, v, h, later)
  {
    var next := Take(run, Labelled(StepMove(v), 0));
    StaysSettled(next, later, h, Target(RoomsAfter(run), v));
  }

  lemma MoveIsUndone(run: seq<Labelled>, v: nat, h: nat) returns (later: seq<Labelled>)
    requires AtEnd(run, v, h) && AboutToMoveBack(After(run), RoomsAfter(run), h, Target(RoomsAfter(run), v))
    ensures GoesOn(run, v, h, later) && !Lasts(run, v, h, later)
  {
    later := Take(run, Labelled(StepMove(v), 0));
    later := PassMovesBack(later, |later|, h, Target(RoomsAfter(run), v));
  }

  /**
   * A move lasts, whatever happens until another move of the thread ends, if and only if at its last statement the pass
   * under way, if any, is not about to give the thread a head in another room than the one the move aims at.
   */
  lemma MoveLastsExactly(run: seq<Labelled>, v: nat, h: nat)
    requires AtEnd(run, v, h)
    ensures !AboutToMoveBack(After(run), RoomsAfter(run), h, Target(RoomsAfter(run), v)) <==>
              forall later :: GoesOn(run, v, h, later) ==> Lasts(run, v, h, later)
  {
    if AboutToMoveBack(After(run), RoomsAfter(run), h, Target(RoomsAfter(run), v)) {
      var later := MoveIsUndone(run, v, h);
    } else {
      forall later | GoesOn(run, v, h, later) ensures Lasts(run, v, h, later) {
        MoveLasts(run, v, h, later);
      }
    }
  }

  // A thread is given a head in room 5.
  lemma ThreadGetsRoom() returns (run: seq<Labelled>)
    ensures IsRun(Events(run))
    ensures After(run) == State(map[1 := Some(1)], map[], {}, Heads([]), map[], {1}, [])
    ensures RoomsAfter(run) == RoomState(map[1 := Some(5)], map[1 := None], map[])
  {
    run := HeadIsPosted();
    run := Take(run, Labelled(StoreHead, 5));
  }

  lemma HeadIsPosted() returns (run: seq<Labelled>)
    ensures IsRun(Events(run))
    ensures After(run) == State(map[1 := None], map[], {}, HeadPosted(1, 1, []), map[], {1}, [])
    ensures RoomsAfter(run) == RoomState(map[], map[1 := None], map[])
  {
    run := Take([], Labelled(NewThread(1), 0));
    run := Take(run, Labelled(BeginPass([1]), 0));
    run := Take(run, Labelled(PostHead(1), 0));
    assert After(run).worker == HeadPosted(1, 1, []);
  }

  // A move of the thread to room 7 begins.
  lemma MoveBegins() returns (run: seq<Labelled>)
    ensures IsRun(Events(run))
    ensures After(run) == State(map[1 := Some(1)], map[], {}, Idle, map[0 := MoveHead(1)], {1}, [])
    ensures RoomsAfter(run) == RoomState(map[1 := Some(5)], map[1 := None], map[0 := 7])
  {
    run := ThreadGetsRoom();
    run := Take(run, Labelled(FetchMails([]), 0));
    run := Take(run, Labelled(EndPass, 0));
    run := Take(run, Labelled(BeginMove(0, 1), 7));
  }

  // It clears the head.
  lemma MoveClearsHead() returns (run: seq<Labelled>)
    ensures IsRun(Events(run))
    ensures After(run) == State(map[1 := None], map[], {}, Idle, map[0 := MoveMails(1)], {1}, [])
    ensures RoomsAfter(run) == RoomState(map[1 := Some(5)], map[1 := None], map[0 := 7])
  {
    run := MoveBegins();
    run := Take(run, Labelled(StepMove(0), 0));
  }

  // A pass reads the thread.
  lemma PassBegins() returns (run: seq<Labelled>)
    ensures IsRun(Events(run))
    ensures After(run) == State(map[1 := None], map[], {}, Heads([1]), map[0 := MoveMails(1)], {1}, [])
    ensures RoomsAfter(run) == RoomState(map[1 := Some(5)], map[1 := Some(5)], map[0 := 7])
  {
    run := MoveClearsHead();
    run := Take(run, Labelled(BeginPass([1]), 0));
    assert RoomsAfter(run).read == map[1 := Some(5)];
  }

  // The move clears the ids of its mails.
  lemma PassReadsRoom() returns (run: seq<Labelled>)
    ensures IsRun(Events(run))
    ensures After(run) == State(map[1 := None], map[], {}, Heads([1]), map[0 := MoveRoom(1)], {1}, [])
    ensures RoomsAfter(run) == RoomState(map[1 := Some(5)], map[1 := Some(5)], map[0 := 7])
  {
    run := PassBegins();
    run := Take(run, Labelled(StepMove(0), 0));
  }

  /** A pass that has read the thread before the move ends, and stores the head after that, undoes the move. */
  lemma MoveCanBeUndone()
    ensures exists run, later :: AtEnd(run, 0, 1) && GoesOn(run, 0, 1, later) && !Lasts(run, 0, 1, later)
  {
    var run := PassReadsRoom();
    var later := MoveIsUndone(run, 0, 1);
  }
}
