/**
 * Posting to Matrix: the work closure of internal/app/matrixnotifications.go, interleaved with MoveThread of
 * internal/app/app.go and with the rest of the system. Every SQL statement and every message sent is one step.
 */
module Posting {

  import opened Options

  /** A row of GetMatrixReadyMails: a mail without Matrix id, its thread, and the head of the thread at that time. */
  datatype Row = Row(mail: nat, thread: nat, head: nat)

  datatype Worker =
    | Idle
    | Heads(threads: seq<nat>)                          // rows of GetMatrixReadyThreads still to be posted
    | HeadPosted(thread: nat, head: nat, threads: seq<nat>) // a head is posted but not yet stored
    | Mails(rows: seq<Row>)                             // rows of GetMatrixReadyMails still to be posted
    | MailPosted(row: Row, rows: seq<Row>)              // a mail is posted but its id not yet stored
    | Redacting(thread: nat)                            // RemoveMatrixMessageIdsOfThread: about to clear the head
    | Redacted(thread: nat)                             // about to clear the mails' ids

  /** MoveThread: about to clear the head, the mails' ids, and the head once more together with the new room. */
  datatype Mover = MoveHead(thread: nat) | MoveMails(thread: nat) | MoveRoom(thread: nat)

  datatype State = State(
    head: map<nat, Option<nat>>,        // thread.matrix_id
    threadOf: map<nat, Option<nat>>,    // mail.thread
    stored: set<nat>,                   // mails whose matrix_id is not NULL
    worker: Worker,
    movers: map<nat, Mover>,
    // history
    heads: set<nat>,                    // all heads ever posted
    posts: seq<(nat, nat)>,             // mail and head of every mail ever posted, by a pass or as a manual reply
    pending: set<nat> := {})            // manual replies whose id is still to be stored

  datatype Event =
    | NewThread(thread: nat)
    | NewMail(mail: nat)
    | JoinThread(mail: nat, thread: nat)      // sorting puts an unsorted mail into a thread
    | Reply(mail: nat, original: nat, head: nat) // AddMailToThread for a reply sent as a message under head
    | StoreId(mail: nat)                      // UpdateMailMatrixId with the id of that message
    | BeginMove(mover: nat, thread: nat)
    | StepMove(mover: nat)
    | BeginPass(threads: seq<nat>)            // GetMatrixReadyThreads
    | PostHead(head: nat)
    | FailHead                                // sending the head fails
    | StoreHead
    | FetchMails(rows: seq<Row>)              // GetMatrixReadyMails
    | SkipMail                                // the thread still has mails that are not extracted
    | PostMail
    | FailMail                                // sending the mail fails
    | FindRedacted                            // the thread head turns out to be redacted
    | StepRedact
    | StoreMail
    | EndPass

  predicate ReadyRow(s: State, row: Row) {
    row.mail in s.threadOf && s.threadOf[row.mail] == Some(row.thread) && row.mail !in s.stored
    && row.thread in s.head && s.head[row.thread] == Some(row.head)
  }

  predicate Enabled(s: State, e: Event) {
    match e
    case NewThread(h) => h !in s.head
    case NewMail(m) => m !in s.threadOf
    case JoinThread(m, h) => m in s.threadOf && s.threadOf[m].None? && h in s.head
    case Reply(m, original, id) =>
      && m in s.threadOf && s.threadOf[m].None? && (original, id) in s.posts
      && original in s.threadOf && s.threadOf[original].Some? && s.threadOf[original].value in s.head
    case StoreId(m) => m in s.pending
    case BeginMove(v, h) => v !in s.movers && h in s.head && s.head[h].Some?
    case StepMove(v) => v in s.movers
    case BeginPass(threads) =>
      s.worker.Idle? && (forall h :: h in threads ==> h in s.head && s.head[h].None?)
      && (forall i, j :: 0 <= i < j < |threads| ==> threads[i] != threads[j])
    case PostHead(id) => s.worker.Heads? && s.worker.threads != [] && id !in s.heads
    case FailHead => s.worker.Heads? && s.worker.threads != []
    case StoreHead => s.worker.HeadPosted?
    case FetchMails(rows) =>
      s.worker == Heads([]) && (forall i :: 0 <= i < |rows| ==> ReadyRow(s, rows[i]))
      && (forall i, j :: 0 <= i < j < |rows| ==> rows[i].mail != rows[j].mail)
    case SkipMail => s.worker.Mails? && s.worker.rows != []
    case PostMail => s.worker.Mails? && s.worker.rows != []
    case FailMail => s.worker.Mails? && s.worker.rows != []
    case FindRedacted => s.worker.Mails? && s.worker.rows != []
    case StepRedact => s.worker.Redacting? || s.worker.Redacted?
    case StoreMail => s.worker.MailPosted?
    case EndPass => s.worker == Mails([])
  }

  function ClearHead(s: State, thread: nat): State {
    if thread in s.head then s.(head := s.head[thread := None]) else s
  }

  /** RemoveMailMatrixIdsByThread */
  function ClearMails(s: State, thread: nat): State {
    s.(stored := set m | m in s.stored && !(m in s.threadOf && s.threadOf[m] == Some(thread)))
  }

  function StepMover(s: State, v: nat): State
    requires v in s.movers
  {
    match s.movers[v]
    case MoveHead(h) => ClearHead(s, h).(movers := s.movers[v := MoveMails(h)])
    case MoveMails(h) => ClearMails(s, h).(movers := s.movers[v := MoveRoom(h)])
    case MoveRoom(h) => ClearHead(s, h).(movers := s.movers - {v})
  }

  function StepWorker(s: State, e: Event): State
    requires Enabled(s, e)
    requires !e.NewThread? && !e.NewMail? && !e.JoinThread? && !e.Reply? && !e.StoreId? && !e.BeginMove? && !e.StepMove?
  {
    match e
    case BeginPass(threads) => s.(worker := Heads(threads))
    case PostHead(id) =>
      s.(worker := HeadPosted(s.worker.threads[0], id, s.worker.threads[1..]), heads := s.heads + {id})
    case FailHead => s.(worker := Idle)
    case StoreHead =>
      var s' := s.(worker := Heads(s.worker.threads));
      if s.worker.thread in s.head then s'.(head := s.head[s.worker.thread := Some(s.worker.head)]) else s'
    case FetchMails(rows) => s.(worker := Mails(rows))
    case SkipMail => s.(worker := Mails(s.worker.rows[1..]))
    case PostMail =>
      var row := s.worker.rows[0];
      s.(worker := MailPosted(row, s.worker.rows[1..]), posts := s.posts + [(row.mail, row.head)])
    case FailMail => s.(worker := Idle)
    case FindRedacted => s.(worker := Redacting(s.worker.rows[0].thread))
    case StepRedact =>
      if s.worker.Redacting? then ClearHead(s, s.worker.thread).(worker := Redacted(s.worker.thread))
      else ClearMails(s, s.worker.thread).(worker := Idle)
    case StoreMail => s.(worker := Mails(s.worker.rows), stored := s.stored + {s.worker.row.mail})
    case EndPass => s.(worker := Idle)
  }

  function Next(s: State, e: Event): State
    requires Enabled(s, e)
  {
    match e
    case NewThread(h) => s.(head := s.head[h := None])
    case NewMail(m) => s.(threadOf := s.threadOf[m := None])
    case JoinThread(m, h) => s.(threadOf := s.threadOf[m := Some(h)])
    case Reply(m, original, id) =>
      s.(threadOf := s.threadOf[m := s.threadOf[original]], posts := s.posts + [(m, id)], pending := s.pending + {m})
    case StoreId(m) => s.(stored := s.stored + {m}, pending := s.pending - {m})
    case BeginMove(v, h) => s.(movers := s.movers[v := MoveHead(h)])
    case StepMove(v) => StepMover(s, v)
    case _ => StepWorker(s, e)
  }

  const INITIAL := State(map[], map[], {}, Idle, map[], {}, [])

  // ----- the invariant

  /** Rows that the worker still has to post. */
  function Waiting(worker: Worker): seq<Row> {
    if worker.Mails? || worker.MailPosted? then worker.rows else []
  }

  predicate JustPosted(worker: Worker, m: nat) {
    worker.MailPosted? && worker.row.mail == m
  }

  /**
   * What is posted under the current head of its thread is known to be posted, or its id is about to be stored, or that
   * head is being cleared.
   */
  predicate PostOk(s: State, i: nat) {
    i < |s.posts| ==>
      var (m, id) := s.posts[i];
      && m in s.threadOf && s.threadOf[m].Some? && id in s.heads
      && (s.worker.HeadPosted? ==> id != s.worker.head)
      && (s.threadOf[m].value in s.head && s.head[s.threadOf[m].value] == Some(id) ==>
            || m in s.stored || m in s.pending || JustPosted(s.worker, m)
            || s.worker == Redacting(s.threadOf[m].value))
  }

  predicate OnceOk(s: State, i: nat, j: nat) {
    i < j < |s.posts| ==> s.posts[i] != s.posts[j]
  }

  /** A row still to be posted has not been posted under its head before. */
  predicate RowOk(s: State, k: nat) {
    k < |Waiting(s.worker)| ==>
      var row := Waiting(s.worker)[k];
      && row.mail in s.threadOf && s.threadOf[row.mail] == Some(row.thread)
      && row.head in s.heads && (row.mail, row.head) !in s.posts && !JustPosted(s.worker, row.mail)
  }

  predicate RowsDiffer(s: State, k: nat, l: nat) {
    k < l < |Waiting(s.worker)| ==> Waiting(s.worker)[k].mail != Waiting(s.worker)[l].mail
  }

  /** Threads that are still to be given a head in this pass. */
  function Headless(worker: Worker): seq<nat> {
    match worker
    case Heads(threads) => threads
    case HeadPosted(thread, _, threads) => [thread] + threads
    case _ => []
  }

  predicate HeadOk(s: State, h: nat) {
    && (h in Headless(s.worker) && h in s.head ==> s.head[h].None?)
    && (h in s.head && s.head[h].Some? ==>
          s.head[h].value in s.heads && (s.worker.HeadPosted? ==> s.head[h].value != s.worker.head))
    && (s.worker == Redacted(h) && h in s.head ==> s.head[h].None?)
  }

  /** What holds of the heads in every run, whether guarded or not. */
  ghost predicate HeadsOk(s: State) {
    && (forall h: nat :: HeadOk(s, h))
    && (s.worker.HeadPosted? ==> s.worker.head in s.heads)
    && (forall i, j :: 0 <= i < j < |Headless(s.worker)| ==> Headless(s.worker)[i] != Headless(s.worker)[j])
    && (forall k :: 0 <= k < |Waiting(s.worker)| ==> Waiting(s.worker)[k].head in s.heads)
    && (forall i :: 0 <= i < |s.posts| ==> HeadKnown(s, s.posts[i].1))
  }

  /** A head under which something is posted exists, and is not just about to be stored. */
  predicate HeadKnown(s: State, id: nat) {
    id in s.heads && (s.worker.HeadPosted? ==> id != s.worker.head)
  }

  ghost predicate Inv(s: State) {
    && (forall i: nat :: PostOk(s, i))
    && (forall i: nat, j: nat :: OnceOk(s, i, j))
    && (forall k: nat :: RowOk(s, k))
    && (forall k: nat, l: nat :: RowsDiffer(s, k, l))
    && HeadsOk(s)
  }

  /**
   * The two ways to post a mail twice are ruled out. When MoveThread clears the Matrix ids of a thread's mails, no mail
   * is posted under the head that the thread has then; this does not concern mails whose id is about to be stored, nor
   * a head that the worker is about to clear. And no pass fetches a manual reply before its id is stored, unless the
   * thread has got another head since.
   */
  predicate Guarded(s: State, e: Event) {
    match e
    case StepMove(v) =>
      v in s.movers && s.movers[v].MoveMails? ==>
        forall i :: 0 <= i < |s.posts| ==> !PostedUnderHead(s, s.movers[v].thread, s.posts[i].0, s.posts[i].1)
    case FetchMails(rows) => forall k :: 0 <= k < |rows| ==> !RepliedUnderHead(s, rows[k])
    case _ => true
  }

  /** Mail m of thread h is posted under id, which is still the head of h. */
  predicate PostedUnderHead(s: State, h: nat, m: nat, id: nat) {
    && m in s.threadOf && s.threadOf[m] == Some(h)
    && h in s.head && s.head[h] == Some(id)
    && m !in s.pending && !JustPosted(s.worker, m) && s.worker != Redacting(h)
  }

  /** The mail of the row is a manual reply under the head of its thread, and its id is not stored yet. */
  predicate RepliedUnderHead(s: State, row: Row) {
    row.mail in s.pending && (row.mail, row.head) in s.posts
  }

  // ----- every guarded step keeps the invariant

  lemma HeadsStayOk(s: State, e: Event)
    requires HeadsOk(s) && Enabled(s, e)
    ensures HeadsOk(Next(s, e))
  {
    var s' := Next(s, e);
    var before, after := Headless(s.worker), Headless(s'.worker);
    assert e.PostHead? ==> after == before;
    if e.StoreHead? {
      assert forall k :: 0 <= k < |after| ==> after[k] == before[k + 1];
      assert s.worker.thread !in after by { assert s.worker.thread == before[0]; }
    }
    forall h: nat ensures HeadOk(s', h) { assert HeadOk(s, h); }
    WaitingHeadsKnown(s, e);
    PostsStayKnown(s, e);
  }

  lemma WaitingHeadsKnown(s: State, e: Event)
    requires HeadsOk(s) && Enabled(s, e)
    ensures var s' := Next(s, e); forall k :: 0 <= k < |Waiting(s'.worker)| ==> Waiting(s'.worker)[k].head in s'.heads
  {
    var before, after := Waiting(s.worker), Waiting(Next(s, e).worker);
    if e.FetchMails? {
      forall k | 0 <= k < |after| ensures after[k].head in s.heads {
        assert ReadyRow(s, after[k]) && HeadOk(s, after[k].thread);
      }
    } else {
      assert after == [] || after == before || after == before[1..];
    }
  }

  lemma PostsStayKnown(s: State, e: Event)
    requires HeadsOk(s) && Enabled(s, e)
    ensures var s' := Next(s, e); forall i :: 0 <= i < |s'.posts| ==> HeadKnown(s', s'.posts[i].1)
  {
    if e.PostMail? { assert Waiting(s.worker)[0].head in s.heads; }
  }

  lemma TablesKeepInv(s: State, e: Event)
    requires Inv(s) && Enabled(s, e)
    requires e.NewThread? || e.NewMail? || e.JoinThread? || e.StoreId? || e.BeginMove?
    ensures Inv(Next(s, e))
  {
    var s' := Next(s, e);
    forall i: nat ensures PostOk(s', i) { assert PostOk(s, i); }
    forall i: nat, j: nat ensures OnceOk(s', i, j) { assert OnceOk(s, i, j); }
    forall k: nat ensures RowOk(s', k) { assert RowOk(s, k); }
    forall k: nat, l: nat ensures RowsDiffer(s', k, l) { assert RowsDiffer(s, k, l); }
    HeadsStayOk(s, e);
  }

  lemma ReplyKeepsInv(s: State, e: Event)
    requires Inv(s) && Enabled(s, e) && e.Reply?
    ensures Inv(Next(s, e))
  {
    var s' := Next(s, e);
    forall i: nat ensures PostOk(s', i) {
      assert PostOk(s, i);
      assert HeadKnown(s, e.head);
    }
    forall i: nat, j: nat ensures OnceOk(s', i, j) { assert OnceOk(s, i, j) && PostOk(s, i); }
    forall k: nat ensures RowOk(s', k) { assert RowOk(s, k); }
    forall k: nat, l: nat ensures RowsDiffer(s', k, l) { assert RowsDiffer(s, k, l); }
    HeadsStayOk(s, e);
  }

  lemma MoverKeepsInv(s: State, v: nat)
    requires Inv(s) && v in s.movers && Guarded(s, StepMove(v))
    ensures Inv(StepMover(s, v))
  {
    var s' := StepMover(s, v);
    forall i: nat ensures PostOk(s', i) {
      assert PostOk(s, i);
    }
    forall i: nat, j: nat ensures OnceOk(s', i, j) { assert OnceOk(s, i, j); }
    forall k: nat ensures RowOk(s', k) { assert RowOk(s, k); }
    forall k: nat, l: nat ensures RowsDiffer(s', k, l) { assert RowsDiffer(s, k, l); }
    HeadsStayOk(s, StepMove(v));
  }

  lemma WorkerHeadsKeepInv(s: State, e: Event)
    requires Inv(s) && Enabled(s, e)
    requires e.BeginPass? || e.PostHead? || e.FailHead? || e.StoreHead? || e.EndPass? || e.FailMail? || e.FindRedacted?
    ensures Inv(StepWorker(s, e))
  {
    var s' := StepWorker(s, e);
    forall i: nat ensures PostOk(s', i) { assert PostOk(s, i); }
    forall i: nat, j: nat ensures OnceOk(s', i, j) { assert OnceOk(s, i, j); }
    HeadsStayOk(s, e);
  }

  lemma RedactKeepsInv(s: State)
    requires Inv(s) && Enabled(s, StepRedact)
    ensures Inv(StepWorker(s, StepRedact))
  {
    var s' := StepWorker(s, StepRedact);
    assert HeadOk(s, s.worker.thread);
    forall i: nat ensures PostOk(s', i) { assert PostOk(s, i); }
    forall i: nat, j: nat ensures OnceOk(s', i, j) { assert OnceOk(s, i, j); }
    HeadsStayOk(s, StepRedact);
  }

  lemma FetchKeepsInv(s: State, rows: seq<Row>)
    requires Inv(s) && Enabled(s, FetchMails(rows)) && Guarded(s, FetchMails(rows))
    ensures Inv(StepWorker(s, FetchMails(rows)))
  {
    var s' := StepWorker(s, FetchMails(rows));
    forall i: nat ensures PostOk(s', i) { assert PostOk(s, i); }
    forall i: nat, j: nat ensures OnceOk(s', i, j) { assert OnceOk(s, i, j); }
    forall k: nat ensures RowOk(s', k) {
      if k < |rows| {
        assert ReadyRow(s, rows[k]) && HeadOk(s, rows[k].thread);
        assert !RepliedUnderHead(s, rows[k]);
        forall i: nat | i < |s.posts| ensures s.posts[i] != (rows[k].mail, rows[k].head) { assert PostOk(s, i); }
      }
    }
    HeadsStayOk(s, FetchMails(rows));
  }

  lemma PostKeepsInv(s: State, e: Event)
    requires Inv(s) && Enabled(s, e) && (e.SkipMail? || e.PostMail? || e.StoreMail?)
    ensures Inv(StepWorker(s, e))
  {
    var s' := StepWorker(s, e);
    assert RowOk(s, 0);
    var shift := if e.StoreMail? then 0 else 1;
    forall i: nat ensures PostOk(s', i) { assert PostOk(s, i); }
    forall i: nat, j: nat ensures OnceOk(s', i, j) { assert OnceOk(s, i, j); }
    forall k: nat ensures RowOk(s', k) { assert RowOk(s, k + shift) && RowsDiffer(s, 0, k + shift); }
    forall k: nat, l: nat ensures RowsDiffer(s', k, l) { assert RowsDiffer(s, k + shift, l + shift); }
    HeadsStayOk(s, e);
  }

  lemma StepKeepsInv(s: State, e: Event)
    requires Inv(s) && Enabled(s, e) && Guarded(s, e)
    ensures Inv(Next(s, e))
  {
    if e.NewThread? || e.NewMail? || e.JoinThread? || e.StoreId? || e.BeginMove? {
      TablesKeepInv(s, e);
    } else if e.Reply? {
      ReplyKeepsInv(s, e);
    } else if e.StepMove? {
      MoverKeepsInv(s, e.mover);
    } else if e.StepRedact? {
      RedactKeepsInv(s);
    } else if e.FetchMails? {
      FetchKeepsInv(s, e.rows);
    } else if e.SkipMail? || e.PostMail? || e.StoreMail? {
      PostKeepsInv(s, e);
    } else {
      WorkerHeadsKeepInv(s, e);
    }
  }

  // ----- whole runs

  ghost predicate IsRun(events: seq<Event>)
    decreases |events|, 0
  {
    events == [] || (IsRun(events[..|events| - 1]) && Enabled(After(events[..|events| - 1]), events[|events| - 1]))
  }

  ghost function After(events: seq<Event>): State
    requires IsRun(events)
    decreases |events|, 1
  {
    if events == [] then INITIAL else Next(After(events[..|events| - 1]), events[|events| - 1])
  }

  /** From event n of the run on, every step is guarded. */
  ghost predicate GuardedFrom(events: seq<Event>, n: nat)
    requires IsRun(events)
    decreases |events|
  {
    |events| <= n
    || (GuardedFrom(events[..|events| - 1], n) && Guarded(After(events[..|events| - 1]), events[|events| - 1]))
  }

  ghost predicate AllGuarded(events: seq<Event>)
    requires IsRun(events)
  {
    GuardedFrom(events, 0)
  }

  ghost predicate AtMostOnce(s: State) {
    forall i, j :: 0 <= i < j < |s.posts| ==> s.posts[i] != s.posts[j]
  }

  lemma {:induction false} RunsKeepInv(events: seq<Event>)
    requires IsRun(events) && AllGuarded(events)
    ensures Inv(After(events))
    decreases |events|
  {
    if events != [] {
      RunsKeepInv(events[..|events| - 1]);
      StepKeepsInv(After(events[..|events| - 1]), events[|events| - 1]);
    }
  }

  /** No mail is posted twice under the same head, over all interleavings of passes, retries, redactions and moves. */
  lemma PostedAtMostOnce(events: seq<Event>)
    requires IsRun(events) && AllGuarded(events)
    ensures AtMostOnce(After(events))
  {
    RunsKeepInv(events);
    var s := After(events);
    forall i, j | 0 <= i < j < |s.posts| ensures s.posts[i] != s.posts[j] {
      assert OnceOk(s, i, j);
    }
  }

  // ----- the guard is needed

  lemma Take(events: seq<Event>, e: Event)
    requires IsRun(events) && Enabled(After(events), e)
    ensures IsRun(events + [e]) && After(events + [e]) == Next(After(events), e)
  {
    assert (events + [e])[..|events|] == events;
  }

  // The run extended by one event.
  lemma Also(events: seq<Event>, e: Event) returns (extended: seq<Event>)
    requires IsRun(events) && Enabled(After(events), e)
    ensures extended == events + [e] && IsRun(extended) && After(extended) == Next(After(events), e)
  {
    Take(events, e);
    extended := events + [e];
  }

  /** Mail m, posted as number i under the current head of thread h, would be fetched and posted again. */
  predicate PostableAgain(s: State, i: nat, h: nat) {
    && i < |s.posts| && PostedUnderHead(s, h, s.posts[i].0, s.posts[i].1) && s.posts[i].0 !in s.stored
    && s.worker != Redacted(h) && h !in Headless(s.worker)
  }

  /** What the worker does if everything it sends from now on fails. */
  function Wind(worker: Worker): Event {
    match worker
    case Idle => BeginPass([])
    case Heads(threads) => if threads == [] then FetchMails([]) else FailHead
    case HeadPosted(_, _, _) => StoreHead
    case Mails(rows) => if rows == [] then EndPass else FailMail
    case MailPosted(_, _) => StoreMail
    case Redacting(_) => StepRedact
    case Redacted(_) => StepRedact
  }

  /** A bound on the number of steps until the worker is idle. */
  function Rank(worker: Worker): nat {
    match worker
    case Idle => 0
    case Heads(_) => 2
    case HeadPosted(_, _, _) => 3
    case Mails(_) => 1
    case MailPosted(_, _) => 2
    case Redacting(_) => 2
    case Redacted(_) => 1
  }

  lemma WindKeepsPostable(s: State, i: nat, h: nat)
    requires PostableAgain(s, i, h) && !s.worker.Idle?
    ensures Enabled(s, Wind(s.worker)) && !Wind(s.worker).StepMove?
    ensures var s' := Next(s, Wind(s.worker)); PostableAgain(s', i, h) && Rank(s'.worker) < Rank(s.worker)
  {
  }

  // The run extended by one guarded event.
  lemma Carry(events: seq<Event>, n: nat, e: Event) returns (later: seq<Event>)
    requires IsRun(events) && GuardedFrom(events, n) && Enabled(After(events), e) && Guarded(After(events), e)
    ensures later == events + [e] && IsRun(later) && After(later) == Next(After(events), e) && GuardedFrom(later, n)
  {
    later := Also(events, e);
    assert later[..|later| - 1] == events;
  }

  // Whatever pass is under way ends.
  lemma {:induction false} WorkerStops(events: seq<Event>, n: nat, i: nat, h: nat) returns (later: seq<Event>)
    requires IsRun(events) && GuardedFrom(events, n) && PostableAgain(After(events), i, h)
    ensures events <= later && IsRun(later) && GuardedFrom(later, n)
    ensures After(later).worker.Idle? && PostableAgain(After(later), i, h)
    decreases Rank(After(events).worker)
  {
    later := events;
    if !After(events).worker.Idle? {
      WindKeepsPostable(After(events), i, h);
      later := Carry(events, n, Wind(After(events).worker));
      later := WorkerStops(later, n, i, h);
    }
  }

  // The next pass fetches the mail and posts it.
  lemma PostsAgain(events: seq<Event>, n: nat, i: nat, h: nat) returns (later: seq<Event>)
    requires IsRun(events) && GuardedFrom(events, n) && PostableAgain(After(events), i, h) && After(events).worker.Idle?
    ensures events <= later && IsRun(later) && GuardedFrom(later, n) && !AtMostOnce(After(later))
  {
    var (m, id) := After(events).posts[i];
    var row := Row(m, h, id);
    later := Carry(events, n, BeginPass([]));
    assert ReadyRow(After(later), row);
    later := Carry(later, n, FetchMails([row]));
    later := RowIsPosted(later, n, 0);
  }

  // The worker comes to a row whose mail is already posted under the row's head.
  lemma {:induction false} RowIsPosted(events: seq<Event>, n: nat, k: nat) returns (later: seq<Event>)
    requires IsRun(events) && GuardedFrom(events, n) && After(events).worker.Mails? && k < |After(events).worker.rows|
    requires var row := After(events).worker.rows[k]; (row.mail, row.head) in After(events).posts
    ensures events <= later && IsRun(later) && GuardedFrom(later, n) && !AtMostOnce(After(later))
    decreases k
  {
    if k > 0 {
      later := Carry(events, n, SkipMail);
      later := RowIsPosted(later, n, k - 1);
    } else {
      var posts := After(events).posts;
      later := Carry(events, n, PostMail);
      var i :| 0 <= i < |posts| && posts[i] == After(later).posts[|posts|];
      assert After(later).posts[i] == posts[i];
    }
  }

  lemma {:induction false} HeadsAlwaysOk(events: seq<Event>)
    requires IsRun(events)
    ensures HeadsOk(After(events))
    decreases |events|
  {
    if events != [] {
      HeadsAlwaysOk(events[..|events| - 1]);
      HeadsStayOk(After(events[..|events| - 1]), events[|events| - 1]);
    }
  }

  /**
   * Wherever MoveThread clears mail ids against the guard, whatever the worker is doing, the run can go on, with
   * guarded steps only, so that a mail is posted a second time under the same head.
   */
  lemma UnguardedPostsTwice(events: seq<Event>, v: nat) returns (later: seq<Event>)
    requires IsRun(events) && Enabled(After(events), StepMove(v)) && !Guarded(After(events), StepMove(v))
    ensures events + [StepMove(v)] <= later && IsRun(later) && GuardedFrom(later, |events| + 1)
    ensures !AtMostOnce(After(later))
  {
    var s := After(events);
    var h := s.movers[v].thread;
    HeadsAlwaysOk(events);
    assert HeadOk(s, h);
    var i :| 0 <= i < |s.posts| && PostedUnderHead(s, h, s.posts[i].0, s.posts[i].1);
    later := Also(events, StepMove(v));
    assert PostableAgain(After(later), i, h);
    later := WorkerStops(later, |events| + 1, i, h);
    later := PostsAgain(later, |events| + 1, i, h);
  }

  /** Wherever a pass fetches, against the guard, a manual reply whose id is not stored yet, it can post it again. */
  lemma UnguardedFetchPostsTwice(events: seq<Event>, rows: seq<Row>) returns (later: seq<Event>)
    requires IsRun(events) && Enabled(After(events), FetchMails(rows)) && !Guarded(After(events), FetchMails(rows))
    ensures events + [FetchMails(rows)] <= later && IsRun(later) && GuardedFrom(later, |events| + 1)
    ensures !AtMostOnce(After(later))
  {
    var k :| 0 <= k < |rows| && RepliedUnderHead(After(events), rows[k]);
    later := Also(events, FetchMails(rows));
    later := RowIsPosted(later, |events| + 1, k);
  }

  lemma {:induction false} GuardsJoin(events: seq<Event>, later: seq<Event>)
    requires IsRun(events) && IsRun(later) && events <= later && AllGuarded(events) && GuardedFrom(later, |events|)
    ensures AllGuarded(later)
    decreases |later|
  {
    if |later| > |events| {
      GuardsJoin(events, later[..|later| - 1]);
    } else {
      assert later == events;
    }
  }

  /** A guarded run after which e can happen. */
  ghost predicate CanStep(events: seq<Event>, e: Event) {
    IsRun(events) && AllGuarded(events) && Enabled(After(events), e)
  }

  /** A run that goes on with e, and after that with guarded steps only. */
  ghost predicate Continues(events: seq<Event>, e: Event, later: seq<Event>) {
    IsRun(later) && events + [e] <= later && GuardedFrom(later, |events| + 1)
  }

  lemma GuardedIsSafe(events: seq<Event>, e: Event, later: seq<Event>)
    requires CanStep(events, e) && Guarded(After(events), e) && Continues(events, e, later)
    ensures AtMostOnce(After(later))
  {
    Take(events, e);
    assert (events + [e])[..|events|] == events;
    GuardsJoin(events + [e], later);
    PostedAtMostOnce(later);
  }

  lemma UnguardedIsNot(events: seq<Event>, e: Event) returns (later: seq<Event>)
    requires CanStep(events, e) && !Guarded(After(events), e)
    ensures Continues(events, e, later) && !AtMostOnce(After(later))
  {
    if e.StepMove? {
      later := UnguardedPostsTwice(events, e.mover);
    } else {
      later := UnguardedFetchPostsTwice(events, e.rows);
    }
  }

  /**
   * The guard is exact: after a guarded run, the next step is guarded if and only if no continuation whose further
   * steps are guarded posts a mail twice under one head.
   */
  lemma GuardIsExact(events: seq<Event>, e: Event)
    requires CanStep(events, e)
    ensures Guarded(After(events), e) <==> forall later :: Continues(events, e, later) ==> AtMostOnce(After(later))
  {
    if Guarded(After(events), e) {
      forall later | Continues(events, e, later) ensures AtMostOnce(After(later)) {
        GuardedIsSafe(events, e, later);
      }
    } else {
      var later := UnguardedIsNot(events, e);
    }
  }

  // A thread with one mail.
  lemma ThreadExists() returns (events: seq<Event>)
    ensures IsRun(events)
    ensures After(events) == State(map[1 := None], map[0 := Some(1)], {}, Idle, map[], {}, [])
  {
    events := Also([], NewThread(1));
    events := Also(events, NewMail(0));
    events := Also(events, JoinThread(0, 1));
  }

  // A pass begins and posts head 1.
  lemma FirstHead() returns (events: seq<Event>)
    ensures IsRun(events)
    ensures After(events) == State(map[1 := None], map[0 := Some(1)], {}, HeadPosted(1, 1, []), map[], {1}, [])
  {
    events := ThreadExists();
    events := Also(events, BeginPass([1]));
    events := Also(events, PostHead(1));
    assert After(events).worker == HeadPosted(1, 1, []);
  }

  // It is given to the thread.
  lemma HeadIsPosted() returns (events: seq<Event>)
    ensures IsRun(events)
    ensures After(events) == State(map[1 := Some(1)], map[0 := Some(1)], {}, Heads([]), map[], {1}, [])
  {
    events := FirstHead();
    events := Also(events, StoreHead);
  }

  // A move of the thread begins.
  lemma MoveBegins() returns (events: seq<Event>)
    ensures IsRun(events)
    ensures After(events) == State(map[1 := Some(1)], map[0 := Some(1)], {}, Idle, map[0 := MoveHead(1)], {1}, [])
  {
    events := HeadIsPosted();
    events := Also(events, FetchMails([]));
    events := Also(events, EndPass);
    events := Also(events, BeginMove(0, 1));
  }

  // The move clears the head, and a pass begins.
  lemma MoveClearsHead() returns (events: seq<Event>)
    ensures IsRun(events)
    ensures After(events)
            == State(map[1 := None], map[0 := Some(1)], {}, Heads([1]), map[0 := MoveMails(1)], {1}, [])
  {
    events := MoveBegins();
    events := Also(events, StepMove(0));
    events := Also(events, BeginPass([1]));
  }

  // The pass creates head 2.
  lemma HeadInBetween() returns (events: seq<Event>)
    ensures IsRun(events)
    ensures After(events)
            == State(map[1 := Some(2)], map[0 := Some(1)], {}, Heads([]), map[0 := MoveMails(1)], {1, 2}, [])
  {
    events := MoveClearsHead();
    events := Also(events, PostHead(2));
    assert After(events).worker == HeadPosted(1, 2, []) && After(events).heads == {1, 2};
    events := Also(events, StoreHead);
  }

  // It fetches the mail and posts it under head 2.
  lemma MailInBetween() returns (events: seq<Event>)
    ensures IsRun(events)
    ensures After(events)
            == State(map[1 := Some(2)], map[0 := Some(1)], {}, MailPosted(Row(0, 1, 2), []), map[0 := MoveMails(1)],
                     {1, 2}, [(0, 2)])
  {
    events := HeadInBetween();
    assert ReadyRow(After(events), Row(0, 1, 2));
    events := Also(events, FetchMails([Row(0, 1, 2)]));
    events := Also(events, PostMail);
    assert After(events).worker == MailPosted(Row(0, 1, 2), []);
  }

  // The pass stores the mail's id and ends.
  lemma PassInBetween() returns (events: seq<Event>)
    ensures IsRun(events)
    ensures After(events)
            == State(map[1 := Some(2)], map[0 := Some(1)], {0}, Idle, map[0 := MoveMails(1)], {1, 2}, [(0, 2)])
  {
    events := MailInBetween();
    events := Also(events, StoreMail);
    events := Also(events, EndPass);
  }

  /** A pass between the first two statements of MoveThread makes the next one post a mail twice under one head. */
  lemma MoveCanPostTwice()
    ensures exists events :: IsRun(events) && !AtMostOnce(After(events))
  {
    var events := PassInBetween();
    assert PostedUnderHead(After(events), 1, 0, 2);
    assert !Guarded(After(events), StepMove(0)) by { assert After(events).posts[0] == (0, 2); }
    events := UnguardedPostsTwice(events, 0);
  }

  // The first pass posts mail 0 as well.
  lemma MailIsPosted() returns (events: seq<Event>)
    ensures IsRun(events)
    ensures After(events) == State(map[1 := Some(1)], map[0 := Some(1)], {0}, Mails([]), map[], {1}, [(0, 1)])
  {
    events := HeadIsPosted();
    assert ReadyRow(After(events), Row(0, 1, 1));
    events := Also(events, FetchMails([Row(0, 1, 1)]));
    events := Also(events, PostMail);
    assert After(events).worker == MailPosted(Row(0, 1, 1), []);
    events := Also(events, StoreMail);
  }

  // A manual reply to mail 0 is put into its thread.
  lemma MailIsAnswered() returns (events: seq<Event>)
    ensures IsRun(events)
    ensures After(events)
            == State(map[1 := Some(1)], map[0 := Some(1), 2 := Some(1)], {0}, Idle, map[], {1}, [(0, 1), (2, 1)], {2})
  {
    events := MailIsPosted();
    events := Also(events, EndPass);
    events := Also(events, NewMail(2));
    events := Also(events, Reply(2, 0, 1));
  }

  /** A pass between the last two statements of a manual reply shows the reply a second time under its head. */
  lemma ReplyCanPostTwice()
    ensures exists events :: IsRun(events) && !AtMostOnce(After(events))
  {
    var events := MailIsAnswered();
    var row := Row(2, 1, 1);
    events := Also(events, BeginPass([]));
    assert After(events).posts[1] == (2, 1) && RepliedUnderHead(After(events), [row][0]);
    events := UnguardedFetchPostsTwice(events, [row]);
  }
}
