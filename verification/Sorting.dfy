/**
 * Sorting mails into threads: the work closure of internal/app/threadsorting.go and the table updates of a manual
 * reply in internal/app/app.go. Both hold threadSortingMutex; between any two of their SQL statements the rest of
 * the system may change the tables as Interferes allows.
 */
module Sorting {
  import opened Options
  import opened Tables

  datatype Choice =
    | Join(thread: nat)             // AddMailToThread
    | Create(thread: nat, now: int) // CreateThread: the new identifier and the time of its insertion
    | Ignore                        // MarkMailAsSorted

  /**
   * One iteration of the loop over the snapshot: the tables when the reply parent is looked up, when the referenced
   * parent is looked up, when the first and the second write happen, and after the second write.
   */
  datatype Step = Step(id: nat, row: MailRow, seen: Tables, sought: Tables, choice: Choice,
                       first: Tables, second: Tables, after: Tables)

  function ReplyThread(t: Tables, row: MailRow): Option<nat> {
    if row.replyTo.Some? && row.replyTo.value in t.mail && t.mail[row.replyTo.value].thread.Some?
       && !ForceClosed(t, t.mail[row.replyTo.value].thread.value)
    then t.mail[row.replyTo.value].thread else None
  }

  /** The thread of the reply parent, else of a referenced mail, else a new one unless the sender is blacklisted. */
  ghost predicate Decides(seen: Tables, sought: Tables, row: MailRow, blacklisted: string -> bool, choice: Choice) {
    if ReplyThread(seen, row).Some? then choice == Join(ReplyThread(seen, row).value)
    else if exists m :: IsReferenced(sought, row.references, m) then
      choice.Join? && exists m :: IsReferencedThreadParent(sought, row.references, m)
                                  && sought.mail[m].thread == Some(choice.thread)
    else if blacklisted(row.addrFrom) then choice.Ignore?
    else choice.Create?
  }

  ghost predicate Joins(first: Tables, second: Tables, after: Tables, id: nat, thread: nat, row: MailRow) {
    && Interferes(UpdateMailSorting(first, id, thread, row.replyTo), second)
    && after == UpdateThreadLastMail(second, thread, id, row.timestamp)
  }

  ghost predicate Creates(first: Tables, second: Tables, after: Tables, id: nat, thread: nat, now: int, row: MailRow) {
    && thread !in first.thread && thread != 0
    && Interferes(AddThread(first, thread, id, now), second)
    && after == UpdateMailSorting(second, id, thread, row.replyTo)
  }

  ghost predicate Writes(step: Step) {
    match step.choice
    case Join(thread) => Joins(step.first, step.second, step.after, step.id, thread, step.row)
    case Create(thread, now) => Creates(step.first, step.second, step.after, step.id, thread, now, step.row)
    case Ignore => step.second == step.first && step.after == UpdateMailMarkSorted(step.first, step.id)
  }

  ghost predicate ValidStep(step: Step, blacklisted: string -> bool) {
    && Interferes(step.seen, step.sought) && Interferes(step.sought, step.first)
    && Decides(step.seen, step.sought, step.row, blacklisted, step.choice)
    && Writes(step)
  }

  function ThreadOf(choice: Choice): Option<nat> {
    match choice
    case Join(thread) => Some(thread)
    case Create(thread, _) => Some(thread)
    case Ignore => None
  }

  /** The mail is in the tables as the snapshot has it, still unsorted. */
  predicate Unsorted(t: Tables, id: nat, row: MailRow) {
    id in t.mail && SameSorting(row, t.mail[id]) && !row.sorted && row.thread.None?
  }

  /** Another mail is as it was as far as sorting is concerned, or has just been inserted; mail id has been sorted. */
  predicate MailSorted(t: Tables, t': Tables, id: nat, thread: Option<nat>, m: nat) {
    if m == id then
      && id in t'.mail && t'.mail[id].sorted && t'.mail[id].thread == thread
      && (id in t.mail ==> SameSorting(t.mail[id].(sorted := true, thread := thread), t'.mail[id]))
    else MailUndisturbed(t, t', m)
  }

  /** What one iteration does: it sorts its own mail into the given thread, if any, and no other mail. */
  ghost predicate Sorts(t: Tables, t': Tables, id: nat, thread: Option<nat>) {
    Evolves(t, t') && forall m: nat :: MailSorted(t, t', id, thread, m)
  }

  lemma SortsThenInterferes(t: Tables, t': Tables, t'': Tables, id: nat, thread: Option<nat>)
    requires Sorts(t, t', id, thread) && Interferes(t', t'')
    ensures Sorts(t, t'', id, thread)
  {
    InterferenceEvolves(t', t'');
    EvolvesTransitively(t, t', t'');
    forall m: nat ensures MailSorted(t, t'', id, thread, m) {
      assert MailSorted(t, t', id, thread, m) && MailUndisturbed(t', t'', m);
    }
  }

  lemma InterferesThenSorts(t: Tables, t': Tables, t'': Tables, id: nat, thread: Option<nat>)
    requires Interferes(t, t') && Sorts(t', t'', id, thread)
    ensures Sorts(t, t'', id, thread)
  {
    InterferenceEvolves(t, t');
    EvolvesTransitively(t, t', t'');
    forall m: nat ensures MailSorted(t, t'', id, thread, m) {
      assert MailUndisturbed(t, t', m) && MailSorted(t', t'', id, thread, m);
    }
  }

  lemma UnsortedUnderInterference(t: Tables, t': Tables, id: nat, row: MailRow)
    requires Unsorted(t, id, row) && Interferes(t, t')
    ensures Unsorted(t', id, row)
  {
    assert MailUndisturbed(t, t', id);
  }

  // ----- the single statements

  lemma UpdateMailSortingSorts(t: Tables, id: nat, row: MailRow, thread: nat, pending: Option<nat>)
    requires Consistent(t, pending) && Unsorted(t, id, row) && thread in t.thread
    ensures var t' := UpdateMailSorting(t, id, thread, row.replyTo);
            Sorts(t, t', id, Some(thread)) && Consistent(t', pending)
  {
    var t' := UpdateMailSorting(t, id, thread, row.replyTo);
    forall m: nat ensures MailEvolves(t, t', m) && MailSorted(t, t', id, Some(thread), m) && MailConsistent(t', m) {
      assert MailConsistent(t, m);
    }
    forall h: nat ensures ThreadEvolves(t, t', h) && (pending == Some(h) || ThreadConsistent(t', h)) {
      assert pending == Some(h) || ThreadConsistent(t, h);
    }
  }

  lemma UpdateThreadLastMailKeeps(t: Tables, thread: nat, id: nat, lastMessage: int)
    requires Consistent(t, None)
    ensures var t' := UpdateThreadLastMail(t, thread, id, lastMessage);
            Evolves(t, t') && Consistent(t', None) && t'.mail == t.mail
  {
    var t' := UpdateThreadLastMail(t, thread, id, lastMessage);
    forall m: nat ensures MailEvolves(t, t', m) && MailConsistent(t', m) { assert MailConsistent(t, m); }
    forall h: nat ensures ThreadEvolves(t, t', h) && ThreadConsistent(t', h) { assert ThreadConsistent(t, h); }
  }

  lemma AddThreadKeeps(t: Tables, thread: nat, id: nat, now: int)
    requires Consistent(t, None) && thread !in t.thread && thread != 0
    ensures var t' := AddThread(t, thread, id, now);
            Evolves(t, t') && Consistent(t', Some(thread)) && t'.mail == t.mail
  {
    var t' := AddThread(t, thread, id, now);
    forall m: nat ensures MailEvolves(t, t', m) && MailConsistent(t', m) { assert MailConsistent(t, m); }
    forall h: nat ensures ThreadEvolves(t, t', h) && (h == thread || ThreadConsistent(t', h)) {
      assert ThreadConsistent(t, h);
    }
  }

  lemma UpdateMailMarkSortedSorts(t: Tables, id: nat, row: MailRow)
    requires Consistent(t, None) && Unsorted(t, id, row)
    ensures var t' := UpdateMailMarkSorted(t, id);
            Sorts(t, t', id, None) && Consistent(t', None)
  {
    var t' := UpdateMailMarkSorted(t, id);
    forall m: nat ensures MailEvolves(t, t', m) && MailSorted(t, t', id, None, m) && MailConsistent(t', m) {
      assert MailConsistent(t, m);
    }
    forall h: nat ensures ThreadEvolves(t, t', h) && ThreadConsistent(t', h) { assert ThreadConsistent(t, h); }
  }

  // ----- the writes of one iteration

  lemma JoinSorts(first: Tables, second: Tables, after: Tables, id: nat, thread: nat, row: MailRow)
    requires Consistent(first, None) && Unsorted(first, id, row) && thread in first.thread
    requires Joins(first, second, after, id, thread, row)
    ensures Sorts(first, after, id, Some(thread)) && Consistent(after, None)
    ensures thread in after.thread && after.thread[thread].enabled && after.thread[thread].lastMail == Some(id)
    ensures NoEarlier(Some(row.timestamp), after.thread[thread].lastMessage)
    ensures after.thread[thread].lastMessage == Some(row.timestamp)
            || after.thread[thread].lastMessage == first.thread[thread].lastMessage
  {
    var written := UpdateMailSorting(first, id, thread, row.replyTo);
    assert ThreadUndisturbed(written, second, thread);
    UpdateMailSortingSorts(first, id, row, thread, None);
    InterferenceKeepsConsistent(written, second, None);
    SortsThenInterferes(first, written, second, id, Some(thread));
    UpdateThreadLastMailKeeps(second, thread, id, row.timestamp);
    SortsThenEvolves(first, second, after, id, Some(thread));
  }

  lemma SortsThenEvolves(t: Tables, t': Tables, t'': Tables, id: nat, thread: Option<nat>)
    requires Sorts(t, t', id, thread) && Evolves(t', t'') && t''.mail == t'.mail
    ensures Sorts(t, t'', id, thread)
  {
    EvolvesTransitively(t, t', t'');
    forall m: nat ensures MailSorted(t, t'', id, thread, m) { assert MailSorted(t, t', id, thread, m); }
  }

  lemma CreateSorts(first: Tables, second: Tables, after: Tables, id: nat, thread: nat, now: int, row: MailRow)
    requires Consistent(first, None) && Unsorted(first, id, row)
    requires Creates(first, second, after, id, thread, now, row)
    ensures Sorts(first, after, id, Some(thread)) && Consistent(after, None)
    ensures thread in after.thread
    ensures var h := after.thread[thread];
            h.firstMail == Some(id) && h.lastMail == Some(id) && h.lastMessage == Some(now)
    ensures NoCommandOn(AddThread(first, thread, id, now), second, thread) ==> IsOpen(after, thread)
  {
    var added := AddThread(first, thread, id, now);
    AddThreadKeeps(first, thread, id, now);
    InterferenceKeepsConsistent(added, second, Some(thread));
    assert ThreadUndisturbed(added, second, thread) && Unsorted(added, id, row);
    UnsortedUnderInterference(added, second, id, row);
    UpdateMailSortingSorts(second, id, row, thread, Some(thread));
    InterferesThenSorts(added, second, after, id, Some(thread));
    EvolvesTransitively(first, added, after);
    forall m: nat ensures MailSorted(first, after, id, Some(thread), m) {
      assert MailSorted(added, after, id, Some(thread), m);
    }
    assert ThreadEvolves(second, after, thread) && MailSorted(second, after, id, Some(thread), id);
    forall h: nat ensures ThreadConsistent(after, h) {
      assert Some(thread) == Some(h) || ThreadConsistent(after, h);
    }
  }

  lemma JoinTargetExists(step: Step, blacklisted: string -> bool)
    requires ValidStep(step, blacklisted) && Consistent(step.seen, None) && step.choice.Join?
    ensures step.choice.thread in step.first.thread
  {
    var h := step.choice.thread;
    assert ThreadUndisturbed(step.seen, step.sought, h) && ThreadUndisturbed(step.sought, step.first, h);
    if ReplyThread(step.seen, step.row).Some? {
      assert MailConsistent(step.seen, step.row.replyTo.value);
    }
  }

  lemma WritesSort(step: Step)
    requires Writes(step) && Consistent(step.first, None) && Unsorted(step.first, step.id, step.row)
    requires step.choice.Join? ==> step.choice.thread in step.first.thread
    ensures Sorts(step.first, step.after, step.id, ThreadOf(step.choice)) && Consistent(step.after, None)
  {
    match step.choice
    case Join(thread) => JoinSorts(step.first, step.second, step.after, step.id, thread, step.row);
    case Create(thread, now) => CreateSorts(step.first, step.second, step.after, step.id, thread, now, step.row);
    case Ignore => UpdateMailMarkSortedSorts(step.first, step.id, step.row);
  }

  /** One iteration sorts its mail as chosen, touches no other, and leaves the tables consistent. */
  lemma StepSorts(step: Step, blacklisted: string -> bool)
    requires ValidStep(step, blacklisted) && Consistent(step.seen, None) && Unsorted(step.seen, step.id, step.row)
    ensures Sorts(step.seen, step.after, step.id, ThreadOf(step.choice)) && Consistent(step.after, None)
  {
    InterferenceKeepsConsistent(step.seen, step.sought, None);
    InterferenceKeepsConsistent(step.sought, step.first, None);
    UnsortedUnderInterference(step.seen, step.sought, step.id, step.row);
    UnsortedUnderInterference(step.sought, step.first, step.id, step.row);
    if step.choice.Join? { JoinTargetExists(step, blacklisted); }
    WritesSort(step);
    InterferesThenSorts(step.sought, step.first, step.after, step.id, ThreadOf(step.choice));
    InterferesThenSorts(step.seen, step.sought, step.after, step.id, ThreadOf(step.choice));
  }

  // ----- a whole pass

  /** The snapshot that GetMailsRequiringSorting returns: the unsorted mails, oldest first. */
  ghost predicate IsSnapshot(t: Tables, order: seq<(nat, MailRow)>) {
    && (forall k :: 0 <= k < |order| ==> order[k].0 in t.mail && order[k].1 == t.mail[order[k].0] && !order[k].1.sorted)
    && (forall m :: m in t.mail && !t.mail[m].sorted ==> exists k :: 0 <= k < |order| && order[k].0 == m)
    && (forall k, l :: 0 <= k < l < |order| ==>
          order[k].0 != order[l].0 && order[k].1.timestamp <= order[l].1.timestamp)
  }

  ghost function At(start: Tables, steps: seq<Step>, n: nat): Tables
    requires n <= |steps|
  {
    if n == 0 then start else steps[n - 1].after
  }

  /** Step k processes the k-th mail of the snapshot, after some interference. */
  ghost predicate IsStepAt(start: Tables, order: seq<(nat, MailRow)>, steps: seq<Step>, k: nat,
                           blacklisted: string -> bool)
    requires k < |steps| && k < |order|
  {
    && steps[k].id == order[k].0 && steps[k].row == order[k].1
    && Interferes(At(start, steps, k), steps[k].seen)
    && ValidStep(steps[k], blacklisted)
  }

  /** The first n mails of the snapshot have been processed, one step each. */
  ghost predicate IsPass(start: Tables, order: seq<(nat, MailRow)>, steps: seq<Step>, n: nat,
                         blacklisted: string -> bool)
  {
    n <= |steps| && n <= |order| && forall k: nat :: k < n ==> IsStepAt(start, order, steps, k, blacklisted)
  }

  /** The k-th mail of the snapshot after n iterations: sorted as chosen, or still as the snapshot has it. */
  predicate EntryOk(order: seq<(nat, MailRow)>, steps: seq<Step>, n: nat, t: Tables, k: nat)
    requires n <= |steps|
  {
    k < |order| ==>
      if k < n then
        order[k].0 in t.mail && t.mail[order[k].0].sorted && t.mail[order[k].0].thread == ThreadOf(steps[k].choice)
      else Unsorted(t, order[k].0, order[k].1)
  }

  /** After n iterations the first n mails are sorted as chosen, and the others are as the snapshot has them. */
  ghost predicate Progress(start: Tables, order: seq<(nat, MailRow)>, steps: seq<Step>, n: nat, t: Tables)
    requires n <= |steps|
  {
    Consistent(t, None) && Evolves(start, t) && forall k: nat :: EntryOk(order, steps, n, t, k)
  }

  lemma ProgressUnderInterference(start: Tables, order: seq<(nat, MailRow)>, steps: seq<Step>, n: nat,
                                  t: Tables, t': Tables)
    requires n <= |steps| && Progress(start, order, steps, n, t) && Interferes(t, t')
    ensures Progress(start, order, steps, n, t')
  {
    InterferenceEvolves(t, t');
    InterferenceKeepsConsistent(t, t', None);
    EvolvesTransitively(start, t, t');
    forall k: nat ensures EntryOk(order, steps, n, t', k) {
      assert EntryOk(order, steps, n, t, k);
      if k < |order| { assert MailUndisturbed(t, t', order[k].0); }
    }
  }

  lemma ProgressByStep(start: Tables, order: seq<(nat, MailRow)>, steps: seq<Step>, n: nat, blacklisted: string -> bool)
    requires n < |steps| && n < |order| && IsSnapshot(start, order) && IsStepAt(start, order, steps, n, blacklisted)
    requires Progress(start, order, steps, n, At(start, steps, n))
    ensures Progress(start, order, steps, n, steps[n].seen)
    ensures Progress(start, order, steps, n + 1, steps[n].after)
  {
    var step := steps[n];
    ProgressUnderInterference(start, order, steps, n, At(start, steps, n), step.seen);
    assert EntryOk(order, steps, n, step.seen, n);
    StepSorts(step, blacklisted);
    EvolvesTransitively(start, step.seen, step.after);
    var processed := n + 1;
    forall k: nat ensures EntryOk(order, steps, processed, step.after, k) {
      assert EntryOk(order, steps, n, step.seen, k);
      if k < |order| { assert MailSorted(step.seen, step.after, step.id, ThreadOf(step.choice), order[k].0); }
    }
  }

  lemma ProgressAtStart(start: Tables, order: seq<(nat, MailRow)>, steps: seq<Step>)
    requires IsSnapshot(start, order) && Consistent(start, None)
    ensures Progress(start, order, steps, 0, start)
  {
    forall k: nat ensures EntryOk(order, steps, 0, start, k) {
      if k < |order| { assert MailConsistent(start, order[k].0); }
    }
    EvolvesReflexively(start, start);
  }

  lemma {:induction false} PassMakesProgress(start: Tables, order: seq<(nat, MailRow)>, steps: seq<Step>, n: nat,
                                             blacklisted: string -> bool)
    requires IsPass(start, order, steps, n, blacklisted) && IsSnapshot(start, order) && Consistent(start, None)
    ensures Progress(start, order, steps, n, At(start, steps, n))
  {
    if n == 0 {
      ProgressAtStart(start, order, steps);
    } else {
      assert IsStepAt(start, order, steps, n - 1, blacklisted);
      PassMakesProgress(start, order, steps, n - 1, blacklisted);
      ProgressByStep(start, order, steps, n - 1, blacklisted);
    }
  }

  /** A complete pass: the whole snapshot has been processed, and end is the state some time after. */
  ghost predicate IsWholePass(start: Tables, order: seq<(nat, MailRow)>, steps: seq<Step>, end: Tables,
                              blacklisted: string -> bool)
  {
    Consistent(start, None) && IsPassOf(start, order, steps, end, blacklisted)
  }

  ghost predicate IsPassOf(start: Tables, order: seq<(nat, MailRow)>, steps: seq<Step>, end: Tables,
                           blacklisted: string -> bool)
  {
    && IsSnapshot(start, order)
    && |steps| == |order| && IsPass(start, order, steps, |order|, blacklisted)
    && Interferes(At(start, steps, |order|), end)
  }

  lemma PassEnds(start: Tables, order: seq<(nat, MailRow)>, steps: seq<Step>, end: Tables, blacklisted: string -> bool)
    requires IsWholePass(start, order, steps, end, blacklisted)
    ensures Progress(start, order, steps, |order|, end)
  {
    PassMakesProgress(start, order, steps, |order|, blacklisted);
    ProgressUnderInterference(start, order, steps, |order|, At(start, steps, |order|), end);
  }

  /**
   * Every mail of the snapshot ends up sorted, in the thread of its reply parent if that was open when looked up,
   * else in the thread of a latest open mail that it references, else, unless its sender is blacklisted, in a thread
   * of its own; only a blacklisted sender's mail can be left in none. The tables end consistent, in particular each
   * thread's first mail belongs to it, and on the way no mail has changed its thread and no last_message decreased.
   */
  lemma PassSortsSnapshot(start: Tables, order: seq<(nat, MailRow)>, steps: seq<Step>, end: Tables,
                          blacklisted: string -> bool)
    requires IsWholePass(start, order, steps, end, blacklisted)
    ensures Consistent(end, None) && Evolves(start, end)
    ensures forall k: nat :: k < |order| ==> EntryDone(start, order, steps, end, blacklisted, k)
  {
    PassEnds(start, order, steps, end, blacklisted);
    forall k: nat | k < |order| ensures EntryDone(start, order, steps, end, blacklisted, k) {
      assert EntryOk(order, steps, |order|, end, k);
      assert IsStepAt(start, order, steps, k, blacklisted);
      if steps[k].choice.Create? {
        CreatedThreadIsNew(start, order, steps, end, blacklisted, k);
      }
    }
  }

  ghost predicate EntryDone(start: Tables, order: seq<(nat, MailRow)>, steps: seq<Step>, end: Tables,
                            blacklisted: string -> bool, k: nat)
    requires k < |order| == |steps|
  {
    var (id, row) := order[k];
    var seen, sought := steps[k].seen, steps[k].sought;
    && id in end.mail && end.mail[id].sorted
    && if ReplyThread(seen, row).Some? then end.mail[id].thread == ReplyThread(seen, row)
       else if exists m :: IsReferenced(sought, row.references, m) then
         exists m :: IsReferencedThreadParent(sought, row.references, m) && end.mail[id].thread == sought.mail[m].thread
       else if blacklisted(row.addrFrom) then end.mail[id].thread.None?
       else end.mail[id].thread.Some? && BeginsThread(start, end, id, end.mail[id].thread.value)
  }

  /** Thread h did not exist at the start, and mail id is its first mail. */
  predicate BeginsThread(start: Tables, end: Tables, id: nat, h: nat) {
    h !in start.thread && h in end.thread && end.thread[h].firstMail == Some(id)
  }

  /**
   * A mail without an open reply parent joins the thread of the latest of the mails that it references and that are in
   * a thread that is not force-closed, if there are such mails.
   */
  lemma LatestReferenceWins(start: Tables, order: seq<(nat, MailRow)>, steps: seq<Step>, end: Tables,
                            blacklisted: string -> bool, k: nat, other: nat)
    requires IsWholePass(start, order, steps, end, blacklisted) && k < |order|
    requires ReplyThread(steps[k].seen, order[k].1).None?
    requires var t := steps[k].sought;
             && other in t.mail && t.mail[other].headerId in order[k].1.references && t.mail[other].thread.Some?
             && t.mail[other].thread.value in t.thread && !t.thread[t.mail[other].thread.value].forceClose
    ensures var t := steps[k].sought;
            exists m :: && m in t.mail && t.mail[m].headerId in order[k].1.references && t.mail[m].thread.Some?
                        && t.mail[m].timestamp >= t.mail[other].timestamp && !ForceClosed(t, t.mail[m].thread.value)
                        && order[k].0 in end.mail && end.mail[order[k].0].thread == t.mail[m].thread
  {
    PassSortsSnapshot(start, order, steps, end, blacklisted);
    assert EntryDone(start, order, steps, end, blacklisted, k);
    assert IsReferenced(steps[k].sought, order[k].1.references, other);
  }

  /** The parent of a reply is what counts: it is looked up by identifier, and its thread must not be force-closed. */
  lemma OpenParentIsFound(t: Tables, row: MailRow, thread: nat)
    ensures ReplyThread(t, row) == Some(thread) <==>
              && row.replyTo.Some? && row.replyTo.value in t.mail && t.mail[row.replyTo.value].thread == Some(thread)
              && (thread in t.thread ==> !t.thread[thread].forceClose)
  {
  }

  lemma CreatedThreadIsNew(start: Tables, order: seq<(nat, MailRow)>, steps: seq<Step>, end: Tables,
                           blacklisted: string -> bool, k: nat)
    requires IsWholePass(start, order, steps, end, blacklisted) && k < |order| && steps[k].choice.Create?
    ensures BeginsThread(start, end, order[k].0, steps[k].choice.thread)
  {
    var step, h := steps[k], steps[k].choice.thread;
    assert IsStepAt(start, order, steps, k, blacklisted);
    SeenThreadLasts(start, order, steps, end, blacklisted, k);
    AfterStepLasts(start, order, steps, end, blacklisted, k);
    assert ThreadEvolves(start, step.seen, h);
    assert ThreadUndisturbed(step.seen, step.sought, h) && ThreadUndisturbed(step.sought, step.first, h);
    assert ThreadUndisturbed(AddThread(step.first, h, step.id, step.choice.now), step.second, h);
    assert ThreadEvolves(step.after, end, h);
  }

  /** What is in a thread when step k looks it up is in the same thread at the end. */
  lemma SeenThreadLasts(start: Tables, order: seq<(nat, MailRow)>, steps: seq<Step>, end: Tables,
                        blacklisted: string -> bool, k: nat)
    requires IsWholePass(start, order, steps, end, blacklisted) && k < |order|
    ensures Evolves(start, steps[k].seen) && Evolves(steps[k].seen, end)
    ensures Progress(start, order, steps, k, steps[k].seen)
  {
    PassMakesProgress(start, order, steps, k, blacklisted);
    assert IsStepAt(start, order, steps, k, blacklisted);
    ProgressByStep(start, order, steps, k, blacklisted);
    StepsEvolve(start, order, steps, k, |order|, blacklisted);
    InterferenceEvolves(At(start, steps, |order|), end);
    EvolvesTransitively(steps[k].seen, At(start, steps, |order|), end);
  }

  lemma {:induction false} StepsEvolve(start: Tables, order: seq<(nat, MailRow)>, steps: seq<Step>, k: nat, n: nat,
                                       blacklisted: string -> bool)
    requires IsSnapshot(start, order) && Consistent(start, None) && IsPass(start, order, steps, n, blacklisted) && k < n
    ensures Evolves(steps[k].seen, At(start, steps, n))
    decreases n
  {
    PassMakesProgress(start, order, steps, n - 1, blacklisted);
    assert IsStepAt(start, order, steps, n - 1, blacklisted);
    ProgressByStep(start, order, steps, n - 1, blacklisted);
    var last := steps[n - 1];
    assert EntryOk(order, steps, n - 1, last.seen, n - 1);
    StepSorts(last, blacklisted);
    if k < n - 1 {
      StepsEvolve(start, order, steps, k, n - 1, blacklisted);
      InterferenceEvolves(At(start, steps, n - 1), last.seen);
      EvolvesTransitively(steps[k].seen, At(start, steps, n - 1), last.seen);
      EvolvesTransitively(steps[k].seen, last.seen, last.after);
    }
  }

  lemma AfterStepLasts(start: Tables, order: seq<(nat, MailRow)>, steps: seq<Step>, end: Tables,
                       blacklisted: string -> bool, k: nat)
    requires IsWholePass(start, order, steps, end, blacklisted) && k < |order|
    ensures Evolves(steps[k].after, end)
  {
    if k + 1 < |order| {
      assert IsStepAt(start, order, steps, k + 1, blacklisted);
      InterferenceEvolves(steps[k].after, steps[k + 1].seen);
      SeenThreadLasts(start, order, steps, end, blacklisted, k + 1);
      EvolvesTransitively(steps[k].after, steps[k + 1].seen, end);
    } else {
      InterferenceEvolves(steps[k].after, end);
    }
  }

  /**
   * A processed mail whose reply parent is in a thread that is not force-closed when it is looked up ends up in the
   * thread in which the parent ends up.
   */
  lemma ReplyJoinsParent(start: Tables, order: seq<(nat, MailRow)>, steps: seq<Step>, end: Tables,
                         blacklisted: string -> bool, k: nat, thread: nat)
    requires IsWholePass(start, order, steps, end, blacklisted) && k < |order|
    requires ReplyThread(steps[k].seen, order[k].1) == Some(thread)
    ensures order[k].0 in end.mail && end.mail[order[k].0].thread == Some(thread)
    ensures order[k].1.replyTo.value in end.mail && end.mail[order[k].1.replyTo.value].thread == Some(thread)
  {
    PassEnds(start, order, steps, end, blacklisted);
    SeenThreadLasts(start, order, steps, end, blacklisted, k);
    assert IsStepAt(start, order, steps, k, blacklisted);
    assert EntryOk(order, steps, |order|, end, k);
    assert MailEvolves(steps[k].seen, end, order[k].1.replyTo.value);
  }

  /** chain lists positions in the snapshot such that each mail is a reply to the one before it. */
  ghost predicate IsReplyChain(order: seq<(nat, MailRow)>, chain: seq<nat>) {
    && (forall i :: 0 <= i < |chain| ==> chain[i] < |order|)
    && (forall i :: 0 < i < |chain| ==>
          chain[i - 1] < chain[i] && order[chain[i]].1.replyTo == Some(order[chain[i - 1]].0))
  }

  lemma ReplyFollowsParent(start: Tables, order: seq<(nat, MailRow)>, steps: seq<Step>, end: Tables,
                           blacklisted: string -> bool, k: nat, parent: nat, thread: nat)
    requires IsWholePass(start, order, steps, end, blacklisted) && parent < k < |order|
    requires order[k].1.replyTo == Some(order[parent].0) && ThreadOf(steps[parent].choice) == Some(thread)
    requires !ForceClosed(steps[k].seen, thread)
    ensures ThreadOf(steps[k].choice) == Some(thread)
  {
    SeenThreadLasts(start, order, steps, end, blacklisted, k);
    assert EntryOk(order, steps, k, steps[k].seen, parent);
    assert IsStepAt(start, order, steps, k, blacklisted);
  }

  /**
   * Reply trees stay together: along any chain of replies in processing order, all mails end up in the thread of the
   * first one, provided that the thread is not force-closed whenever one of them is looked up.
   */
  lemma {:induction false} ReplyChainStaysTogether(start: Tables, order: seq<(nat, MailRow)>, steps: seq<Step>,
                                                   end: Tables, blacklisted: string -> bool, chain: seq<nat>,
                                                   thread: nat)
    requires IsWholePass(start, order, steps, end, blacklisted) && IsReplyChain(order, chain) && chain != []
    requires ThreadOf(steps[chain[0]].choice) == Some(thread)
    requires forall i :: 0 < i < |chain| ==> !ForceClosed(steps[chain[i]].seen, thread)
    ensures forall i :: 0 <= i < |chain| ==>
              order[chain[i]].0 in end.mail && end.mail[order[chain[i]].0].thread == Some(thread)
    ensures ThreadOf(steps[chain[|chain| - 1]].choice) == Some(thread)
  {
    PassEnds(start, order, steps, end, blacklisted);
    var last := |chain| - 1;
    assert EntryOk(order, steps, |order|, end, chain[last]);
    if last > 0 {
      ReplyChainStaysTogether(start, order, steps, end, blacklisted, chain[..last], thread);
      assert chain[..last][last - 1] == chain[last - 1];
      ReplyFollowsParent(start, order, steps, end, blacklisted, chain[last], chain[last - 1], thread);
    }
  }

  // ----- force-closed threads

  /** The tables in which the step found the thread that it joins. */
  function Lookup(step: Step): Tables {
    if ReplyThread(step.seen, step.row).Some? then step.seen else step.sought
  }

  /** A command force-closes thread h after the lookup that chose it, before the first statement of AddMailToThread. */
  predicate ClosedBeforeFirst(step: Step, h: nat) {
    step.choice == Join(h) && !ForceClosed(Lookup(step), h) && ForceClosed(step.first, h)
  }

  /** The same, before the second statement. */
  predicate ClosedBeforeSecond(step: Step, h: nat) {
    step.choice == Join(h) && !ForceClosed(Lookup(step), h) && ForceClosed(step.second, h)
  }

  /** The step puts its mail into thread h, which is force-closed at that moment. */
  predicate JoinsClosed(step: Step, h: nat) {
    ForceClosed(step.first, h) && step.id in step.after.mail && step.after.mail[step.id].thread == Some(h)
  }

  lemma ChosenIsOpen(step: Step, blacklisted: string -> bool, h: nat)
    requires ValidStep(step, blacklisted) && step.choice == Join(h)
    ensures !ForceClosed(Lookup(step), h)
  {
  }

  /**
   * A step puts its mail into a force-closed thread if and only if a command closes the thread between the lookup that
   * chose it and the first write.
   */
  lemma StepJoinsClosedExactly(step: Step, blacklisted: string -> bool, h: nat)
    requires ValidStep(step, blacklisted) && Consistent(step.seen, None) && Unsorted(step.seen, step.id, step.row)
    ensures JoinsClosed(step, h) <==> ClosedBeforeFirst(step, h)
  {
    StepSorts(step, blacklisted);
    assert MailSorted(step.seen, step.after, step.id, ThreadOf(step.choice), step.id);
    if step.choice == Join(h) { ChosenIsOpen(step, blacklisted, h); }
  }

  /**
   * A step leaves a thread both enabled and force-closed if and only if it was so before the second write, or a command
   * closes the thread between the lookup that chose it and the second write.
   */
  lemma StepReopensExactly(step: Step, blacklisted: string -> bool, h: nat)
    requires ValidStep(step, blacklisted) && Consistent(step.seen, None)
    ensures Reopened(step.after, h) <==> Reopened(step.second, h) || ClosedBeforeSecond(step, h)
    ensures Reopened(step.second, h) ==> Reopened(step.seen, h)
  {
    assert ThreadUndisturbed(step.seen, step.sought, h) && ThreadUndisturbed(step.sought, step.first, h);
    match step.choice
    case Join(thread) =>
      JoinTargetExists(step, blacklisted);
      ChosenIsOpen(step, blacklisted, thread);
      assert ThreadUndisturbed(UpdateMailSorting(step.first, step.id, thread, step.row.replyTo), step.second, h);
    case Create(thread, now) =>
      assert ThreadUndisturbed(AddThread(step.first, thread, step.id, now), step.second, h);
    case Ignore =>
  }

  /** Iteration k runs on consistent tables, with its mail still unsorted. */
  lemma StepStartsWell(start: Tables, order: seq<(nat, MailRow)>, steps: seq<Step>, end: Tables,
                       blacklisted: string -> bool, k: nat)
    requires IsWholePass(start, order, steps, end, blacklisted) && k < |order|
    ensures IsStepAt(start, order, steps, k, blacklisted)
    ensures Consistent(steps[k].seen, None) && Unsorted(steps[k].seen, steps[k].id, steps[k].row)
  {
    SeenThreadLasts(start, order, steps, end, blacklisted, k);
    assert IsStepAt(start, order, steps, k, blacklisted);
    assert EntryOk(order, steps, k, steps[k].seen, k);
  }

  /** Mail k of the snapshot is in h at the end, and h was force-closed when AddMailToThread put it there. */
  predicate EndsInClosed(order: seq<(nat, MailRow)>, steps: seq<Step>, end: Tables, k: nat, h: nat)
    requires k < |order| == |steps|
  {
    ForceClosed(steps[k].first, h) && order[k].0 in end.mail && end.mail[order[k].0].thread == Some(h)
  }

  /** A whole pass puts mail k into a force-closed thread if and only if a command closes it during iteration k. */
  lemma PassJoinsClosedExactly(start: Tables, order: seq<(nat, MailRow)>, steps: seq<Step>, end: Tables,
                               blacklisted: string -> bool, k: nat, h: nat)
    requires IsWholePass(start, order, steps, end, blacklisted) && k < |order|
    ensures EndsInClosed(order, steps, end, k, h) <==> ClosedBeforeFirst(steps[k], h)
  {
    PassEnds(start, order, steps, end, blacklisted);
    assert EntryOk(order, steps, |order|, end, k);
    StepStartsWell(start, order, steps, end, blacklisted, k);
    StepJoinsClosedExactly(steps[k], blacklisted, h);
    StepSorts(steps[k], blacklisted);
    assert MailSorted(steps[k].seen, steps[k].after, steps[k].id, ThreadOf(steps[k].choice), steps[k].id);
  }

  /** Iteration k of the pass brings thread h into the state of being enabled and force-closed. */
  predicate Reopens(steps: seq<Step>, k: nat, h: nat)
    requires k < |steps|
  {
    Reopened(steps[k].after, h) && !Reopened(steps[k].second, h)
  }

  /**
   * An iteration of a pass brings a thread into the state of being both enabled and force-closed if and only if a
   * command closes the thread after the lookup that chose it and before the second write, and the thread is not in
   * that state then. Only so, and by nothing else during the pass, can a thread get into that state.
   */
  lemma PassReopensExactly(start: Tables, order: seq<(nat, MailRow)>, steps: seq<Step>, end: Tables,
                           blacklisted: string -> bool, h: nat)
    requires IsWholePass(start, order, steps, end, blacklisted)
    ensures forall k: nat :: k < |order| ==>
              (Reopens(steps, k, h) <==> ClosedBeforeSecond(steps[k], h) && !Reopened(steps[k].second, h))
    ensures Reopened(end, h) ==> Reopened(start, h) || exists k: nat :: k < |order| && Reopens(steps, k, h)
    ensures !Reopened(start, h) ==>
              ((exists k :: 0 <= k < |order| && Reopened(steps[k].after, h)) <==>
               exists k :: 0 <= k < |order| && ClosedBeforeSecond(steps[k], h))
  {
    forall k: nat | k < |order|
      ensures Reopens(steps, k, h) <==> ClosedBeforeSecond(steps[k], h) && !Reopened(steps[k].second, h)
      ensures ClosedBeforeSecond(steps[k], h) ==> Reopened(steps[k].after, h)
    {
      StepStartsWell(start, order, steps, end, blacklisted, k);
      StepReopensExactly(steps[k], blacklisted, h);
    }
    forall n: nat | n <= |order| && Reopened(At(start, steps, n), h) && !Reopened(start, h)
      ensures exists k: nat :: k < |order| && Reopens(steps, k, h)
    {
      FirstToReopen(start, order, steps, end, blacklisted, n, h);
    }
    assert forall k :: 0 <= k < |order| ==> At(start, steps, k + 1) == steps[k].after;
    assert ThreadUndisturbed(At(start, steps, |order|), end, h);
  }

  lemma {:induction false} FirstToReopen(start: Tables, order: seq<(nat, MailRow)>, steps: seq<Step>, end: Tables,
                                         blacklisted: string -> bool, n: nat, h: nat)
    requires IsWholePass(start, order, steps, end, blacklisted) && n <= |order|
    requires Reopened(At(start, steps, n), h) && !Reopened(start, h)
    ensures exists k: nat :: k < n && Reopens(steps, k, h)
  {
    var last := n - 1;
    StepStartsWell(start, order, steps, end, blacklisted, last);
    StepReopensExactly(steps[last], blacklisted, h);
    assert ThreadUndisturbed(At(start, steps, last), steps[last].seen, h);
    if Reopened(steps[last].second, h) {
      FirstToReopen(start, order, steps, end, blacklisted, last, h);
    } else {
      assert Reopens(steps, last, h);
    }
  }

  /**
   * While no command changes whether h is force-closed, a pass puts no mail into a force-closed thread and enables
   * none, whatever happens to other threads.
   */
  lemma ForceClosedStaysClosed(start: Tables, order: seq<(nat, MailRow)>, steps: seq<Step>, end: Tables,
                               blacklisted: string -> bool, h: nat)
    requires IsWholePass(start, order, steps, end, blacklisted)
    requires forall k :: 0 <= k < |order| ==> ForceClosed(steps[k].seen, h) && ForceClosed(steps[k].sought, h)
    ensures forall k :: 0 <= k < |order| ==> order[k].0 in end.mail && end.mail[order[k].0].thread != Some(h)
    ensures Reopened(end, h) ==> Reopened(start, h)
  {
    PassEnds(start, order, steps, end, blacklisted);
    forall k | 0 <= k < |order| ensures order[k].0 in end.mail && end.mail[order[k].0].thread != Some(h) {
      assert EntryOk(order, steps, |order|, end, k);
      StepStartsWell(start, order, steps, end, blacklisted, k);
      assert ThreadUndisturbed(steps[k].seen, steps[k].sought, h);
      assert ThreadUndisturbed(steps[k].sought, steps[k].first, h);
    }
    PassReopensExactly(start, order, steps, end, blacklisted, h);
  }

  // ----- passes without commands

  /** The tables between the two writes, before anyone else has changed them. */
  function Written(step: Step): Tables {
    match step.choice
    case Join(thread) => UpdateMailSorting(step.first, step.id, thread, step.row.replyTo)
    case Create(thread, now) => AddThread(step.first, thread, step.id, now)
    case Ignore => step.first
  }

  /** No command opens or closes thread h during iteration k, nor between it and the one before. */
  predicate QuietStep(before: Tables, step: Step, h: nat) {
    && NoCommandOn(before, step.seen, h) && NoCommandOn(step.seen, step.sought, h)
    && NoCommandOn(step.sought, step.first, h) && NoCommandOn(Written(step), step.second, h)
  }

  /** No command opens or closes thread h during the pass. */
  ghost predicate QuietPass(start: Tables, steps: seq<Step>, h: nat) {
    forall k :: 0 <= k < |steps| ==> QuietStep(At(start, steps, k), steps[k], h)
  }

  lemma QuietStepKeepsOpen(before: Tables, step: Step, blacklisted: string -> bool, h: nat)
    requires Interferes(before, step.seen) && ValidStep(step, blacklisted) && QuietStep(before, step, h)
    requires !ForceClosed(before, h)
    ensures !ForceClosed(step.seen, h) && !ForceClosed(step.after, h)
  {
    assert ThreadUndisturbed(before, step.seen, h) && ThreadUndisturbed(step.seen, step.sought, h);
    assert ThreadUndisturbed(step.sought, step.first, h);
    assert step.choice.Ignore? || ThreadUndisturbed(Written(step), step.second, h);
  }

  /** If h is not force-closed after k iterations, it is not when iteration k looks for parents, nor after it. */
  ghost predicate StaysOpen(start: Tables, steps: seq<Step>, k: nat, h: nat)
    requires k < |steps|
  {
    !ForceClosed(At(start, steps, k), h) ==> !ForceClosed(steps[k].seen, h) && !ForceClosed(At(start, steps, k + 1), h)
  }

  lemma QuietIteration(start: Tables, order: seq<(nat, MailRow)>, steps: seq<Step>, end: Tables,
                       blacklisted: string -> bool, k: nat, h: nat)
    requires IsWholePass(start, order, steps, end, blacklisted) && QuietPass(start, steps, h) && k < |order|
    ensures StaysOpen(start, steps, k, h)
  {
    if !ForceClosed(At(start, steps, k), h) {
      assert IsStepAt(start, order, steps, k, blacklisted);
      QuietStepKeepsOpen(At(start, steps, k), steps[k], blacklisted, h);
    }
  }

  lemma {:induction false} OpenFrom(start: Tables, steps: seq<Step>, k: nat, n: nat, h: nat)
    requires k <= n < |steps| && !ForceClosed(At(start, steps, k), h)
    requires forall l: nat :: l < |steps| ==> StaysOpen(start, steps, l, h)
    ensures !ForceClosed(steps[n].seen, h)
    decreases n - k
  {
    assert StaysOpen(start, steps, k, h);
    if k < n { OpenFrom(start, steps, k + 1, n, h); }
  }

  lemma AllStayOpen(start: Tables, order: seq<(nat, MailRow)>, steps: seq<Step>, end: Tables,
                    blacklisted: string -> bool, h: nat)
    requires IsWholePass(start, order, steps, end, blacklisted) && QuietPass(start, steps, h)
    ensures forall l: nat :: l < |steps| ==> StaysOpen(start, steps, l, h)
  {
    forall l: nat | l < |steps| ensures StaysOpen(start, steps, l, h) {
      QuietIteration(start, order, steps, end, blacklisted, l, h);
    }
  }

  lemma CreatedThreadIsOpen(start: Tables, order: seq<(nat, MailRow)>, steps: seq<Step>, end: Tables,
                            blacklisted: string -> bool, k: nat, h: nat)
    requires IsWholePass(start, order, steps, end, blacklisted) && k < |order| && QuietPass(start, steps, h)
    requires steps[k].choice.Create? && steps[k].choice.thread == h
    ensures IsOpen(steps[k].after, h)
  {
    var step := steps[k];
    StepStartsWell(start, order, steps, end, blacklisted, k);
    InterferenceKeepsConsistent(step.seen, step.sought, None);
    InterferenceKeepsConsistent(step.sought, step.first, None);
    UnsortedUnderInterference(step.seen, step.sought, step.id, step.row);
    UnsortedUnderInterference(step.sought, step.first, step.id, step.row);
    CreateSorts(step.first, step.second, step.after, step.id, h, step.choice.now, step.row);
  }

  /** From the first mail of the chain on, h is not force-closed when an iteration looks for parents. */
  lemma OpenWhenSeen(start: Tables, order: seq<(nat, MailRow)>, steps: seq<Step>, end: Tables,
                     blacklisted: string -> bool, head: nat, h: nat)
    requires IsWholePass(start, order, steps, end, blacklisted) && head < |order| && QuietPass(start, steps, h)
    requires ThreadOf(steps[head].choice) == Some(h) && (steps[head].choice.Create? || !ForceClosed(start, h))
    ensures forall k :: head < k < |order| ==> !ForceClosed(steps[k].seen, h)
  {
    AllStayOpen(start, order, steps, end, blacklisted, h);
    if steps[head].choice.Create? { CreatedThreadIsOpen(start, order, steps, end, blacklisted, head, h); }
    forall k | head < k < |order| ensures !ForceClosed(steps[k].seen, h) {
      if steps[head].choice.Create? { OpenAfter(start, steps, head, k, h); } else { OpenFrom(start, steps, 0, k, h); }
    }
  }

  lemma OpenAfter(start: Tables, steps: seq<Step>, head: nat, k: nat, h: nat)
    requires head < k < |steps| && IsOpen(steps[head].after, h)
    requires forall l: nat :: l < |steps| ==> StaysOpen(start, steps, l, h)
    ensures !ForceClosed(steps[k].seen, h)
  {
    var next := head + 1;
    assert At(start, steps, next) == steps[head].after;
    OpenFrom(start, steps, next, k, h);
  }

  /**
   * If no command opens or closes it, a thread that is created during a pass takes all chains of replies that begin
   * with its first mail, and one that is not force-closed at the start all chains that begin with a mail joining it.
   */
  lemma QuietReplyChain(start: Tables, order: seq<(nat, MailRow)>, steps: seq<Step>, end: Tables,
                        blacklisted: string -> bool, chain: seq<nat>, h: nat)
    requires IsWholePass(start, order, steps, end, blacklisted) && IsReplyChain(order, chain) && chain != []
    requires ThreadOf(steps[chain[0]].choice) == Some(h) && QuietPass(start, steps, h)
    requires steps[chain[0]].choice.Create? || !ForceClosed(start, h)
    ensures forall i :: 0 <= i < |chain| ==>
              order[chain[i]].0 in end.mail && end.mail[order[chain[i]].0].thread == Some(h)
  {
    OpenWhenSeen(start, order, steps, end, blacklisted, chain[0], h);
    forall i | 0 < i < |chain| ensures !ForceClosed(steps[chain[i]].seen, h) {
      ChainIncreases(order, chain, i);
    }
    ReplyChainStaysTogether(start, order, steps, end, blacklisted, chain, h);
  }

  lemma {:induction false} ChainIncreases(order: seq<(nat, MailRow)>, chain: seq<nat>, i: nat)
    requires IsReplyChain(order, chain) && 0 < i < |chain|
    ensures chain[0] < chain[i]
  {
    if i > 1 { ChainIncreases(order, chain, i - 1); }
  }

  /** The snapshot holds exactly the unsorted mails, and older ones come first. */
  lemma SnapshotExactly(t: Tables, order: seq<(nat, MailRow)>, m: nat, m': nat)
    requires IsSnapshot(t, order)
    ensures m in t.mail && !t.mail[m].sorted <==> exists k :: 0 <= k < |order| && order[k].0 == m
    ensures m in t.mail && !t.mail[m].sorted && m' in t.mail && !t.mail[m'].sorted
            && t.mail[m].timestamp < t.mail[m'].timestamp ==>
              exists k, l :: 0 <= k < l < |order| && order[k] == (m, t.mail[m]) && order[l] == (m', t.mail[m'])
  {
    if m in t.mail && !t.mail[m].sorted && m' in t.mail && !t.mail[m'].sorted
       && t.mail[m].timestamp < t.mail[m'].timestamp {
      var k :| 0 <= k < |order| && order[k].0 == m;
      var l :| 0 <= l < |order| && order[l].0 == m';
      assert order[k].1 == t.mail[m] && order[l].1 == t.mail[m'];
      assert k < l;
    }
  }

  /** In particular a reply to an earlier mail of the snapshot that starts a thread ends up in that thread. */
  lemma ReplyJoinsNewThread(start: Tables, order: seq<(nat, MailRow)>, steps: seq<Step>, end: Tables,
                            blacklisted: string -> bool, parent: nat, k: nat)
    requires IsWholePass(start, order, steps, end, blacklisted) && parent < k < |order|
    requires steps[parent].choice.Create? && order[k].1.replyTo == Some(order[parent].0)
    requires QuietPass(start, steps, steps[parent].choice.thread)
    ensures order[parent].0 in end.mail && end.mail[order[parent].0].thread == Some(steps[parent].choice.thread)
    ensures order[k].0 in end.mail && end.mail[order[k].0].thread == Some(steps[parent].choice.thread)
  {
    var chain := [parent, k];
    QuietReplyChain(start, order, steps, end, blacklisted, chain, steps[parent].choice.thread);
    assert order[chain[0]].0 in end.mail && order[chain[1]].0 in end.mail;
  }

  // ----- commands in the middle of an iteration

  const HEAD := MailRow("<a>", "", [], 0, "x", true, None, true, None, Some(1))
  const REPLY := MailRow("<b>", "<a>", ["<a>"], 1, "x", false, None, false, Some(0), None)
  const OPEN := ThreadRow(true, false, None, None, Some(0), Some(0), Some(0))

  /** Thread 1 with mail 0, open or force-closed, and mail 1, a reply to mail 0 that is in the given thread. */
  function ReplyTables(closed: bool, joined: bool): Tables {
    Tables(map[0 := HEAD, 1 := if joined then REPLY.(thread := Some(1), sorted := true) else REPLY],
           map[1 := if closed then OPEN.(enabled := false, forceClose := true) else OPEN])
  }

  /** The iteration that sorts mail 1, when thread 1 is force-closed before the first write, or before the second. */
  function ClosedInBetween(beforeFirst: bool): Step {
    var second := ReplyTables(true, true);
    Step(1, REPLY, ReplyTables(false, false), ReplyTables(false, false), Join(1), ReplyTables(beforeFirst, false),
         second, UpdateThreadLastMail(second, 1, 1, 1))
  }

  /** Both kinds of command can occur, and both leave the thread enabled and force-closed with the mail in it. */
  lemma CommandInBetweenReopens(beforeFirst: bool, blacklisted: string -> bool)
    ensures var step := ClosedInBetween(beforeFirst);
            && ValidStep(step, blacklisted) && Consistent(step.seen, None) && Unsorted(step.seen, step.id, step.row)
            && !Reopened(step.seen, 1) && Reopened(step.after, 1)
            && step.after.mail[step.id].thread == Some(1) && (JoinsClosed(step, 1) <==> beforeFirst)
  {
    var step := ClosedInBetween(beforeFirst);
    assert ReplyThread(step.seen, REPLY) == Some(1);
    assert Interferes(step.seen, step.sought) && Interferes(step.sought, step.first);
    assert Interferes(UpdateMailSorting(step.first, 1, 1, Some(0)), step.second);
    assert Joins(step.first, step.second, step.after, 1, 1, REPLY);
    assert Consistent(step.seen, None);
  }

  // ----- a manual reply

  /**
   * The reply's statements: its mail is stored unsorted or has meanwhile been fetched, then AddMailToThread puts it
   * into the thread of the mail replied to, then its Matrix id is stored.
   */
  ghost predicate IsReply(start: Tables, first: Tables, second: Tables, after: Tables, end: Tables,
                          id: nat, row: MailRow, thread: nat)
  {
    && Interferes(start, first) && Unsorted(first, id, row)
    && Joins(first, second, after, id, thread, row)
    && Interferes(after, end)
  }

  /**
   * A manual reply sorts the sent mail into the thread, and disturbs nothing else that sorting has established. It asks
   * nobody whether the thread is force-closed: exactly then it leaves the thread enabled all the same.
   */
  lemma ReplySorts(start: Tables, first: Tables, second: Tables, after: Tables, end: Tables, id: nat, row: MailRow,
                   thread: nat)
    requires IsReply(start, first, second, after, end, id, row, thread)
    requires Consistent(start, None) && thread in start.thread
    ensures Consistent(end, None) && Sorts(start, end, id, Some(thread))
    ensures Reopened(after, thread) <==> ForceClosed(second, thread)
    ensures forall h: nat :: h != thread && Reopened(end, h) ==> Reopened(start, h)
  {
    InterferenceKeepsConsistent(start, first, None);
    var written := UpdateMailSorting(first, id, thread, row.replyTo);
    assert ThreadUndisturbed(start, first, thread) && ThreadUndisturbed(written, second, thread);
    forall h: nat | h != thread && Reopened(end, h) ensures Reopened(start, h) {
      assert ThreadUndisturbed(start, first, h) && ThreadUndisturbed(written, second, h);
      assert ThreadUndisturbed(after, end, h);
    }
    JoinSorts(first, second, after, id, thread, row);
    InterferesThenSorts(start, first, after, id, Some(thread));
    SortsThenInterferes(start, after, end, id, Some(thread));
    InterferenceKeepsConsistent(after, end, None);
  }

  // ----- linking replies

  /** A mail outside any thread is linked to a mail whose header id its In-Reply-To names, if one is stored. */
  lemma AutoUpdateLinks(t: Tables, t': Tables, m: nat, parent: nat)
    requires IsAutoUpdate(t, t') && m in t.mail && t.mail[m].thread.None?
    requires parent in t.mail && t.mail[parent].headerId == t.mail[m].inReplyTo
    ensures m in t'.mail && t'.mail[m].replyTo.Some? && t'.mail[m].replyTo.value in t.mail
    ensures t.mail[t'.mail[m].replyTo.value].headerId == t.mail[m].inReplyTo
  {
    assert ReplyLinked(t, t', m) && IsNamed(t, t.mail[m].inReplyTo, parent);
  }

  lemma AutoUpdateKeeps(t: Tables, t': Tables)
    requires Consistent(t, None) && IsAutoUpdate(t, t')
    ensures Evolves(t, t') && Consistent(t', None)
  {
    forall m: nat ensures MailEvolves(t, t', m) && MailConsistent(t', m) {
      assert ReplyLinked(t, t', m) && MailConsistent(t, m);
      if m in t'.mail && t'.mail[m].replyTo.Some? { assert ReplyLinked(t, t', t'.mail[m].replyTo.value); }
    }
    forall h: nat ensures ThreadEvolves(t, t', h) && ThreadConsistent(t', h) {
      assert ThreadConsistent(t, h);
      if h in t.thread && t.thread[h].firstMail.Some? { assert ReplyLinked(t, t', t.thread[h].firstMail.value); }
    }
  }

  // ----- whole runs

  /** What may happen to the tables: some interference, a sorting pass, or a manual reply, under the shared lock. */
  datatype Operation =
    | Other
    | Pass(linked: Tables, start: Tables, order: seq<(nat, MailRow)>, steps: seq<Step>, blacklisted: string -> bool)
    | Reply(first: Tables, second: Tables, after: Tables, id: nat, row: MailRow, thread: nat)

  ghost predicate Does(op: Operation, t: Tables, t': Tables) {
    match op
    case Other => Interferes(t, t')
    case Pass(linked, start, order, steps, blacklisted) =>
      IsAutoUpdate(t, linked) && Interferes(linked, start) && IsPassOf(start, order, steps, t', blacklisted)
    case Reply(first, second, after, id, row, thread) =>
      thread in t.thread && IsReply(t, first, second, after, t', id, row, thread)
  }

  lemma OperationEvolves(op: Operation, t: Tables, t': Tables)
    requires Consistent(t, None) && Does(op, t, t')
    ensures Consistent(t', None) && Evolves(t, t')
  {
    match op
    case Other =>
      InterferenceEvolves(t, t');
      InterferenceKeepsConsistent(t, t', None);
    case Pass(linked, start, order, steps, blacklisted) =>
      AutoUpdateKeeps(t, linked);
      InterferenceEvolves(linked, start);
      InterferenceKeepsConsistent(linked, start, None);
      PassSortsSnapshot(start, order, steps, t', blacklisted);
      EvolvesTransitively(t, linked, start);
      EvolvesTransitively(t, start, t');
    case Reply(first, second, after, id, row, thread) =>
      ReplySorts(t, first, second, after, t', id, row, thread);
  }

  /** A run: the states before, between and after the operations. */
  ghost predicate IsRun(states: seq<Tables>, ops: seq<Operation>) {
    |states| == |ops| + 1 && forall i: nat :: i < |ops| ==> DoesAt(states, ops, i)
  }

  ghost predicate DoesAt(states: seq<Tables>, ops: seq<Operation>, i: nat)
    requires i < |ops| && i + 1 < |states|
  {
    Does(ops[i], states[i], states[i + 1])
  }

  /**
   * Over any sequence of passes, manual replies and other changes, no mail in a thread ever changes its thread, sorted
   * mails stay sorted, last_message never decreases, and each thread's first mail belongs to it.
   */
  lemma {:induction false} RunsEvolve(states: seq<Tables>, ops: seq<Operation>, i: nat, j: nat)
    requires IsRun(states, ops) && Consistent(states[0], None) && i <= j < |states|
    ensures Consistent(states[j], None) && Evolves(states[i], states[j])
    decreases j
  {
    if i == j {
      EvolvesReflexively(states[i], states[j]);
    }
    if j > 0 {
      RunsEvolve(states, ops, if i < j then i else j - 1, j - 1);
      assert DoesAt(states, ops, j - 1);
      OperationEvolves(ops[j - 1], states[j - 1], states[j]);
      if i < j {
        EvolvesTransitively(states[i], states[j - 1], states[j]);
      }
    }
  }
}
