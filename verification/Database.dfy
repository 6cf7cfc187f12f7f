/** The tables as mutable state, and the sorting pass and the manual reply that change them statement by statement. */
module Database {
  import opened Options
  import opened Tables
  import opened Sorting

  class DbHandler {
    var mail: map<nat, MailRow>
    var thread: map<nat, ThreadRow>
    var nextThread: nat // the sequence behind the identifiers of thread
    var nextMail: nat   // the sequence behind those of mail

    function View(): Tables
      reads this
    {
      Tables(mail, thread)
    }

    ghost predicate Valid()
      reads this
    {
      nextThread > 0 && (forall h :: h in thread ==> h < nextThread) && forall m :: m in mail ==> m < nextMail
    }

    /** Other parts of the system run between two statements. A caller only knows the postcondition. */
    method Interference()
      requires Valid()
      modifies `mail, `thread, `nextMail
      ensures Valid() && Interferes(old(View()), View())
    {
    }

    method AutoUpdateMailSorting()
      requires Valid()
      modifies `mail
      ensures Valid() && IsAutoUpdate(old(View()), View())
    {
      ghost var t := View();
      var todo, linked := mail.Keys, mail;
      while todo != {}
        invariant todo <= mail.Keys == linked.Keys && View() == t
        invariant forall m: nat :: m in todo && m in mail ==> linked[m] == mail[m]
        invariant forall m: nat :: m !in todo ==> ReplyLinked(t, Tables(linked, thread), m)
        decreases todo
      {
        var m :| m in todo;
        ghost var before := Tables(linked, thread);
        var parent := None;
        if mail[m].thread.None? {
          parent := FindByHeaderId(mail[m].inReplyTo);
          assert View() == t;
          assert parent.None? ==> forall p :: !IsNamed(View(), mail[m].inReplyTo, p);
          assert parent.None? ==> forall p :: !IsNamed(t, t.mail[m].inReplyTo, p);
        }
        if parent.Some? {
          linked := linked[m := mail[m].(replyTo := parent)];
        }
        assert ReplyLinked(t, Tables(linked, thread), m);
        forall p: nat | p !in todo - {m} ensures ReplyLinked(t, Tables(linked, thread), p) {
          if p != m { assert p !in todo && ReplyLinked(t, before, p); }
        }
        todo := todo - {m};
      }
      mail := linked;
    }

    method FindByHeaderId(headerId: string) returns (found: Option<nat>)
      ensures found.Some? ==> IsNamed(View(), headerId, found.value)
      ensures found.None? ==> forall p :: !IsNamed(View(), headerId, p)
    {
      var todo := mail.Keys;
      while todo != {}
        invariant todo <= mail.Keys
        invariant forall p :: IsNamed(View(), headerId, p) ==> p in todo
        decreases todo
      {
        var p :| p in todo;
        if mail[p].headerId == headerId {
          return Some(p);
        }
        todo := todo - {p};
      }
      return None;
    }

    method Earliest(ids: set<nat>) returns (best: nat)
      requires ids != {} && ids <= mail.Keys
      ensures best in ids && forall m :: m in ids ==> mail[best].timestamp <= mail[m].timestamp
    {
      best :| best in ids;
      var todo := ids - {best};
      while todo != {}
        invariant best in ids && todo <= ids
        invariant forall m :: m in ids - todo ==> mail[best].timestamp <= mail[m].timestamp
        decreases todo
      {
        var m :| m in todo;
        todo := todo - {m};
        if mail[m].timestamp < mail[best].timestamp {
          best := m;
        }
      }
    }

    ghost predicate Listed(order: seq<(nat, MailRow)>, m: nat) {
      exists k :: 0 <= k < |order| && order[k].0 == m
    }

    lemma ListedMore(order: seq<(nat, MailRow)>, m: nat, row: MailRow)
      ensures Listed(order + [(m, row)], m)
      ensures forall other :: Listed(order, other) ==> Listed(order + [(m, row)], other)
    {
      var more := order + [(m, row)];
      assert more[|order|].0 == m;
      forall other | Listed(order, other) ensures Listed(more, other) {
        var k :| 0 <= k < |order| && order[k].0 == other;
        assert more[k].0 == other;
      }
    }

    method GetMailsRequiringSorting() returns (order: seq<(nat, MailRow)>)
      ensures IsSnapshot(View(), order)
    {
      order := [];
      var todo := set m | m in mail && !mail[m].sorted;
      while todo != {}
        invariant todo <= mail.Keys && forall m :: m in todo ==> !mail[m].sorted
        invariant forall k :: 0 <= k < |order| ==>
                    order[k].0 in mail && order[k].1 == mail[order[k].0] && !order[k].1.sorted && order[k].0 !in todo
        invariant forall m :: m in mail && !mail[m].sorted && m !in todo ==> Listed(order, m)
        invariant forall k, l :: 0 <= k < l < |order| ==>
                    order[k].0 != order[l].0 && order[k].1.timestamp <= order[l].1.timestamp
        invariant forall k, m :: 0 <= k < |order| && m in todo ==> order[k].1.timestamp <= mail[m].timestamp
        decreases todo
      {
        var m := Earliest(todo);
        ghost var before := order;
        order := order + [(m, mail[m])];
        todo := todo - {m};
        ListedMore(before, m, mail[m]);
      }
    }

    method GetReferencedThreadParent(references: seq<string>) returns (parent: Option<nat>)
      ensures parent.Some? ==> IsReferencedThreadParent(View(), references, parent.value)
      ensures parent.None? ==> !exists m :: IsReferenced(View(), references, m)
    {
      parent := None;
      var todo := mail.Keys;
      while todo != {}
        invariant todo <= mail.Keys
        invariant parent.Some? ==> IsReferenced(View(), references, parent.value)
        invariant forall m :: IsReferenced(View(), references, m) ==>
                    m in todo || (parent.Some? && mail[m].timestamp <= mail[parent.value].timestamp)
        decreases todo
      {
        var m :| m in todo;
        todo := todo - {m};
        if mail[m].headerId in references && mail[m].thread.Some? && mail[m].thread.value in thread
           && !thread[mail[m].thread.value].forceClose
           && (parent.None? || mail[parent.value].timestamp < mail[m].timestamp) {
          parent := Some(m);
        }
      }
    }

    method CreateThread(id: nat, row: MailRow) returns (choice: Choice, ghost second: Tables)
      requires Valid()
      modifies this
      ensures Valid() && choice.Create?
      ensures Creates(old(View()), second, View(), id, choice.thread, choice.now, row)
    {
      var now: int := *; // CURRENT_TIMESTAMP
      var newThread := nextThread;
      thread := thread[newThread := ThreadRow(true, false, None, None, Some(now), Some(id), Some(id))];
      nextThread := nextThread + 1;
      assert View() == AddThread(old(View()), newThread, id, now);
      Interference();
      second := View();
      ExecUpdateMailSorting(id, newThread, row.replyTo);
      choice := Create(newThread, now);
    }

    method ExecUpdateMailSorting(id: nat, threadId: nat, replyTo: Option<nat>)
      modifies `mail
      ensures View() == UpdateMailSorting(old(View()), id, threadId, replyTo)
    {
      if id in mail {
        mail := mail[id := mail[id].(replyTo := replyTo, thread := Some(threadId), sorted := true)];
      }
    }

    method AddMailToThread(id: nat, row: MailRow, threadId: nat) returns (ghost second: Tables)
      requires Valid()
      modifies `mail, `thread, `nextMail
      ensures Valid() && Joins(old(View()), second, View(), id, threadId, row)
    {
      ExecUpdateMailSorting(id, threadId, row.replyTo);
      Interference();
      second := View();
      if threadId in thread {
        thread := thread[threadId := thread[threadId].(
                           enabled := true, lastMail := Some(id),
                           lastMessage := Some(Greatest(thread[threadId].lastMessage, row.timestamp)))];
      }
    }

    method MarkMailAsSorted(id: nat)
      modifies `mail
      ensures View() == UpdateMailMarkSorted(old(View()), id)
    {
      if id in mail {
        mail := mail[id := mail[id].(sorted := true)];
      }
    }

    /** The body of the loop of the sorting stage, for one mail of the snapshot. */
    method SortMail(id: nat, row: MailRow, blacklisted: string -> bool) returns (ghost step: Step)
      requires Valid() && Consistent(View(), None) && Unsorted(View(), id, row)
      modifies this
      ensures Valid() && ValidStep(step, blacklisted)
      ensures step.id == id && step.row == row && step.after == View() && Interferes(old(View()), step.seen)
    {
      Interference();
      ghost var seen := View();
      var threadId := 0;
      if row.replyTo.Some? && row.replyTo.value in mail {
        var m := mail[row.replyTo.value];
        if m.thread.Some? && !(m.thread.value in thread && thread[m.thread.value].forceClose) {
          threadId := m.thread.value;
        }
      }
      InterferenceKeepsConsistent(old(View()), seen, None);
      assert row.replyTo.Some? ==> MailConsistent(seen, row.replyTo.value);
      assert if threadId != 0 then ReplyThread(seen, row) == Some(threadId) else ReplyThread(seen, row).None?;
      ghost var sought := seen;
      if threadId == 0 {
        Interference();
        sought := View();
        var parent := GetReferencedThreadParent(row.references);
        InterferenceKeepsConsistent(seen, sought, None);
        if parent.Some? && mail[parent.value].thread.Some? {
          threadId := mail[parent.value].thread.value;
          assert MailConsistent(sought, parent.value);
        }
      }
      assert Interferes(seen, sought);
      Interference();
      ghost var first := View();
      ghost var second := first;
      var choice;
      if threadId != 0 {
        choice := Join(threadId);
        second := AddMailToThread(id, row, threadId);
      } else if !blacklisted(row.addrFrom) {
        choice, second := CreateThread(id, row);
      } else {
        choice := Ignore;
        MarkMailAsSorted(id);
      }
      step := Step(id, row, seen, sought, choice, first, second, View());
    }

    /** The work of the sorting stage, once it has decided not to wait for more mails. */
    method SortThreads(blacklisted: string -> bool)
      returns (ghost linked: Tables, ghost start: Tables, ghost order: seq<(nat, MailRow)>, ghost steps: seq<Step>)
      requires Valid() && Consistent(View(), None)
      modifies this
      ensures Valid() && IsAutoUpdate(old(View()), linked) && Interferes(linked, start)
      ensures IsWholePass(start, order, steps, View(), blacklisted)
      ensures Consistent(View(), None) && Evolves(old(View()), View())
    {
      AutoUpdateMailSorting();
      linked := View();
      AutoUpdateKeeps(old(View()), linked);
      Interference();
      start := View();
      InterferenceKeepsConsistent(linked, start, None);
      var mails := GetMailsRequiringSorting();
      order, steps := mails, [];
      ProgressAtStart(start, order, steps);
      for k := 0 to |mails|
        invariant Valid() && |steps| == k && View() == At(start, steps, k)
        invariant IsPass(start, order, steps, k, blacklisted)
        invariant Progress(start, order, steps, k, View())
      {
        assert EntryOk(order, steps, k, View(), k);
        ghost var before := steps;
        ghost var step := SortMail(mails[k].0, mails[k].1, blacklisted);
        steps := steps + [step];
        PassExtends(start, order, before, step, blacklisted);
        PassMakesProgress(start, order, steps, k + 1, blacklisted);
      }
      assert Interferes(At(start, steps, |order|), View());
      OperationEvolves(Pass(linked, start, order, steps, blacklisted), old(View()), View());
    }

    method AddMail(row: MailRow)
      requires Valid() && IsNewMail(row)
      modifies `mail, `nextMail
      ensures Valid() && View() == InsertMail(old(View()), old(nextMail), row)
      ensures Interferes(old(View()), View()) && exists m :: IsNamed(View(), row.headerId, m)
    {
      ghost var t := View();
      var found := FindByHeaderId(row.headerId);
      assert found.Some? <==> exists m :: IsNamed(t, row.headerId, m) by {
        assert found.Some? ==> IsNamed(t, row.headerId, found.value);
        assert View() == t;
      }
      if found.None? {
        mail := mail[nextMail := row];
        assert IsNamed(View(), row.headerId, nextMail);
        nextMail := nextMail + 1;
      }
    }

    /** UpdateExtractedMessages and UpdateMailMatrixId: they set columns that sorting does not look at. */
    method UpdateContent(id: nat, extracted: bool, matrixId: Option<string>)
      requires Valid() && id in mail
      modifies `mail
      ensures Valid() && mail == old(mail)[id := old(mail)[id].(extracted := extracted, matrixId := matrixId)]
      ensures Interferes(old(View()), View())
    {
      mail := mail[id := mail[id].(extracted := extracted, matrixId := matrixId)];
    }

    /**
     * The database part of ReplyToMailInThread: the mail that has been sent, whose header id is new, is stored unless a
     * fetcher has been faster, looked up by its header id, put into the thread of the mail replied to, and given the
     * Matrix id of the message that was its text.
     */
    method StoreReply(sent: MailRow, original: nat, messageId: string)
      returns (id: nat, ghost first: Tables, ghost second: Tables, ghost after: Tables, ghost row: MailRow)
      requires Valid() && Consistent(View(), None)
      requires IsNewMail(sent) && forall m :: !IsNamed(View(), sent.headerId, m)
      requires original in mail && mail[original].thread.Some?
      modifies this
      ensures Valid() && Consistent(View(), None)
      ensures IsReply(old(View()), first, second, after, View(), id, row, old(mail)[original].thread.value)
      ensures Sorts(old(View()), View(), id, old(mail)[original].thread)
      ensures row.headerId == sent.headerId && id in mail && id !in old(mail) && mail[id].matrixId == Some(messageId)
    {
      ghost var start := View();
      var threadId := mail[original].thread.value;
      assert MailConsistent(start, original);
      id, row := StoreAndFind(sent);
      first := View();
      second := AddMailToThread(id, mail[id], threadId);
      after := View();
      assert MailUndisturbed(UpdateMailSorting(first, id, threadId, row.replyTo), second, id);
      UpdateContent(id, mail[id].extracted, Some(messageId));
      assert IsReply(start, first, second, after, View(), id, row, threadId);
      ReplySorts(start, first, second, after, View(), id, row, threadId);
    }

    // Until the mail is put into its thread.
    method StoreAndFind(sent: MailRow) returns (id: nat, ghost row: MailRow)
      requires Valid() && IsNewMail(sent) && forall m :: !IsNamed(View(), sent.headerId, m)
      modifies this
      ensures Valid() && Interferes(old(View()), View())
      ensures id in mail && id !in old(mail) && row == mail[id] && row.headerId == sent.headerId
      ensures Unsorted(View(), id, row)
    {
      ghost var start := View();
      Interference();
      ghost var t := View();
      AddMail(sent);
      InterferenceIsTransitive(start, t, View());
      t := View();
      Interference();
      InterferenceIsTransitive(start, t, View());
      ghost var m :| IsNamed(t, sent.headerId, m);
      assert MailUndisturbed(t, View(), m);
      t := View();
      assert IsNamed(t, sent.headerId, m);
      var found := FindByHeaderId(sent.headerId);
      assert View() == t && IsNamed(View(), sent.headerId, m);
      id := found.value;
      assert MailUndisturbed(start, View(), id) && !IsNamed(start, sent.headerId, id);
      UpdateContent(id, true, mail[id].matrixId);
      InterferenceIsTransitive(start, t, View());
      row := mail[id];
    }
  }

  lemma PassExtends(start: Tables, order: seq<(nat, MailRow)>, steps: seq<Step>, step: Step,
                    blacklisted: string -> bool)
    requires |steps| < |order| && IsPass(start, order, steps, |steps|, blacklisted)
    requires step.id == order[|steps|].0 && step.row == order[|steps|].1
    requires Interferes(At(start, steps, |steps|), step.seen) && ValidStep(step, blacklisted)
    ensures IsPass(start, order, steps + [step], |steps| + 1, blacklisted)
  {
    var steps' := steps + [step];
    forall k: nat | k < |steps| + 1 ensures IsStepAt(start, order, steps', k, blacklisted) {
      assert At(start, steps', k) == At(start, steps, k);
      if k < |steps| { assert IsStepAt(start, order, steps, k, blacklisted); }
    }
  }
}
