/**
 * The mail and thread tables and the SQL statements on them that sorting uses: internal/db/sqlc/schema.sql and
 * internal/db/sqlc/queries.sql.
 */
module Tables {
  import opened Options

  datatype MailRow = MailRow(
    headerId: string, inReplyTo: string, references: seq<string>, timestamp: int, addrFrom: string,
    extracted: bool, matrixId: Option<string>,
    sorted: bool, replyTo: Option<nat>, thread: Option<nat>)

  datatype ThreadRow = ThreadRow(
    enabled: bool, forceClose: bool, matrixId: Option<string>, matrixRoomId: Option<string>,
    lastMessage: Option<int>, firstMail: Option<nat>, lastMail: Option<nat>)

  datatype Tables = Tables(mail: map<nat, MailRow>, thread: map<nat, ThreadRow>)

  // GREATEST ignores NULL.
  function Greatest(a: Option<int>, b: int): int {
    if a.Some? && a.value > b then a.value else b
  }

  function UpdateMailSorting(t: Tables, id: nat, thread: nat, replyTo: Option<nat>): Tables {
    if id in t.mail then
      t.(mail := t.mail[id := t.mail[id].(replyTo := replyTo, thread := Some(thread), sorted := true)])
    else t
  }

  function UpdateMailMarkSorted(t: Tables, id: nat): Tables {
    if id in t.mail then t.(mail := t.mail[id := t.mail[id].(sorted := true)]) else t
  }

  /** The identifier id is the one that the sequence of the table yields. */
  function AddThread(t: Tables, id: nat, firstMail: nat, now: int): Tables {
    t.(thread := t.thread[id := ThreadRow(true, false, None, None, Some(now), Some(firstMail), Some(firstMail))])
  }

  function UpdateThreadLastMail(t: Tables, id: nat, lastMail: nat, lastMessage: int): Tables {
    if id in t.thread then
      t.(thread := t.thread[id := t.thread[id].(enabled := true, lastMail := Some(lastMail),
                                                lastMessage := Some(Greatest(t.thread[id].lastMessage, lastMessage)))])
    else t
  }

  /** A row as AddMail inserts it, as far as sorting is concerned. */
  predicate IsNewMail(row: MailRow) {
    !row.sorted && row.replyTo.None? && row.thread.None?
  }

  /** AddMail does nothing if a mail with this header id is stored; id is the one that the sequence yields. */
  ghost function InsertMail(t: Tables, id: nat, row: MailRow): Tables {
    if exists m :: IsNamed(t, row.headerId, m) then t else t.(mail := t.mail[id := row])
  }

  ghost predicate HeaderIdsUnique(t: Tables) {
    forall m, m' :: m in t.mail && m' in t.mail && t.mail[m].headerId == t.mail[m'].headerId ==> m == m'
  }

  /** However often a mail is fetched, it is stored once, and stored mails stay as they are. */
  lemma InsertedOnce(t: Tables, id: nat, row: MailRow)
    requires HeaderIdsUnique(t) && id !in t.mail
    ensures var t' := InsertMail(t, id, row);
            && HeaderIdsUnique(t') && (exists m :: IsNamed(t', row.headerId, m)) && t'.thread == t.thread
            && (forall m :: m in t.mail ==> m in t'.mail && t'.mail[m] == t.mail[m])
  {
    if !exists m :: IsNamed(t, row.headerId, m) {
      assert IsNamed(InsertMail(t, id, row), row.headerId, id);
      assert forall m: nat :: m in t.mail ==> !IsNamed(t, row.headerId, m);
    }
  }

  /** AutoUpdateMailReplyTo: a mail outside any thread is linked to the mail that its In-Reply-To names, if stored. */
  ghost predicate IsAutoUpdate(t: Tables, t': Tables) {
    t'.thread == t.thread && forall m: nat :: ReplyLinked(t, t', m)
  }

  ghost predicate ReplyLinked(t: Tables, t': Tables, m: nat) {
    && (m in t'.mail <==> m in t.mail)
    && (m in t.mail ==>
          && t'.mail[m] == t.mail[m].(replyTo := t'.mail[m].replyTo)
          && if t.mail[m].thread.None? && exists p :: IsNamed(t, t.mail[m].inReplyTo, p)
             then t'.mail[m].replyTo.Some? && IsNamed(t, t.mail[m].inReplyTo, t'.mail[m].replyTo.value)
             else t'.mail[m].replyTo == t.mail[m].replyTo)
  }

  predicate IsNamed(t: Tables, headerId: string, p: nat) {
    p in t.mail && t.mail[p].headerId == headerId
  }

  predicate ForceClosed(t: Tables, thread: nat) {
    thread in t.thread && t.thread[thread].forceClose
  }

  predicate IsOpen(t: Tables, thread: nat) {
    thread in t.thread && t.thread[thread].enabled && !t.thread[thread].forceClose
  }

  /** No command opens or closes the thread in between. */
  predicate NoCommandOn(t: Tables, t': Tables, thread: nat) {
    thread in t.thread && thread in t'.thread ==>
      && t'.thread[thread].enabled == t.thread[thread].enabled
      && t'.thread[thread].forceClose == t.thread[thread].forceClose
  }

  /** The thread is enabled although it is force-closed, which no command does: each sets both or only disables. */
  predicate Reopened(t: Tables, thread: nat) {
    ForceClosed(t, thread) && t.thread[thread].enabled
  }

  /** Mails that GetReferencedThreadParent selects among: referenced, in a thread, and that not force-closed. */
  ghost predicate IsReferenced(t: Tables, references: seq<string>, m: nat) {
    m in t.mail && t.mail[m].headerId in references && t.mail[m].thread.Some?
    && t.mail[m].thread.value in t.thread && !t.thread[t.mail[m].thread.value].forceClose
  }

  /** A latest one of them; which one, if several share their timestamp, is up to the database. */
  ghost predicate IsReferencedThreadParent(t: Tables, references: seq<string>, m: nat) {
    IsReferenced(t, references, m)
    && forall other :: IsReferenced(t, references, other) ==> t.mail[other].timestamp <= t.mail[m].timestamp
  }

  // ----- consistency

  /** A mail in a thread is sorted, and the thread and the reply parent that a mail names exist. */
  predicate MailConsistent(t: Tables, m: nat) {
    m in t.mail ==>
      && (t.mail[m].thread.Some? ==> t.mail[m].sorted && t.mail[m].thread.value in t.thread)
      && (t.mail[m].replyTo.Some? ==> t.mail[m].replyTo.value in t.mail)
  }

  /** A thread's first mail belongs to it. */
  predicate ThreadConsistent(t: Tables, h: nat) {
    h in t.thread && t.thread[h].firstMail.Some? ==>
      t.thread[h].firstMail.value in t.mail && t.mail[t.thread[h].firstMail.value].thread == Some(h)
  }

  /** What holds of the tables at any time, except that a thread being created may not have its first mail yet. */
  ghost predicate Consistent(t: Tables, pending: Option<nat>) {
    && (forall m: nat :: MailConsistent(t, m))
    && (forall h: nat :: pending == Some(h) || ThreadConsistent(t, h))
    && 0 !in t.thread
  }

  predicate NoEarlier(a: Option<int>, b: Option<int>) {
    a.Some? ==> b.Some? && a.value <= b.value
  }

  /** Mail m does not disappear, stays sorted, and never leaves its thread. */
  predicate MailEvolves(t: Tables, t': Tables, m: nat) {
    m in t.mail ==>
      && m in t'.mail
      && t'.mail[m].headerId == t.mail[m].headerId && t'.mail[m].addrFrom == t.mail[m].addrFrom
      && (t.mail[m].sorted ==> t'.mail[m].sorted)
      && (t.mail[m].thread.Some? ==> t'.mail[m].thread == t.mail[m].thread)
  }

  /** Thread h does not disappear, keeps its first mail, and its last_message does not decrease. */
  predicate ThreadEvolves(t: Tables, t': Tables, h: nat) {
    h in t.thread ==>
      h in t'.thread && t'.thread[h].firstMail == t.thread[h].firstMail
      && NoEarlier(t.thread[h].lastMessage, t'.thread[h].lastMessage)
  }

  ghost predicate Evolves(t: Tables, t': Tables) {
    (forall m: nat :: MailEvolves(t, t', m)) && forall h: nat :: ThreadEvolves(t, t', h)
  }

  predicate SameSorting(row: MailRow, row': MailRow) {
    row' == row.(extracted := row'.extracted, matrixId := row'.matrixId)
  }

  /** As far as sorting is concerned mail m is as it was, or has just been inserted. */
  predicate MailUndisturbed(t: Tables, t': Tables, m: nat) {
    if m in t.mail then m in t'.mail && SameSorting(t.mail[m], t'.mail[m])
    else m in t'.mail ==> IsNewMail(t'.mail[m])
  }

  predicate ThreadUndisturbed(t: Tables, t': Tables, h: nat) {
    if h in t.thread then
      h in t'.thread && t'.thread[h].firstMail == t.thread[h].firstMail && t'.thread[h].lastMail == t.thread[h].lastMail
      && t'.thread[h].lastMessage == t.thread[h].lastMessage && (Reopened(t', h) ==> Reopened(t, h))
    else h !in t'.thread
  }

  /**
   * What the rest of the system may do while the sorting lock is held: insert new mails, extract messages, post
   * to Matrix, open, close and move threads; but it does not sort.
   */
  ghost predicate Interferes(t: Tables, t': Tables) {
    (forall m: nat :: MailUndisturbed(t, t', m)) && forall h: nat :: ThreadUndisturbed(t, t', h)
  }

  lemma EvolvesReflexively(t: Tables, t': Tables)
    requires t' == t
    ensures Evolves(t, t')
  {
  }

  lemma EvolvesTransitively(t: Tables, t': Tables, t'': Tables)
    requires Evolves(t, t') && Evolves(t', t'')
    ensures Evolves(t, t'')
  {
    forall m: nat ensures MailEvolves(t, t'', m) { assert MailEvolves(t, t', m) && MailEvolves(t', t'', m); }
    forall h: nat ensures ThreadEvolves(t, t'', h) { assert ThreadEvolves(t, t', h) && ThreadEvolves(t', t'', h); }
  }

  lemma InterferenceIsTransitive(t: Tables, t': Tables, t'': Tables)
    requires Interferes(t, t') && Interferes(t', t'')
    ensures Interferes(t, t'')
  {
    forall m: nat ensures MailUndisturbed(t, t'', m) {
      assert MailUndisturbed(t, t', m) && MailUndisturbed(t', t'', m);
    }
    forall h: nat ensures ThreadUndisturbed(t, t'', h) {
      assert ThreadUndisturbed(t, t', h) && ThreadUndisturbed(t', t'', h);
    }
  }

  lemma InterferenceEvolves(t: Tables, t': Tables)
    requires Interferes(t, t')
    ensures Evolves(t, t')
  {
    forall m: nat ensures MailEvolves(t, t', m) { assert MailUndisturbed(t, t', m); }
    forall h: nat ensures ThreadEvolves(t, t', h) { assert ThreadUndisturbed(t, t', h); }
  }

  lemma InterferenceKeepsConsistent(t: Tables, t': Tables, pending: Option<nat>)
    requires Interferes(t, t') && Consistent(t, pending)
    ensures Consistent(t', pending)
  {
    forall m: nat ensures MailConsistent(t', m) {
      assert MailUndisturbed(t, t', m) && MailConsistent(t, m);
      if m in t.mail && t.mail[m].thread.Some? { assert ThreadUndisturbed(t, t', t.mail[m].thread.value); }
      if m in t.mail && t.mail[m].replyTo.Some? { assert MailUndisturbed(t, t', t.mail[m].replyTo.value); }
    }
    forall h: nat ensures pending == Some(h) || ThreadConsistent(t', h) {
      assert ThreadUndisturbed(t, t', h) && (pending == Some(h) || ThreadConsistent(t, h));
      if h in t.thread && t.thread[h].firstMail.Some? { assert MailUndisturbed(t, t', t.thread[h].firstMail.value); }
    }
    assert ThreadUndisturbed(t, t', 0);
  }
}
