/** What becomes of a thread whose head turns out to be redacted while a pass posts its mails. */
module Redaction {
  import opened Options
  import opened Posting
  import Delivery

  /** The events of the notification pass. */
  predicate IsWorkerStep(e: Event) {
    || e.BeginPass? || e.PostHead? || e.FailHead? || e.StoreHead? || e.FetchMails? || e.SkipMail? || e.PostMail?
    || e.FailMail? || e.FindRedacted? || e.StepRedact? || e.StoreMail? || e.EndPass?
  }

  predicate Headed(s: State, h: nat) {
    h in s.head && s.head[h].Some?
  }

  /** The database does not say of any mail of thread h that it is posted. */
  ghost predicate NoneStored(s: State, h: nat) {
    forall m :: m in s.stored && m in s.threadOf ==> s.threadOf[m] != Some(h)
  }

  predicate InRedaction(worker: Worker, h: nat) {
    worker == Redacting(h) || worker == Redacted(h)
  }

  /** The pass has dealt with the redaction: the thread has no head, and its mails count as not posted. */
  ghost predicate Dealt(s: State, h: nat) {
    s.worker.Idle? && !Headed(s, h) && NoneStored(s, h)
  }

  lemma FindingStartsRedaction(s: State)
    requires Enabled(s, FindRedacted)
    ensures Next(s, FindRedacted).worker == Redacting(s.worker.rows[0].thread)
  {
  }

  /**
   * Whatever else happens, the pass can go on with the redaction and does nothing else: its first step leaves the
   * thread without a head, its second one leaves none of its mails stored.
   */
  lemma RedactionGoesOn(s: State, e: Event, h: nat)
    requires HeadsOk(s) && InRedaction(s.worker, h) && Enabled(s, e)
    ensures Enabled(s, StepRedact)
    ensures !IsWorkerStep(e) ==> Next(s, e).worker == s.worker
    ensures IsWorkerStep(e) && s.worker.Redacting? ==> Next(s, e).worker == Redacted(h) && !Headed(Next(s, e), h)
    ensures IsWorkerStep(e) && s.worker.Redacted? ==> Dealt(Next(s, e), h)
  {
    assert HeadOk(s, h);
  }

  // ----- every run

  /** How many steps the pass takes from event n of the run on. */
  function WorkerSteps(events: seq<Event>, n: nat): nat {
    if |events| <= n then 0
    else WorkerSteps(events[..|events| - 1], n) + if IsWorkerStep(events[|events| - 1]) then 1 else 0
  }

  /** At some time from event n of the run on, the redaction of h was dealt with. */
  ghost predicate DealtSince(events: seq<Event>, n: nat, h: nat)
    requires IsRun(events)
    decreases |events|
  {
    |events| > n && (Dealt(After(events), h) || DealtSince(events[..|events| - 1], n, h))
  }

  /**
   * Once the head of h is found redacted, in any interleaving: until the pass takes its next step it is about to clear
   * the head; then the thread has no head, and it is about to clear the ids; and then the thread has neither.
   */
  lemma {:induction false} RedactionIsDealtWith(events: seq<Event>, later: seq<Event>, h: nat)
    requires IsRun(events) && After(events).worker == Redacting(h) && IsRun(later) && events <= later
    ensures match WorkerSteps(later, |events|)
            case 0 => After(later).worker == Redacting(h) && Enabled(After(later), StepRedact)
            case 1 =>
              After(later).worker == Redacted(h) && !Headed(After(later), h) && Enabled(After(later), StepRedact)
            case _ => DealtSince(later, |events|, h)
    decreases |later|
  {
    HeadsAlwaysOk(later);
    assert HeadOk(After(later), h);
    if later != events {
      var before, e := later[..|later| - 1], later[|later| - 1];
      RedactionIsDealtWith(events, before, h);
      HeadsAlwaysOk(before);
      if WorkerSteps(before, |events|) <= 1 { RedactionGoesOn(After(before), e, h); }
    }
  }

  // ----- the thread is created again

  // The next pass posts a new head for a thread without one.
  lemma NextPassBegins(events: seq<Event>, n: nat, h: nat) returns (later: seq<Event>, id: nat)
    requires IsRun(events) && GuardedFrom(events, n)
    requires After(events).worker.Idle? && h in After(events).head && After(events).head[h].None?
    ensures events <= later && IsRun(later) && GuardedFrom(later, n) && id !in After(events).heads
    ensures After(later) == After(events).(worker := HeadPosted(h, id, []), heads := After(events).heads + {id})
  {
    id := Delivery.FreshHead(After(events).heads);
    later := Carry(events, n, BeginPass([h]));
    later := Carry(later, n, PostHead(id));
    assert After(later).worker == HeadPosted(h, id, []);
  }

  // It stores the head.
  lemma NextPassRecreates(events: seq<Event>, n: nat, h: nat) returns (later: seq<Event>, id: nat)
    requires IsRun(events) && GuardedFrom(events, n) && HeadsOk(After(events))
    requires After(events).worker.Idle? && h in After(events).head && After(events).head[h].None?
    ensures events <= later && IsRun(later) && GuardedFrom(later, n)
    ensures id !in After(events).heads
    ensures forall i :: 0 <= i < |After(events).posts| ==> After(events).posts[i].1 != id
    ensures After(later) == After(events).(worker := Heads([]), head := After(events).head[h := Some(id)],
                                           heads := After(events).heads + {id})
  {
    assert forall i :: 0 <= i < |After(events).posts| ==> HeadKnown(After(events), After(events).posts[i].1);
    later, id := NextPassBegins(events, n, h);
    later := Carry(later, n, StoreHead);
  }

  // It fetches a mail of the thread and posts it.
  lemma NextPassPosts(events: seq<Event>, n: nat, h: nat, m: nat) returns (later: seq<Event>, id: nat)
    requires IsRun(events) && GuardedFrom(events, n) && Dealt(After(events), h)
    requires h in After(events).head && m in After(events).threadOf && After(events).threadOf[m] == Some(h)
    ensures events <= later && IsRun(later) && GuardedFrom(later, n)
    ensures id !in After(events).heads && PostedUnder(After(later), h, m, id)
  {
    HeadsAlwaysOk(events);
    later, id := NextPassRecreates(events, n, h);
    var row := Row(m, h, id);
    assert ReadyRow(After(later), row);
    later := Carry(later, n, FetchMails([row]));
    later := Carry(later, n, PostMail);
    assert After(later).posts[|After(later).posts| - 1] == (m, id);
  }

  predicate PostedUnder(s: State, h: nat, m: nat, id: nat) {
    h in s.head && s.head[h] == Some(id) && (m, id) in s.posts
  }

  /**
   * A pass that finds the head redacted at a mail of thread h can be followed by a pass that creates the thread again
   * and posts any mail of it under the new head.
   */
  lemma RedactedMailsArePostedAgain(events: seq<Event>, h: nat, m: nat) returns (later: seq<Event>, id: nat)
    requires IsRun(events) && Enabled(After(events), FindRedacted) && After(events).worker.rows[0].thread == h
    requires h in After(events).head && m in After(events).threadOf && After(events).threadOf[m] == Some(h)
    ensures events + [FindRedacted] <= later && IsRun(later) && GuardedFrom(later, |events| + 1)
    ensures id !in After(events).heads && PostedUnder(After(later), h, m, id)
  {
    var n := |events| + 1;
    later := Also(events, FindRedacted);
    later := Carry(later, n, StepRedact);
    later := Carry(later, n, StepRedact);
    later, id := NextPassPosts(later, n, h, m);
  }
}
