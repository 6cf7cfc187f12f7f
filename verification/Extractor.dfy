/** The message extractor: internal/textprocessor/extractor.go. */
module Extractor {
  import opened Options
  import opened Chunking
  import opened Placeholders
  import opened History
  import opened Matching
  import Levenshtein
  import SmithWaterman

  /** One extracted message; the extractor may replace its content. */
  class ExtractedMessage {
    var content: string

    constructor (content: string)
      ensures this.content == content
    {
      this.content := content;
    }
  }

  method ReplaceBestBlockMatch(base: Message, block: Message, placeholder: string,
                               ghost s: string, ghost t: string, ghost normalize: Normalizer)
    returns (result: string, replaced: bool)
    requires base == MessageOf(s, normalize) && block == MessageOf(t, normalize)
    ensures (result, replaced) == SpliceBest(s, t, placeholder, normalize)
  {
    var similarity, start, end := SmithWaterman.Align(base, block);
    if similarity >= 0.85 {
      LocatedInside(s, block.chunks, normalize);
      return base.content[..start] + placeholder + base.content[end..], true;
    }
    return base.content, false;
  }

  /** list with its i-th element moved to the front. */
  function Fronted<T>(list: seq<T>, i: nat): (fronted: seq<T>)
    requires i < |list|
    ensures |fronted| == |list| && fronted[0] == list[i]
    ensures forall k :: 0 < k < |list| ==> fronted[k] == if k <= i then list[k - 1] else list[k]
  {
    [list[i]] + list[..i] + list[i + 1..]
  }

  lemma {:induction false} FrontedIsPermutation<T>(list: seq<T>, i: nat)
    requires i < |list|
    ensures multiset(Fronted(list, i)) == multiset(list)
  {
    assert list == list[..i] + [list[i]] + list[i + 1..];
  }

  /**
   * Moving element i to the front the way the source does: the inner append shifts the tail of the shared backing
   * array over position i, and only then is the shortened list copied behind the element.
   */
  method MoveToFront<T>(backing: array<T>, i: nat) returns (result: seq<T>)
    requires i < backing.Length
    modifies backing
    ensures result == Fronted(old(backing[..]), i)
  {
    var n, ext := backing.Length, backing[i];
    ghost var list := backing[..];
    for k := i to n - 1
      invariant backing[..k] == list[..i] + list[i + 1..k + 1]
      invariant backing[k..] == list[k..]
    {
      backing[k] := backing[k + 1];
    }
    assert list[i + 1..n - 1 + 1] == list[i + 1..];
    assert backing[..n - 1] == list[..i] + list[i + 1..];
    result := [ext] + backing[..n - 1];
  }

  function Contents(list: seq<ExtractedMessage>): (texts: seq<string>)
    reads list
    ensures |texts| == |list|
    ensures forall i :: 0 <= i < |list| ==> texts[i] == list[i].content
  {
    if list == [] then [] else Contents(list[..|list| - 1]) + [list[|list| - 1].content]
  }

  function CountKept(llm: LLM, texts: seq<string>): nat {
    if texts == [] then 0
    else CountKept(llm, texts[..|texts| - 1]) + if llm.IsPlaceholder(texts[|texts| - 1]) then 0 else 1
  }

  /** The elements of list whose text is not a placeholder, in their order. */
  function Kept<T>(llm: LLM, list: seq<T>, texts: seq<string>): (kept: seq<T>)
    requires |list| == |texts|
    ensures |kept| == CountKept(llm, texts)
  {
    if list == [] then []
    else
      var last := |list| - 1;
      Kept(llm, list[..last], texts[..last]) + if llm.IsPlaceholder(texts[last]) then [] else [list[last]]
  }

  predicate KeptAt<T(==)>(llm: LLM, list: seq<T>, texts: seq<string>, m: T, i: nat)
    requires |list| == |texts|
  {
    i < |list| && list[i] == m && !llm.IsPlaceholder(texts[i])
  }

  /** An element is kept exactly if it stands at a position whose text is not a placeholder. */
  lemma {:induction false} KeptElements<T>(llm: LLM, list: seq<T>, texts: seq<string>, m: T)
    requires |list| == |texts|
    ensures m in Kept(llm, list, texts) <==> exists i: nat :: KeptAt(llm, list, texts, m, i)
  {
    if list != [] {
      var last := |list| - 1;
      var before, beforeTexts := list[..last], texts[..last];
      KeptElements(llm, before, beforeTexts, m);
      if i: nat :| KeptAt(llm, before, beforeTexts, m, i) { assert KeptAt(llm, list, texts, m, i); }
      if i: nat :| KeptAt(llm, list, texts, m, i) { assert i < last ==> KeptAt(llm, before, beforeTexts, m, i); }
      assert list[last] == m && !llm.IsPlaceholder(texts[last]) ==> KeptAt(llm, list, texts, m, last);
    }
  }

  lemma {:induction false} KeptDistinct<T>(llm: LLM, list: seq<T>, texts: seq<string>)
    requires |list| == |texts| && Distinct(list)
    ensures Distinct(Kept(llm, list, texts))
  {
    if list != [] {
      var last := |list| - 1;
      KeptDistinct(llm, list[..last], texts[..last]);
      KeptElements(llm, list[..last], texts[..last], list[last]);
      assert forall i: nat :: !KeptAt(llm, list[..last], texts[..last], list[last], i);
    }
  }

  lemma KeptOne<T>(llm: LLM, x: T, text: string)
    ensures Kept(llm, [x], [text]) == if llm.IsPlaceholder(text) then [] else [x]
  {
    assert Kept(llm, [x][..0], [text][..0]) == [];
  }

  lemma KeptLast<T>(llm: LLM, list: seq<T>, texts: seq<string>, x: T, text: string)
    requires |list| == |texts|
    ensures Kept(llm, list + [x], texts + [text])
            == Kept(llm, list, texts) + if llm.IsPlaceholder(text) then [] else [x]
  {
    assert (list + [x])[..|list|] == list && (texts + [text])[..|list|] == texts;
  }

  lemma Regrouped<T>(a: seq<T>, b: seq<T>, c: seq<T>)
    ensures a + (b + c) == a + b + c
  {
  }

  lemma KeptOfOneMore<T>(llm: LLM, list: seq<T>, texts: seq<string>, list': seq<T>, texts': seq<string>, x: T,
                         text: string)
    requires |list| == |texts| && |list'| == |texts'|
    requires Kept(llm, list + list', texts + texts') == Kept(llm, list, texts) + Kept(llm, list', texts')
    ensures Kept(llm, list + (list' + [x]), texts + (texts' + [text]))
            == Kept(llm, list, texts) + Kept(llm, list' + [x], texts' + [text])
  {
    Regrouped(list, list', [x]);
    Regrouped(texts, texts', [text]);
    KeptLast(llm, list + list', texts + texts', x, text);
    KeptLast(llm, list', texts', x, text);
    Regrouped(Kept(llm, list, texts), Kept(llm, list', texts'), if llm.IsPlaceholder(text) then [] else [x]);
  }

  /** What is kept of two lists one after the other is what is kept of each, so that the order stays. */
  lemma {:induction false} KeptOfBoth<T>(llm: LLM, list: seq<T>, texts: seq<string>, list': seq<T>, texts': seq<string>)
    requires |list| == |texts| && |list'| == |texts'|
    ensures Kept(llm, list + list', texts + texts') == Kept(llm, list, texts) + Kept(llm, list', texts')
  {
    if list' == [] {
      assert list + list' == list && texts + texts' == texts;
    } else {
      var last := |list'| - 1;
      KeptOfBoth(llm, list, texts, list'[..last], texts'[..last]);
      KeptOfOneMore(llm, list, texts, list'[..last], texts'[..last], list'[last], texts'[last]);
      assert list' == list'[..last] + [list'[last]] && texts' == texts'[..last] + [texts'[last]];
    }
  }

  /** Position of the first placeholder, |texts| if there is none. */
  function FirstPlaceholder(llm: LLM, texts: seq<string>): (k: nat)
    ensures k <= |texts|
    ensures forall i :: 0 <= i < k ==> !llm.IsPlaceholder(texts[i])
    ensures k < |texts| ==> llm.IsPlaceholder(texts[k])
  {
    if texts == [] || llm.IsPlaceholder(texts[0]) then 0 else 1 + FirstPlaceholder(llm, texts[1..])
  }

  /** The texts once the first placeholder has given way to the first message of the mail restored, if any. */
  function Restored(llm: LLM, texts: seq<string>, restored: Option<Mail>): (after: seq<string>)
    ensures |after| == |texts|
  {
    var k := FirstPlaceholder(llm, texts);
    if restored.Some? && k < |texts| && restored.value.messages.Some? && Extracted(restored.value) then
      texts[k := restored.value.messages.value[0]]
    else texts
  }

  /** The first placeholder, and no other text, gives way to the first message of the mail restored. */
  lemma RestoredTexts(llm: LLM, texts: seq<string>, past: Mail, k: nat)
    requires k < |texts| && llm.IsPlaceholder(texts[k]) && forall i :: 0 <= i < k ==> !llm.IsPlaceholder(texts[i])
    requires past.messages.Some? && Extracted(past)
    ensures Restored(llm, texts, Some(past))[k] == past.messages.value[0]
    ensures forall i :: 0 <= i < |texts| && i != k ==> Restored(llm, texts, Some(past))[i] == texts[i]
    ensures Restored(llm, texts, None) == texts
  {
  }

  /** A mail of the history has been cut out, and its first message can be put back. */
  ghost predicate SomeRemoved(r: Progress) {
    exists past :: past in r.removed && r.removed[past] && past.messages.Some?
  }

  /**
   * From texts before to texts after: if and only if the conversation is forwarded, holds a placeholder and has a
   * mail that was cut out, such a mail is restored at the first placeholder.
   */
  ghost predicate RestoredBy(llm: LLM, r: Progress, forwarded: bool, before: seq<string>, restored: Option<Mail>,
                             after: seq<string>)
  {
    && (restored.Some? <==> forwarded && FirstPlaceholder(llm, before) < |before| && SomeRemoved(r))
    && (restored.Some? ==> restored.value in r.removed && r.removed[restored.value] && restored.value.messages.Some?)
    && after == Restored(llm, before, restored)
  }

  /**
   * The old messages that an extracted text may be recognised as: neither cut out nor similar to the whole body,
   * and at least 0.9 similar to the text.
   */
  ghost function Candidates(r: Progress, normalize: Normalizer, text: string): set<Mail> {
    set past | past in r.removed && !r.removed[past] && !(past in r.similar && r.similar[past]) && past in r.oldChunks
               && Levenshtein.Similarity(MessageOf(text, normalize).chunks, r.oldChunks[past].chunks) >= 0.9
  }

  /**
   * The old messages that a text may be recognised as are those neither cut out nor flagged as similar for which the
   * cheapest edit, in halves, costs at most a fifth of the longer list.
   */
  lemma CandidateExactly(r: Progress, normalize: Normalizer, text: string, past: Mail)
    ensures past in Candidates(r, normalize, text) <==>
              && past in r.removed && !r.removed[past] && !(past in r.similar && r.similar[past]) && past in r.oldChunks
              && var a, b := MessageOf(text, normalize).chunks, r.oldChunks[past].chunks;
              a != [] && b != [] && 5 * Levenshtein.Distance(a, b, |a|, |b|) <= Levenshtein.MaxLength(a, b)
  {
    if past in r.oldChunks {
      Levenshtein.SimilarAtLeast(MessageOf(text, normalize).chunks, r.oldChunks[past].chunks, 9);
    }
  }

  /**
   * After the loop over any history, an extracted text that repeats the first message of an extracted entry has this
   * entry among its candidates, if and only if the entry was neither cut out nor taken for a copy of the whole body.
   */
  lemma RepeatedMessageIsCandidate(body: string, history: seq<Mail>, placeholder: string, normalize: Normalizer,
                                   past: Mail)
    requires Distinct(history) && forall i :: 0 <= i < |history| ==> Extracted(history[i])
    requires past in history && past.messages.Some? && Extracted(past) && Words(past.messages.value[0]) != []
    ensures var r := ReplaceDownTo(body, history, 0, placeholder, normalize);
            past in Candidates(r, normalize, past.messages.value[0]) <==>
              past in r.removed && !r.removed[past] && past !in r.similar
  {
    var chunks := MessageOf(past.messages.value[0], normalize).chunks;
    FirstMessagesAreKept(body, history, 0, placeholder, normalize);
    SimilarNeverRemoved(body, history, 0, placeholder, normalize);
    assert history[0..] == history;
    Levenshtein.SimilarityRange(chunks, chunks);
  }

  ghost function CandidatesOf(r: Progress, normalize: Normalizer, texts: seq<string>): (candidates: seq<set<Mail>>)
    ensures |candidates| == |texts|
    ensures forall i :: 0 <= i < |texts| ==> candidates[i] == Candidates(r, normalize, texts[i])
  {
    seq(|texts|, i requires 0 <= i < |texts| => Candidates(r, normalize, texts[i]))
  }

  /** Position i is the first one that is not known. */
  ghost predicate FirstNew(known: seq<bool>, i: nat) {
    i < |known| && !known[i] && forall k :: 0 <= k < i ==> known[k]
  }

  /**
   * The messages as they are handed on: those kept, in their order, except that the first new one, if there is one,
   * comes first.
   */
  ghost predicate Arranged<T>(result: seq<T>, kept: seq<T>, known: seq<bool>)
    requires |known| == |kept|
  {
    if exists i :: FirstNew(known, i) then exists i :: FirstNew(known, i) && result == Fronted(kept, i)
    else result == kept
  }

  /** No message is lost or duplicated, and the first one is new whenever some message is. */
  lemma ArrangedStartsNew<T>(result: seq<T>, kept: seq<T>, known: seq<bool>)
    requires |known| == |kept| && Arranged(result, kept, known)
    ensures multiset(result) == multiset(kept)
    ensures false in known ==> exists i :: 0 <= i < |kept| && !known[i] && result[..1] == [kept[i]]
  {
    if false in known {
      var k: nat :| k < |known| && !known[k];
      SomeFirstNew(known, k);
    }
    if exists i :: FirstNew(known, i) {
      var i: nat :| FirstNew(known, i) && result == Fronted(kept, i);
      FrontedIsPermutation(kept, i);
      assert result[..1] == [kept[i]];
    }
  }

  lemma {:induction false} SomeFirstNew(known: seq<bool>, k: nat)
    requires k < |known| && !known[k]
    ensures exists i :: FirstNew(known, i)
  {
    if j :| 0 <= j < k && !known[j] {
      SomeFirstNew(known, j);
    } else {
      assert FirstNew(known, k);
    }
  }

  /**
   * From the texts of the model's answer to the result: one placeholder may be restored, the others are dropped, old
   * messages are recognised one to one among those kept, and a new message comes first.
   */
  ghost predicate PostProcessed<T>(llm: LLM, r: Progress, normalize: Normalizer, forwarded: bool, before: seq<string>,
                                   after: seq<string>, list: seq<T>, result: seq<T>)
    requires |list| == |after|
  {
    && (exists restored :: RestoredBy(llm, r, forwarded, before, restored, after))
    && (exists known :: Matched(CandidatesOf(r, normalize, Kept(llm, after, after)), known)
                        && Arranged(result, Kept(llm, list, after), known))
  }

  /** The first message of a mail that was cut out stands at k instead of the first placeholder. */
  predicate PutBack(llm: LLM, r: Progress, before: seq<string>, after: seq<string>, past: Mail, k: nat) {
    && past in r.removed && r.removed[past] && past.messages.Some? && past.messages.value != []
    && k < |before| && llm.IsPlaceholder(before[k]) && (forall i :: 0 <= i < k ==> !llm.IsPlaceholder(before[i]))
    && after == before[k := past.messages.value[0]]
  }

  /**
   * What the restoration does: in a forwarded conversation with a placeholder and a mail that was cut out, the first
   * message of such a mail takes the place of the first placeholder; otherwise nothing happens.
   */
  lemma RestorationExactly<T>(llm: LLM, r: Progress, normalize: Normalizer, forwarded: bool, before: seq<string>,
                              after: seq<string>, list: seq<T>, result: seq<T>)
    requires |list| == |after| && PostProcessed(llm, r, normalize, forwarded, before, after, list, result)
    requires forall past :: past in r.removed ==> Extracted(past)
    ensures if forwarded && (exists k :: 0 <= k < |before| && llm.IsPlaceholder(before[k]))
               && exists past :: past in r.removed && r.removed[past] && past.messages.Some?
            then exists past, k :: PutBack(llm, r, before, after, past, k)
            else after == before
  {
    var restored :| RestoredBy(llm, r, forwarded, before, restored, after);
    var k := FirstPlaceholder(llm, before);
    if restored.Some? {
      assert PutBack(llm, r, before, after, restored.value, k);
    }
  }

  lemma {:induction false} NothingKept(llm: LLM, texts: seq<string>)
    ensures CountKept(llm, texts) == 0 <==> forall i :: 0 <= i < |texts| ==> llm.IsPlaceholder(texts[i])
  {
    if texts != [] { NothingKept(llm, texts[..|texts| - 1]); }
  }

  /**
   * The result is empty, which the history loop cannot deal with when this mail is an old one, if and only if every
   * text of the answer is a placeholder after the restoration. Without a restoration these are the texts of the answer
   * itself; with one it takes that the first message of the mail restored is a placeholder too.
   */
  lemma ResultIsEmpty<T>(llm: LLM, r: Progress, normalize: Normalizer, forwarded: bool, before: seq<string>,
                         after: seq<string>, list: seq<T>, result: seq<T>)
    requires |list| == |after| && PostProcessed(llm, r, normalize, forwarded, before, after, list, result)
    ensures result == [] <==> forall i :: 0 <= i < |after| ==> llm.IsPlaceholder(after[i])
    ensures result == [] && (!forwarded || !SomeRemoved(r)) ==>
              after == before && forall i :: 0 <= i < |before| ==> llm.IsPlaceholder(before[i])
  {
    NothingKept(llm, after);
    assert |result| == |Kept(llm, list, after)|;
  }

  /** For each message whether it is known. */
  function Flags<T>(list: seq<T>, known: map<T, bool>): (flags: seq<bool>)
    requires forall m :: m in list ==> m in known
    ensures |flags| == |list|
    ensures forall i :: 0 <= i < |list| ==> flags[i] == known[list[i]]
  {
    seq(|list|, i requires 0 <= i < |list| => known[list[i]])
  }

  // known agrees with flags on the first messages of the list.
  ghost predicate KnownUpTo<T>(list: seq<T>, known: map<T, bool>, flags: seq<bool>) {
    |flags| <= |list| && forall k :: 0 <= k < |flags| ==> list[k] in known && flags[k] == known[list[k]]
  }

  lemma FlagNext<T>(list: seq<T>, known: map<T, bool>, flags: seq<bool>, b: bool)
    requires Distinct(list) && |flags| < |list| && KnownUpTo(list, known, flags)
    ensures KnownUpTo(list, known[list[|flags|] := b], flags + [b])
  {
  }

  class MessageExtractor {
    const llm: LLM
    const normalize: Normalizer
    const threadHistory: seq<Mail>
    var body: string
    var messages: Option<seq<ExtractedMessage>> // None when the language model returned nothing
    var forwarded: bool

    var messageRemoved: map<Mail, bool>
    var messageSimilar: map<Mail, bool>
    var oldMessageChunks: map<Mail, Message>

    constructor (llm: LLM, normalize: Normalizer, body: string, threadHistory: seq<Mail>)
      ensures this.llm == llm && this.normalize == normalize && this.threadHistory == threadHistory
      ensures State() == Progress(body, map[], map[], map[])
    {
      this.llm, this.normalize, this.threadHistory, this.body := llm, normalize, threadHistory, body;
      messages, forwarded := None, false;
      messageRemoved, messageSimilar, oldMessageChunks := map[], map[], map[];
    }

    function State(): Progress
      reads this
    {
      Progress(body, messageRemoved, messageSimilar, oldMessageChunks)
    }

    method ReplaceOldMessages()
      requires forall i :: 0 <= i < |threadHistory| ==> Extracted(threadHistory[i])
      requires State() == Progress(body, map[], map[], map[])
      modifies `body, `messageRemoved, `messageSimilar, `oldMessageChunks
      ensures State() == ReplaceDownTo(old(body), threadHistory, 0, llm.GetPlaceholder(), normalize)
    {
      var baseChunks := ComputeMessageChunks(body, normalize);
      var i := |threadHistory|;
      while i > 0
        invariant 0 <= i <= |threadHistory|
        invariant baseChunks == MessageOf(body, normalize)
        invariant State() == ReplaceDownTo(old(body), threadHistory, i, llm.GetPlaceholder(), normalize)
      {
        ghost var r := State();
        i := i - 1;
        if threadHistory[i].messages.Some? {
          baseChunks := ReplaceOldMessage(threadHistory[i], baseChunks);
        }
        assert State() == ReplaceOne(r, threadHistory[i], llm.GetPlaceholder(), normalize);
      }
    }

    // The body of the loop, for an entry whose extraction has run.
    method ReplaceOldMessage(past: Mail, baseChunks: Message) returns (newChunks: Message)
      requires past.messages.Some? && Extracted(past) && baseChunks == MessageOf(body, normalize)
      modifies `body, `messageRemoved, `messageSimilar, `oldMessageChunks
      ensures newChunks == MessageOf(body, normalize)
      ensures State() == ReplaceOne(old(State()), past, llm.GetPlaceholder(), normalize)
    {
      newChunks := baseChunks;
      var pastChunks := ComputeMessageChunks(past.body, normalize);
      var firstChunks := ComputeMessageChunks(past.messages.value[0], normalize);
      oldMessageChunks := oldMessageChunks[past := firstChunks];
      messageRemoved := messageRemoved[past := false];

      var similarity := Levenshtein.ComputeSimilarity(baseChunks, pastChunks);
      if similarity >= 0.8 {
        messageSimilar := messageSimilar[past := true];
        return;
      }
      var replaced, removed := ReplaceBestBlockMatch(
        baseChunks, pastChunks, llm.GetPlaceholder(), body, past.body, normalize);
      messageRemoved := messageRemoved[past := removed];
      if removed {
        body := replaced;
        newChunks := ComputeMessageChunks(replaced, normalize);
      }
    }

    // ----- postExtraction

    // The inner loop of the forwarded case: some mail that was cut out, if there is one.
    method FindRemoved(ghost r: Progress) returns (found: Option<Mail>)
      requires r == State()
      ensures found.Some? ==>
                found.value in messageRemoved && messageRemoved[found.value] && found.value.messages.Some?
      ensures found.None? ==> !SomeRemoved(r)
    {
      var mails := messageRemoved.Keys;
      while mails != {}
        invariant mails <= messageRemoved.Keys
        invariant forall past :: past in messageRemoved.Keys - mails ==> !(messageRemoved[past] && past.messages.Some?)
        decreases |mails|
      {
        var past :| past in mails;
        mails := mails - {past};
        if messageRemoved[past] && past.messages.Some? {
          return Some(past);
        }
      }
      return None;
    }

    // The forwarded case: at most one placeholder gives way to the first message of some mail that was cut out.
    method RestorePlaceholder(list: seq<ExtractedMessage>, ghost r: Progress) returns (ghost restored: Option<Mail>)
      requires Distinct(list) && r == State()
      requires forall past :: past in messageRemoved ==> Extracted(past)
      modifies list
      ensures RestoredBy(llm, r, forwarded, old(Contents(list)), restored, Contents(list))
    {
      ghost var texts := Contents(list);
      restored := None;
      if forwarded {
        for k := 0 to |list|
          invariant Contents(list) == texts && restored.None?
          invariant FirstPlaceholder(llm, texts) >= k || !SomeRemoved(r)
        {
          if llm.IsPlaceholder(list[k].content) {
            var found := FindRemoved(r);
            if found.Some? {
              SetContent(list, k, found.value.messages.value[0]);
              restored := found;
              return;
            }
          }
        }
      }
    }

    method SetContent(list: seq<ExtractedMessage>, k: nat, content: string)
      requires Distinct(list) && k < |list|
      modifies list[k]
      ensures Contents(list) == old(Contents(list))[k := content]
    {
      list[k].content := content;
    }

    method DropPlaceholders(list: seq<ExtractedMessage>) returns (kept: seq<ExtractedMessage>)
      ensures kept == Kept(llm, list, Contents(list))
    {
      kept := [];
      ghost var texts := Contents(list);
      for i := 0 to |list|
        invariant kept == Kept(llm, list[..i], texts[..i])
      {
        assert list[..i + 1][..i] == list[..i] && texts[..i + 1][..i] == texts[..i];
        if !llm.IsPlaceholder(list[i].content) {
          kept := kept + [list[i]];
        }
      }
      assert list[..|list|] == list && texts[..|list|] == texts;
    }

    // The inner loop over the old messages, for one extracted text.
    method Recognise(text: string, claimed: set<Mail>) returns (found: Option<Mail>)
      requires messageRemoved.Keys == oldMessageChunks.Keys
      ensures if found.Some? then found.value in Candidates(State(), normalize, text) - claimed
              else Candidates(State(), normalize, text) <= claimed
    {
      var extractedChunks := ComputeMessageChunks(text, normalize);
      var mails := messageRemoved.Keys;
      while mails != {}
        invariant mails <= messageRemoved.Keys && Candidates(State(), normalize, text) <= claimed + mails
        decreases |mails|
      {
        var past :| past in mails;
        mails := mails - {past};
        if messageRemoved[past] || (past in messageSimilar && messageSimilar[past]) || past in claimed {
          continue;
        }
        var similarity := Levenshtein.ComputeSimilarity(extractedChunks, oldMessageChunks[past]);
        if similarity >= 0.9 {
          return Some(past);
        }
      }
      return None;
    }

    method DetectKnown(list: seq<ExtractedMessage>) returns (known: map<ExtractedMessage, bool>, knownCount: nat)
      requires Distinct(list) && messageRemoved.Keys == oldMessageChunks.Keys
      ensures forall m :: m in list ==> m in known
      ensures Matched(CandidatesOf(State(), normalize, Contents(list)), Flags(list, known))
      ensures knownCount == Count(Flags(list, known))
    {
      var claimed: set<Mail> := {};
      known, knownCount := map[], 0;
      ghost var owner: map<nat, Mail>, flags: seq<bool> := map[], [];
      ghost var candidates := CandidatesOf(State(), normalize, Contents(list));
      for i := 0 to |list|
        invariant |flags| == i && KnownUpTo(list, known, flags)
        invariant Greedy(candidates, flags, owner)
        invariant knownCount == Count(flags) && claimed == owner.Values
      {
        var ext := list[i];
        var found := Recognise(ext.content, claimed);
        FlagNext(list, known, flags, found.Some?);
        if found.Some? {
          GreedyOwner(candidates, flags, owner, found.value);
          owner, flags := owner[i := found.value], flags + [true];
          claimed := claimed + {found.value};
          known := known[ext := true];
          knownCount := knownCount + 1;
        } else {
          GreedyUnknown(candidates, flags, owner);
          flags := flags + [false];
          known := known[ext := false];
        }
      }
      assert flags == Flags(list, known);
    }

    // The move at the end: the first message is new whenever any message is.
    method EnsureFirstIsNew(list: seq<ExtractedMessage>, known: map<ExtractedMessage, bool>, knownCount: nat)
      returns (result: seq<ExtractedMessage>)
      requires forall m :: m in list ==> m in known
      requires knownCount == Count(Flags(list, known))
      ensures Arranged(result, list, Flags(list, known))
    {
      ghost var flags := Flags(list, known);
      AllKnownCount(flags);
      result := list;
      if |list| != 0 && known[list[0]] && knownCount != |list| {
        var i := 0;
        while i < |list|
          invariant 0 <= i <= |list|
          invariant forall k :: 0 <= k < i ==> flags[k]
        {
          if !known[list[i]] {
            var backing := new ExtractedMessage[|list|](k requires 0 <= k < |list| => list[k]);
            assert backing[..] == list;
            result := MoveToFront(backing, i);
            assert FirstNew(flags, i);
            return;
          }
          i := i + 1;
        }
      } else if |list| != 0 && !known[list[0]] {
        assert FirstNew(flags, 0) && Fronted(list, 0) == list;
      }
    }

    // The result is not nil: restore, drop the placeholders, recognise and rearrange.
    method ProcessMessages(list: seq<ExtractedMessage>) returns (result: seq<ExtractedMessage>)
      requires Distinct(list) && forall past :: past in messageRemoved ==> Extracted(past)
      requires messageRemoved.Keys == oldMessageChunks.Keys
      modifies list
      ensures PostProcessed(llm, State(), normalize, forwarded, old(Contents(list)), Contents(list), list, result)
    {
      ghost var r, before := State(), Contents(list);
      ghost var restored := RestorePlaceholder(list, r);
      ghost var texts := Contents(list);
      var kept := DropPlaceholders(list);
      KeptDistinct(llm, list, texts);
      KeptContents(list, texts);
      result := Rearrange(kept, r, Kept(llm, texts, texts));
      assert PostProcessed(llm, r, normalize, forwarded, before, texts, list, result);
    }

    // Recognise old messages among those kept, and put a new message first.
    method Rearrange(list: seq<ExtractedMessage>, ghost r: Progress, ghost texts: seq<string>)
      returns (result: seq<ExtractedMessage>)
      requires Distinct(list) && messageRemoved.Keys == oldMessageChunks.Keys
      requires r == State() && texts == Contents(list)
      ensures exists known :: Matched(CandidatesOf(r, normalize, texts), known) && Arranged(result, list, known)
    {
      var known, knownCount := DetectKnown(list);
      result := EnsureFirstIsNew(list, known, knownCount);
    }

    /**
     * In a forwarded conversation at most one placeholder is restored. The result then holds the messages that are
     * not placeholders in their old order, except that at most one is moved to the front; each old message accounts
     * for at most one known message; and the first message is new whenever any message is new.
     */
    method PostExtraction(ghost r: Progress)
      requires messages.Some? ==> Distinct(messages.value)
      requires forall past :: past in messageRemoved ==> Extracted(past)
      requires messageRemoved.Keys == oldMessageChunks.Keys && r == State()
      modifies `messages, if messages.Some? then messages.value else []
      ensures (messages.Some? <==> old(messages).Some?) && State() == r
      ensures old(messages).Some? ==>
                var list := old(messages).value;
                PostProcessed(llm, r, normalize, forwarded, old(Contents(list)), Contents(list), list, messages.value)
    {
      if messages.Some? {
        var result := ProcessMessages(messages.value);
        messages := Some(result);
      }
    }

    lemma {:induction false} KeptContents(list: seq<ExtractedMessage>, texts: seq<string>)
      requires texts == Contents(list)
      ensures Contents(Kept(llm, list, texts)) == Kept(llm, texts, texts)
    {
      if list != [] {
        var last := |list| - 1;
        KeptContents(list[..last], texts[..last]);
        var kept := Kept(llm, list, texts);
        assert !llm.IsPlaceholder(texts[last]) ==> kept[..|kept| - 1] == Kept(llm, list[..last], texts[..last]);
      }
    }

    // The body is not empty: cut out the history, ask the model, which returns answer, and put its answer in order.
    method ExtractFromBody(answer: Option<seq<ExtractedMessage>>, answerForwarded: bool)
      requires State() == Progress(body, map[], map[], map[])
      requires Distinct(threadHistory) && forall i :: 0 <= i < |threadHistory| ==> Extracted(threadHistory[i])
      requires answer.Some? ==> Distinct(answer.value)
      modifies this, if answer.Some? then answer.value else []
      ensures State() == ReplaceDownTo(old(body), threadHistory, 0, llm.GetPlaceholder(), normalize)
      ensures (messages.Some? <==> answer.Some?) && forwarded == answerForwarded
      ensures answer.Some? ==>
                PostProcessed(llm, State(), normalize, forwarded, old(Contents(answer.value)), Contents(answer.value),
                              answer.value, messages.value)
    {
      ghost var before := if answer.Some? then Contents(answer.value) else [];
      ReplaceOldMessages();
      FlagsAreExtracted(old(body), threadHistory, llm.GetPlaceholder(), normalize);
      assert answer.Some? ==> Contents(answer.value) == before;
      ProcessAnswer(answer, answerForwarded, State(), before);
    }

    // Take over the answer of the model, whose texts are before.
    method ProcessAnswer(answer: Option<seq<ExtractedMessage>>, answerForwarded: bool, ghost r: Progress,
                         ghost before: seq<string>)
      requires forall past :: past in messageRemoved ==> Extracted(past)
      requires messageRemoved.Keys == oldMessageChunks.Keys && r == State()
      requires answer.Some? ==> Distinct(answer.value) && before == Contents(answer.value)
      modifies this, if answer.Some? then answer.value else []
      ensures State() == r && (messages.Some? <==> answer.Some?) && forwarded == answerForwarded
      ensures answer.Some? ==> PostProcessed(llm, r, normalize, forwarded, before, Contents(answer.value),
                                             answer.value, messages.value)
    {
      messages, forwarded := answer, answerForwarded;
      assert answer.Some? ==> Contents(answer.value) == before;
      PostExtraction(r);
    }

    /**
     * The whole extraction. An empty body is passed through as a single empty message; otherwise the history is cut
     * out before the language model is asked, and its answer is put in order afterwards.
     */
    method ExtractMessages(answer: Option<seq<ExtractedMessage>>, answerForwarded: bool)
      requires State() == Progress(body, map[], map[], map[])
      requires Distinct(threadHistory) && forall i :: 0 <= i < |threadHistory| ==> Extracted(threadHistory[i])
      requires answer.Some? ==> Distinct(answer.value)
      modifies this, if answer.Some? then answer.value else []
      ensures if normalize(old(body), true) == "" then
                body == "" && !forwarded && messages.Some? && |messages.value| == 1 && messages.value[0].content == ""
              else
                && State() == ReplaceDownTo(old(body), threadHistory, 0, llm.GetPlaceholder(), normalize)
                && (messages.Some? <==> answer.Some?) && forwarded == answerForwarded
                && (answer.Some? ==>
                      PostProcessed(llm, State(), normalize, forwarded, old(Contents(answer.value)),
                                    Contents(answer.value), answer.value, messages.value))
    {
      if normalize(body, true) == "" {
        body := "";
        var message := new ExtractedMessage("");
        messages, forwarded := Some([message]), false;
      } else {
        ExtractFromBody(answer, answerForwarded);
      }
    }
  }
}
