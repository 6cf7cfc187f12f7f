/** Cutting the messages of a thread's history out of a mail body: replaceOldMessages and replaceBestBlockMatch. */
module History {
  import opened Options
  import opened Chunking
  import opened SmithWaterman
  import opened AlignmentProperties
  import opened Matching
  import Levenshtein

  /** A mail of the thread history; messages are the contents extracted from it earlier, if any. */
  datatype Mail = Mail(id: nat, body: string, messages: Option<seq<string>>)

  /** Mails whose extraction has run hold at least one message. */
  predicate Extracted(past: Mail) {
    past.messages.Some? ==> past.messages.value != []
  }

  /** The part of the extractor's state that the history loop updates. */
  datatype Progress = Progress(
    body: string, removed: map<Mail, bool>, similar: map<Mail, bool>, oldChunks: map<Mail, Message>)

  /** replaceBestBlockMatch on the content s. */
  function SpliceBest(s: string, block: string, placeholder: string, normalize: Normalizer): (r: (string, bool))
    ensures !r.1 ==> r.0 == s
  {
    var base := MessageOf(s, normalize);
    var located := Locate(base.chunks, MessageOf(block, normalize).chunks);
    if located.similarity >= 0.85 then
      LocatedInside(s, MessageOf(block, normalize).chunks, normalize);
      (s[..located.start] + placeholder + s[located.end..], true)
    else
      (s, false)
  }

  lemma LocatedInside(s: string, block: seq<Chunk>, normalize: Normalizer)
    requires Locate(MessageOf(s, normalize).chunks, block).similarity >= 0.85
    ensures var located := Locate(MessageOf(s, normalize).chunks, block);
            located.start < located.end <= |s|
  {
    var base := MessageOf(s, normalize).chunks;
    ThresholdBoundsSpan(base, block);
    SpanIsBestAlignment(base, block);
    var rows := BestRows(base, block);
    assert base[rows.0].start == Spans(s, 0)[rows.0].0 && base[rows.1].end == Spans(s, 0)[rows.1].1;
  }

  /** The entry is taken for a copy of the whole body. */
  function MarkSimilar(r: Progress, past: Mail, first: Message): Progress {
    r.(oldChunks := r.oldChunks[past := first], removed := r.removed[past := false], similar := r.similar[past := true])
  }

  /** The entry has been searched for in the body. */
  function MarkSearched(r: Progress, past: Mail, first: Message, body: string, replaced: bool): Progress {
    r.(body := body, oldChunks := r.oldChunks[past := first], removed := r.removed[past := false][past := replaced])
  }

  function ReplaceOne(r: Progress, past: Mail, placeholder: string, normalize: Normalizer): Progress
    requires Extracted(past)
  {
    if past.messages.None? then r
    else
      var base, block := MessageOf(r.body, normalize), MessageOf(past.body, normalize);
      var first := MessageOf(past.messages.value[0], normalize);
      if Levenshtein.Similarity(base.chunks, block.chunks) >= 0.8 then MarkSimilar(r, past, first)
      else
        var (body, replaced) := SpliceBest(r.body, past.body, placeholder, normalize);
        MarkSearched(r, past, first, body, replaced)
  }

  /** The loop: the entries of the history from the last down to entry k have been processed. */
  function ReplaceDownTo(body: string, history: seq<Mail>, k: nat, placeholder: string, normalize: Normalizer): Progress
    requires k <= |history| && forall i :: 0 <= i < |history| ==> Extracted(history[i])
    decreases |history| - k
  {
    if k == |history| then Progress(body, map[], map[], map[])
    else ReplaceOne(ReplaceDownTo(body, history, k + 1, placeholder, normalize), history[k], placeholder, normalize)
  }

  // ----- one replacement

  /** Some local alignment weighs at least 8.5 tenths for each of the block's chunks. */
  ghost predicate AlignsWell(base: seq<Chunk>, block: seq<Chunk>) {
    block != [] && exists al, p: nat, q: nat ::
                     p <= |base| && q <= |block| && Fits(al, p, q) && 2 * Weight(al, base, block, p, q) >= 17 * |block|
  }

  /** A span is cut out exactly if the block aligns well enough with the content, and else the content stays. */
  lemma SpliceBestExactly(s: string, block: string, placeholder: string, normalize: Normalizer)
    ensures var result := SpliceBest(s, block, placeholder, normalize);
            && (result.1 <==> AlignsWell(MessageOf(s, normalize).chunks, MessageOf(block, normalize).chunks))
            && (!result.1 ==> result.0 == s)
  {
    var base, past := MessageOf(s, normalize).chunks, MessageOf(block, normalize).chunks;
    ThresholdInTenths(base, past);
    BestScoreIsMaximum(base, past);
  }

  /** Chunks i..j have given way to the placeholder's chunks; every other chunk text is as it was. */
  ghost predicate CutOut(before: seq<string>, after: seq<string>, placeholder: seq<string>, i: nat, j: nat) {
    i <= j < |before| && after == before[..i] + placeholder + before[j + 1..]
  }

  lemma SpliceBestAt(s: string, block: string, placeholder: string, normalize: Normalizer, i: nat, j: nat)
    requires SpaceDelimited(placeholder) && SpliceBest(s, block, placeholder, normalize).1
    requires var base := MessageOf(s, normalize).chunks;
             var located := Locate(base, MessageOf(block, normalize).chunks);
             i <= j < |base| && located.start == base[i].start && located.end == base[j].end
    ensures CutOut(Words(s), Words(SpliceBest(s, block, placeholder, normalize).0), Words(placeholder), i, j)
  {
    var base := MessageOf(s, normalize).chunks;
    assert base[i].start == Spans(s, 0)[i].0 && base[j].end == Spans(s, 0)[j].1;
    SpliceWords(s, i, j, placeholder);
  }

  /** Some chunks have given way to the placeholder: between 0.85 and 2.5 times as many as the old message has. */
  ghost predicate CutStep(before: seq<string>, after: seq<string>, placeholder: seq<string>, m: nat) {
    exists i: nat, j: nat :: CutOut(before, after, placeholder, i, j) && 85 * m <= 100 * (j - i + 1) <= 250 * m
  }

  // The rows of the span found, with what the threshold says of them.
  lemma SpanOf(base: seq<Chunk>, past: seq<Chunk>) returns (i: nat, j: nat)
    requires Locate(base, past).similarity >= 0.85
    ensures i <= j < |base| && Locate(base, past).start == base[i].start && Locate(base, past).end == base[j].end
    ensures 85 * |past| <= 100 * (j - i + 1) <= 250 * |past|
    ensures exists pairs :: InOrder(pairs, base, past, (i, 0), (j + 1, |past|)) && 100 * |pairs| >= 85 * |past|
  {
    ThresholdBoundsSpan(base, past);
    SpanIsBestAlignment(base, past);
    i, j := BestRows(base, past).0, BestRows(base, past).1;
  }

  /**
   * A replacement cuts out chunks i..j and inserts the placeholder's own chunks; all other chunk texts stay. The
   * span is between 0.85 and 2.5 times as long as the old message, and holds in order counterparts for at least
   * 85% of that message's chunks.
   */
  lemma SpliceBestWords(s: string, block: string, placeholder: string, normalize: Normalizer) returns (i: nat, j: nat)
    requires SpaceDelimited(placeholder) && SpliceBest(s, block, placeholder, normalize).1
    ensures CutOut(Words(s), Words(SpliceBest(s, block, placeholder, normalize).0), Words(placeholder), i, j)
    ensures var base := MessageOf(s, normalize).chunks;
            && i <= j < |base| && base[i].start <= base[j].end <= |s|
            && SpliceBest(s, block, placeholder, normalize).0 == s[..base[i].start] + placeholder + s[base[j].end..]
    ensures var m := |Words(block)|;
            && 85 * m <= 100 * (j - i + 1) <= 250 * m
            && exists pairs ::
                 && InOrder(pairs, MessageOf(s, normalize).chunks, MessageOf(block, normalize).chunks,
                            (i, 0), (j + 1, m))
                 && 100 * |pairs| >= 85 * m
  {
    i, j := SpanOf(MessageOf(s, normalize).chunks, MessageOf(block, normalize).chunks);
    SpliceBestAt(s, block, placeholder, normalize, i, j);
  }

  /** The cheapest edit, in halves, costs at most two fifths of the longer list. */
  predicate IsCopy(base: seq<Chunk>, block: seq<Chunk>) {
    base != [] && block != []
    && 5 * Levenshtein.Distance(base, block, |base|, |block|) <= 2 * Levenshtein.MaxLength(base, block)
  }

  /** The entry is flagged as similar, and nothing else happens, or it is searched for in the body. */
  lemma ReplaceOneIs(r: Progress, past: Mail, placeholder: string, normalize: Normalizer)
    requires Extracted(past) && past.messages.Some?
    ensures var first := MessageOf(past.messages.value[0], normalize);
            var (body, replaced) := SpliceBest(r.body, past.body, placeholder, normalize);
            ReplaceOne(r, past, placeholder, normalize)
            == if IsCopy(MessageOf(r.body, normalize).chunks, MessageOf(past.body, normalize).chunks)
               then MarkSimilar(r, past, first) else MarkSearched(r, past, first, body, replaced)
  {
    Levenshtein.SimilarAtLeast(MessageOf(r.body, normalize).chunks, MessageOf(past.body, normalize).chunks, 8);
  }

  lemma MarksAre(r: Progress, past: Mail, first: Message, body: string, replaced: bool)
    requires !replaced ==> body == r.body
    ensures var marked := MarkSimilar(r, past, first);
            && marked.similar == r.similar[past := true] && marked.removed == r.removed[past := false]
            && marked.body == r.body
    ensures var marked := MarkSearched(r, past, first, body, replaced);
            && marked.similar == r.similar && marked.removed == r.removed[past := replaced]
            && marked.body == if replaced then body else r.body
  {
  }

  /**
   * Everything that processing an extracted entry does. It is taken for a copy of the body if the cheapest edit, in
   * halves, costs at most two fifths of the longer list, and else cut out if it aligns well with the body.
   */
  lemma ReplaceOneExactly(r: Progress, past: Mail, placeholder: string, normalize: Normalizer)
    requires Extracted(past) && past.messages.Some?
    ensures var base, block := MessageOf(r.body, normalize).chunks, MessageOf(past.body, normalize).chunks;
            var copy := IsCopy(base, block);
            var cut := !copy && AlignsWell(base, block);
            var next := ReplaceOne(r, past, placeholder, normalize);
            && next.similar == (if copy then r.similar[past := true] else r.similar)
            && next.removed == r.removed[past := cut]
            && next.body == (if cut then SpliceBest(r.body, past.body, placeholder, normalize).0 else r.body)
  {
    var (body, replaced) := SpliceBest(r.body, past.body, placeholder, normalize);
    ReplaceOneIs(r, past, placeholder, normalize);
    SpliceBestExactly(r.body, past.body, placeholder, normalize);
    MarksAre(r, past, MessageOf(past.messages.value[0], normalize), body, replaced);
  }

  lemma SpliceBestCuts(s: string, block: string, placeholder: string, normalize: Normalizer)
    requires SpaceDelimited(placeholder) && SpliceBest(s, block, placeholder, normalize).1
    ensures CutStep(Words(s), Words(SpliceBest(s, block, placeholder, normalize).0), Words(placeholder), |Words(block)|)
  {
    var i, j := SpliceBestWords(s, block, placeholder, normalize);
  }

  lemma QuotedIsFound(s: string, block: string, placeholder: string, normalize: Normalizer, i: nat)
    requires Words(block) != []
    requires OccursAt(MessageOf(s, normalize).chunks, MessageOf(block, normalize).chunks, i)
    requires forall l: nat | OccursAt(MessageOf(s, normalize).chunks, MessageOf(block, normalize).chunks, l) :: l <= i
    ensures SpliceBest(s, block, placeholder, normalize).1
    ensures var base := MessageOf(s, normalize).chunks;
            var located := Locate(base, MessageOf(block, normalize).chunks);
            i + |Words(block)| <= |base|
            && located.start == base[i].start && located.end == base[i + |Words(block)| - 1].end
  {
    LastOccurrenceFound(MessageOf(s, normalize).chunks, MessageOf(block, normalize).chunks, i);
  }

  lemma QuotedSplice(s: string, block: string, placeholder: string, normalize: Normalizer, i: nat)
    requires SpaceDelimited(placeholder) && Words(block) != []
    requires OccursAt(MessageOf(s, normalize).chunks, MessageOf(block, normalize).chunks, i)
    requires forall l: nat | OccursAt(MessageOf(s, normalize).chunks, MessageOf(block, normalize).chunks, l) :: l <= i
    ensures SpliceBest(s, block, placeholder, normalize).1
    ensures CutOut(Words(s), Words(SpliceBest(s, block, placeholder, normalize).0), Words(placeholder),
                   i, i + |Words(block)| - 1)
  {
    QuotedIsFound(s, block, placeholder, normalize, i);
    SpliceBestAt(s, block, placeholder, normalize, i, i + |Words(block)| - 1);
  }

  /**
   * A message quoted word for word is found: its last occurrence, and nothing else, gives way to the placeholder
   * if and only if the whole body does not count as a copy of it; otherwise the body stays and the entry is
   * flagged as similar.
   */
  lemma QuotedMessageIsCut(r: Progress, past: Mail, placeholder: string, normalize: Normalizer, i: nat)
    requires Extracted(past) && past.messages.Some? && SpaceDelimited(placeholder) && Words(past.body) != []
    requires OccursAt(MessageOf(r.body, normalize).chunks, MessageOf(past.body, normalize).chunks, i)
    requires forall l: nat ::
               OccursAt(MessageOf(r.body, normalize).chunks, MessageOf(past.body, normalize).chunks, l) ==> l <= i
    ensures var next := ReplaceOne(r, past, placeholder, normalize);
            var base, block := MessageOf(r.body, normalize).chunks, MessageOf(past.body, normalize).chunks;
            var copy := Levenshtein.Similarity(base, block) >= 0.8;
            && next.removed == r.removed[past := !copy]
            && next.similar == (if copy then r.similar[past := true] else r.similar)
            && (if copy then next.body == r.body
                else CutOut(Words(r.body), Words(next.body), Words(placeholder), i, i + |Words(past.body)| - 1))
  {
    QuotedSplice(r.body, past.body, placeholder, normalize, i);
  }

  // ----- the whole history

  /**
   * origin tells for every final chunk which original chunk it is, -1 for a chunk of a placeholder: the original
   * chunks that remain are unchanged, in their original order, and each appears at most once.
   */
  ghost predicate Traces(origin: seq<int>, final: seq<string>, original: seq<string>, placeholder: seq<string>) {
    && |origin| == |final|
    && (forall k :: 0 <= k < |origin| ==>
          if origin[k] >= 0 then origin[k] < |original| && final[k] == original[origin[k]] else final[k] in placeholder)
    && (forall k, l :: 0 <= k < l < |origin| && origin[k] >= 0 && origin[l] >= 0 ==> origin[k] < origin[l])
  }

  /** The words of final are words of original in their order, interleaved only with words of the placeholder. */
  ghost predicate Interleaved(final: seq<string>, original: seq<string>, placeholder: seq<string>) {
    exists origin :: Traces(origin, final, original, placeholder)
  }

  lemma InterleavedThroughStep(words: seq<string>, words': seq<string>, original: seq<string>, placeholder: seq<string>,
                               m: nat)
    requires Interleaved(words, original, placeholder) && CutStep(words, words', placeholder, m)
    ensures Interleaved(words', original, placeholder)
  {
    var origin :| Traces(origin, words, original, placeholder);
    var i: nat, j: nat :| CutOut(words, words', placeholder, i, j);
    TracesThroughCut(origin, words, words', original, placeholder, i, j);
  }

  lemma TracesThroughCut(origin: seq<int>, words: seq<string>, words': seq<string>, original: seq<string>,
                         placeholder: seq<string>, i: nat, j: nat)
    requires Traces(origin, words, original, placeholder) && CutOut(words, words', placeholder, i, j)
    ensures Traces(origin[..i] + seq(|placeholder|, _ => -1) + origin[j + 1..], words', original, placeholder)
  {
    var inserted := seq(|placeholder|, _ => -1);
    var origin' := origin[..i] + inserted + origin[j + 1..];
    forall k | 0 <= k < |origin'|
      ensures if origin'[k] >= 0 then origin'[k] < |original| && words'[k] == original[origin'[k]]
              else words'[k] in placeholder
    {
      if k >= i + |placeholder| {
        var past := k - i - |placeholder| + j + 1;
        assert origin'[k] == origin[past] && words'[k] == words[past];
      } else if k >= i {
        assert words'[k] == placeholder[k - i];
      }
    }
    forall k, l | 0 <= k < l < |origin'| && origin'[k] >= 0 && origin'[l] >= 0
      ensures origin'[k] < origin'[l]
    {
      var shift := j + 1 - i - |placeholder|;
      assert origin'[k] == origin[if k < i then k else k + shift];
      assert origin'[l] == origin[if l < i then l else l + shift];
    }
  }

  /**
   * Whatever the history, the final body's chunks are original chunks, unchanged and in their original order,
   * interleaved only with chunks of the placeholder.
   */
  lemma {:induction false} HistoryKeepsOrder(body: string, history: seq<Mail>, k: nat, placeholder: string,
                                             normalize: Normalizer)
    requires k <= |history| && SpaceDelimited(placeholder)
    requires forall i :: 0 <= i < |history| ==> Extracted(history[i])
    ensures Interleaved(Words(ReplaceDownTo(body, history, k, placeholder, normalize).body), Words(body),
                        Words(placeholder))
    decreases |history| - k
  {
    if k == |history| {
      assert Traces(seq(|Words(body)|, i => i), Words(body), Words(body), Words(placeholder));
    } else {
      HistoryKeepsOrder(body, history, k + 1, placeholder, normalize);
      var before := ReplaceDownTo(body, history, k + 1, placeholder, normalize);
      ReplaceOneCuts(before, history[k], placeholder, normalize);
      var after := ReplaceOne(before, history[k], placeholder, normalize);
      if after.body != before.body {
        InterleavedThroughStep(Words(before.body), Words(after.body), Words(body), Words(placeholder),
                               |Words(history[k].body)|);
      }
    }
  }

  /** What processing one entry may change: its own flags, and the body when it is cut out. */
  ghost predicate Advances(r: Progress, r': Progress, past: Mail) {
    if past.messages.None? then r' == r
    else
      && r'.oldChunks.Keys == r.oldChunks.Keys + {past}
      && past in r'.removed && r'.removed == r.removed[past := r'.removed[past]]
      && (r'.similar == r.similar || (r'.similar == r.similar[past := true] && !r'.removed[past]))
      && (!r'.removed[past] ==> r'.body == r.body)
  }

  lemma MarksAdvance(r: Progress, past: Mail, first: Message, body: string, replaced: bool)
    requires past.messages.Some? && (!replaced ==> body == r.body)
    ensures Advances(r, MarkSimilar(r, past, first), past)
    ensures Advances(r, MarkSearched(r, past, first, body, replaced), past)
  {
  }

  lemma ReplaceOneAdvances(r: Progress, past: Mail, placeholder: string, normalize: Normalizer)
    requires Extracted(past)
    ensures Advances(r, ReplaceOne(r, past, placeholder, normalize), past)
  {
    if past.messages.Some? {
      var (body, replaced) := SpliceBest(r.body, past.body, placeholder, normalize);
      MarksAdvance(r, past, MessageOf(past.messages.value[0], normalize), body, replaced);
    }
  }

  lemma ReplaceOneCuts(r: Progress, past: Mail, placeholder: string, normalize: Normalizer)
    requires Extracted(past) && SpaceDelimited(placeholder)
    ensures var r' := ReplaceOne(r, past, placeholder, normalize);
            if past.messages.Some? && r'.removed[past] then
              CutStep(Words(r.body), Words(r'.body), Words(placeholder), |Words(past.body)|)
            else r'.body == r.body
  {
    if past.messages.Some? && SpliceBest(r.body, past.body, placeholder, normalize).1 {
      SpliceBestCuts(r.body, past.body, placeholder, normalize);
    }
  }

  /** What is kept of an old mail, to recognise it by, is the first message extracted from it and its chunks. */
  ghost predicate FirstKept(r: Progress, normalize: Normalizer) {
    forall past :: past in r.oldChunks ==>
      && past.messages.Some? && Extracted(past)
      && r.oldChunks[past].content == past.messages.value[0]
      && r.oldChunks[past] == MessageOf(past.messages.value[0], normalize)
  }

  lemma FirstKeptStep(r: Progress, past: Mail, placeholder: string, normalize: Normalizer)
    requires FirstKept(r, normalize) && Extracted(past)
    ensures FirstKept(ReplaceOne(r, past, placeholder, normalize), normalize)
  {
  }

  /** For any history, every entry is kept by its first message, whatever its body is. */
  lemma {:induction false} FirstMessagesAreKept(body: string, history: seq<Mail>, k: nat, placeholder: string,
                                                normalize: Normalizer)
    requires k <= |history| && forall i :: 0 <= i < |history| ==> Extracted(history[i])
    ensures FirstKept(ReplaceDownTo(body, history, k, placeholder, normalize), normalize)
    decreases |history| - k
  {
    if k < |history| {
      FirstMessagesAreKept(body, history, k + 1, placeholder, normalize);
      FirstKeptStep(ReplaceDownTo(body, history, k + 1, placeholder, normalize), history[k], placeholder, normalize);
    }
  }

  /** Exactly the extracted entries are flagged, and none is both similar and removed. */
  ghost predicate Flagged(r: Progress, entries: seq<Mail>) {
    && (forall past :: past in r.removed <==> past in entries && past.messages.Some?)
    && r.oldChunks.Keys == r.removed.Keys
    && r.similar.Keys <= r.removed.Keys
    && forall past :: past in r.similar ==> r.similar[past] && !r.removed[past]
  }

  lemma FlaggedAfter(r: Progress, r': Progress, past: Mail, entries: seq<Mail>)
    requires Flagged(r, entries) && past !in entries && Advances(r, r', past)
    ensures Flagged(r', [past] + entries)
  {
  }

  lemma SplitHead(history: seq<Mail>, k: nat)
    requires k < |history|
    ensures history[k..] == [history[k]] + history[k + 1..]
  {
  }

  lemma FlaggedStep(r: Progress, history: seq<Mail>, k: nat, placeholder: string, normalize: Normalizer)
    requires k < |history| && Distinct(history) && Extracted(history[k]) && Flagged(r, history[k + 1..])
    ensures Flagged(ReplaceOne(r, history[k], placeholder, normalize), history[k..])
  {
    ReplaceOneAdvances(r, history[k], placeholder, normalize);
    SplitHead(history, k);
    FlaggedAfter(r, ReplaceOne(r, history[k], placeholder, normalize), history[k], history[k + 1..]);
  }

  /** Once the entries from k on are processed their flags are consistent, whatever the bodies and texts. */
  lemma {:induction false} SimilarNeverRemoved(body: string, history: seq<Mail>, k: nat, placeholder: string,
                                               normalize: Normalizer)
    requires k <= |history| && Distinct(history)
    requires forall i :: 0 <= i < |history| ==> Extracted(history[i])
    ensures Flagged(ReplaceDownTo(body, history, k, placeholder, normalize), history[k..])
    decreases |history| - k
  {
    if k < |history| {
      SimilarNeverRemoved(body, history, k + 1, placeholder, normalize);
      FlaggedStep(ReplaceDownTo(body, history, k + 1, placeholder, normalize), history, k, placeholder, normalize);
    }
  }

  lemma FlagsAreExtracted(body: string, history: seq<Mail>, placeholder: string, normalize: Normalizer)
    requires Distinct(history) && forall i :: 0 <= i < |history| ==> Extracted(history[i])
    ensures var r := ReplaceDownTo(body, history, 0, placeholder, normalize);
            && (forall past :: past in r.removed ==> Extracted(past))
            && r.oldChunks.Keys == r.removed.Keys
  {
    SimilarNeverRemoved(body, history, 0, placeholder, normalize);
    assert history[0..] == history;
  }

  function IsRemoved(r: Progress, past: Mail): bool {
    past in r.removed && r.removed[past]
  }

  /** How many entries from k on were cut out, and how many chunks they have together. */
  function Removals(r: Progress, history: seq<Mail>, k: nat): (sums: (nat, nat))
    requires k <= |history|
    decreases |history| - k
  {
    if k == |history| then (0, 0)
    else
      var rest := Removals(r, history, k + 1);
      if IsRemoved(r, history[k]) then (rest.0 + 1, rest.1 + |Words(history[k].body)|) else rest
  }

  lemma {:induction false} RemovalsFrame(r: Progress, r': Progress, history: seq<Mail>, k: nat)
    requires k <= |history| && forall i :: k <= i < |history| ==> IsRemoved(r, history[i]) == IsRemoved(r', history[i])
    ensures Removals(r, history, k) == Removals(r', history, k)
    decreases |history| - k
  {
    if k < |history| { RemovalsFrame(r, r', history, k + 1); }
  }

  /**
   * With sums.0 entries cut out that have sums.1 chunks together, the body has lost at least 0.85 and at most 2.5
   * times sums.1 chunks and has gained sums.0 placeholders.
   */
  ghost predicate WithinBudget(original: nat, placeholder: nat, final: nat, sums: (nat, nat)) {
    85 * sums.1 <= 100 * (original + sums.0 * placeholder - final) <= 250 * sums.1
  }

  /**
   * Conservation over the whole history: each of the messages cut out costs the body at least 0.85 and at most
   * 2.5 times its own number of chunks, and brings in one placeholder; nothing else changes the number of chunks.
   */
  lemma {:induction false} HistoryBudget(body: string, history: seq<Mail>, k: nat, placeholder: string,
                                         normalize: Normalizer)
    requires k <= |history| && Distinct(history) && SpaceDelimited(placeholder)
    requires forall i :: 0 <= i < |history| ==> Extracted(history[i])
    ensures var r := ReplaceDownTo(body, history, k, placeholder, normalize);
            WithinBudget(|Words(body)|, |Words(placeholder)|, |Words(r.body)|, Removals(r, history, k))
    ensures var r := ReplaceDownTo(body, history, k, placeholder, normalize);
            Removals(r, history, k).0 == 0 ==> r.body == body
    decreases |history| - k
  {
    if k < |history| {
      HistoryBudget(body, history, k + 1, placeholder, normalize);
      SimilarNeverRemoved(body, history, k + 1, placeholder, normalize);
      assert history[k] !in history[k + 1..];
      HistoryBudgetStep(body, ReplaceDownTo(body, history, k + 1, placeholder, normalize), history, k, placeholder,
                        normalize);
    }
  }

  lemma HistoryBudgetStep(body: string, r: Progress, history: seq<Mail>, k: nat, placeholder: string,
                          normalize: Normalizer)
    requires k < |history| && Distinct(history) && SpaceDelimited(placeholder) && Extracted(history[k])
    requires history[k] !in r.removed
    requires WithinBudget(|Words(body)|, |Words(placeholder)|, |Words(r.body)|, Removals(r, history, k + 1))
    ensures var r' := ReplaceOne(r, history[k], placeholder, normalize);
            && WithinBudget(|Words(body)|, |Words(placeholder)|, |Words(r'.body)|, Removals(r', history, k))
            && (Removals(r', history, k).0 == 0 ==> Removals(r, history, k + 1).0 == 0 && r'.body == r.body)
  {
    ReplaceOneAdvances(r, history[k], placeholder, normalize);
    ReplaceOneCuts(r, history[k], placeholder, normalize);
    RemovalsStep(r, ReplaceOne(r, history[k], placeholder, normalize), history, k);
    BudgetStep(Words(body), Words(r.body), Words(ReplaceOne(r, history[k], placeholder, normalize).body),
               Words(placeholder), |Words(history[k].body)|, Removals(r, history, k + 1));
  }

  lemma RemovalsStep(r: Progress, r': Progress, history: seq<Mail>, k: nat)
    requires k < |history| && Distinct(history) && Advances(r, r', history[k])
    requires history[k] !in r.removed
    ensures var sums := Removals(r, history, k + 1);
            Removals(r', history, k)
            == if history[k].messages.Some? && r'.removed[history[k]]
               then (sums.0 + 1, sums.1 + |Words(history[k].body)|) else sums
  {
    RemovalsFrame(r, r', history, k + 1);
  }

  lemma BudgetStep(original: seq<string>, before: seq<string>, after: seq<string>, placeholder: seq<string>, m: nat,
                   sums: (nat, nat))
    requires WithinBudget(|original|, |placeholder|, |before|, sums)
    ensures CutStep(before, after, placeholder, m) ==>
              WithinBudget(|original|, |placeholder|, |after|, (sums.0 + 1, sums.1 + m))
  {
    assert (sums.0 + 1) * |placeholder| == sums.0 * |placeholder| + |placeholder|;
  }
}
