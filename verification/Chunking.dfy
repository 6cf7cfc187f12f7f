/** Grouping a text into whitespace-separated chunks: internal/textprocessor/normalizer.go. */
module Chunking {

  /** NormalizeText with its flag allowPunctuation; every result below holds for any such function. */
  type Normalizer = (string, bool) -> string

  datatype Chunk = Chunk(start: nat, end: nat, norm: string, normPunct: string)

  datatype Message = Message(content: string, chunks: seq<Chunk>)

  // The code points for which Go's unicode.IsSpace holds.
  predicate IsSpace(c: char) {
    || '\t' <= c <= '\r' || c == ' ' || c == '\U{0085}' || c == '\U{00A0}' || c == '\U{1680}'
    || '\U{2000}' <= c <= '\U{200A}' || c == '\U{2028}' || c == '\U{2029}' || c == '\U{202F}'
    || c == '\U{205F}' || c == '\U{3000}'
  }

  /** These are the characters with the Unicode property White_Space. */
  lemma SpacesAreWhiteSpace(c: char)
    ensures IsSpace(c) <==> c as int in {0x9, 0xA, 0xB, 0xC, 0xD, 0x20, 0x85, 0xA0, 0x1680, 0x2000, 0x2001, 0x2002,
                                         0x2003, 0x2004, 0x2005, 0x2006, 0x2007, 0x2008, 0x2009, 0x200A, 0x2028, 0x2029, 0x202F,
                                         0x205F, 0x3000}
  {
  }

  /** s[a..b] is a non-empty run of non-whitespace that cannot be extended on either side. */
  ghost predicate MaximalRun(s: string, a: nat, b: nat) {
    && a < b <= |s|
    && (forall k :: a <= k < b ==> !IsSpace(s[k]))
    && (a == 0 || IsSpace(s[a - 1]))
    && (b == |s| || IsSpace(s[b]))
  }

  /** No maximal run of s crosses position o. */
  predicate Boundary(s: string, o: nat)
    requires o <= |s|
  {
    o == 0 || o == |s| || IsSpace(s[o - 1]) || IsSpace(s[o])
  }

  function RunEnd(s: string, o: nat): (e: nat)
    requires o <= |s|
    ensures o <= e <= |s|
    ensures forall k :: o <= k < e ==> !IsSpace(s[k])
    ensures e == |s| || IsSpace(s[e])
    decreases |s| - o
  {
    if o < |s| && !IsSpace(s[o]) then RunEnd(s, o + 1) else o
  }

  /** Start and end offsets of the runs of s from offset o on. */
  function Spans(s: string, o: nat): (spans: seq<(nat, nat)>)
    requires o <= |s|
    ensures forall k :: 0 <= k < |spans| ==> o <= spans[k].0 < spans[k].1 <= |s|
    ensures forall k, l :: 0 <= k < l < |spans| ==> spans[k].1 <= spans[l].0
    decreases |s| - o
  {
    if o == |s| then []
    else if IsSpace(s[o]) then Spans(s, o + 1)
    else [(o, RunEnd(s, o))] + Spans(s, RunEnd(s, o))
  }

  function Text(s: string, span: (nat, nat)): string
    requires span.0 <= span.1 <= |s|
  {
    s[span.0..span.1]
  }

  /** The chunk texts of s, in order. */
  function Words(s: string): (words: seq<string>)
    ensures |words| == |Spans(s, 0)|
  {
    seq(|Spans(s, 0)|, k requires 0 <= k < |Spans(s, 0)| => Text(s, Spans(s, 0)[k]))
  }

  function ChunkOf(s: string, span: (nat, nat), normalize: Normalizer): Chunk
    requires span.0 <= span.1 <= |s|
  {
    Chunk(span.0, span.1, normalize(Text(s, span), false), normalize(Text(s, span), true))
  }

  predicate IsChunk(chunk: Chunk, s: string, span: (nat, nat), normalize: Normalizer) {
    span.0 <= span.1 <= |s| && chunk == ChunkOf(s, span, normalize)
  }

  function MessageOf(s: string, normalize: Normalizer): (m: Message)
    ensures m.content == s && |m.chunks| == |Spans(s, 0)|
  {
    Message(s, seq(|Spans(s, 0)|, k requires 0 <= k < |Spans(s, 0)| => ChunkOf(s, Spans(s, 0)[k], normalize)))
  }

  /**
   * The scan of s + " " stands at offset i: rest are the runs that are still to come, the first of which has begun at
   * start unless the previous character was a space.
   */
  predicate Scanned(s: string, rest: seq<(nat, nat)>, start: nat, i: nat, prevSpace: bool) {
    if i > |s| then prevSpace && rest == []
    else if prevSpace then rest == Spans(s, i)
    else start < i && !IsSpace(s[start]) && RunEnd(s, start) >= i && rest == Spans(s, start)
  }

  lemma ScanOne(s: string, rest: seq<(nat, nat)>, start: nat, i: nat, prevSpace: bool)
    requires i <= |s| && Scanned(s, rest, start, i, prevSpace)
    ensures var space := i == |s| || IsSpace(s[i]);
            if prevSpace then Scanned(s, rest, i, i + 1, space)
            else if space then rest != [] && rest[0] == (start, i) && Scanned(s, rest[1..], start, i + 1, space)
            else Scanned(s, rest, start, i + 1, space)
  {
    if !prevSpace && (i == |s| || IsSpace(s[i])) {
      assert RunEnd(s, start) == i;
    }
  }

  lemma ScanStep(s: string, spans: seq<(nat, nat)>, n: nat, start: nat, i: nat, prevSpace: bool)
    requires i <= |s| && n <= |spans| && Scanned(s, spans[n..], start, i, prevSpace)
    ensures var space := i == |s| || IsSpace(s[i]);
            if prevSpace then Scanned(s, spans[n..], i, i + 1, space)
            else if space then n < |spans| && spans[n] == (start, i) && Scanned(s, spans[n + 1..], start, i + 1, space)
            else Scanned(s, spans[n..], start, i + 1, space)
  {
    ScanOne(s, spans[n..], start, i, prevSpace);
    if n < |spans| { assert spans[n..][0] == spans[n] && spans[n..][1..] == spans[n + 1..]; }
  }

  /** The chunks of the first runs. */
  predicate AreChunks(chunks: seq<Chunk>, s: string, spans: seq<(nat, nat)>, normalize: Normalizer) {
    |chunks| <= |spans| && forall k :: 0 <= k < |chunks| ==> IsChunk(chunks[k], s, spans[k], normalize)
  }

  /** The scan stands at offset i, and the chunks of the runs that have ended are there. */
  predicate ScanOk(s: string, chunks: seq<Chunk>, start: nat, i: nat, prevSpace: bool, normalize: Normalizer) {
    AreChunks(chunks, s, Spans(s, 0), normalize) && Scanned(s, Spans(s, 0)[|chunks|..], start, i, prevSpace)
  }

  lemma ScanGoesOn(s: string, chunks: seq<Chunk>, start: nat, i: nat, prevSpace: bool, normalize: Normalizer)
    requires i <= |s| && ScanOk(s, chunks, start, i, prevSpace, normalize)
    ensures var space := i == |s| || IsSpace(s[i]);
            if prevSpace then ScanOk(s, chunks, i, i + 1, space, normalize)
            else if space then
              start <= i && ScanOk(s, chunks + [ChunkOf(s, (start, i), normalize)], start, i + 1, space, normalize)
            else ScanOk(s, chunks, start, i + 1, space, normalize)
  {
    ScanStep(s, Spans(s, 0), |chunks|, start, i, prevSpace);
  }

  lemma ScanEnds(s: string, chunks: seq<Chunk>, start: nat, prevSpace: bool, normalize: Normalizer)
    requires ScanOk(s, chunks, start, |s| + 1, prevSpace, normalize)
    ensures Message(s, chunks) == MessageOf(s, normalize)
  {
    AllChunks(s, chunks, normalize);
  }

  method ComputeMessageChunks(s: string, normalize: Normalizer) returns (result: Message)
    ensures result == MessageOf(s, normalize)
  {
    var chunks: seq<Chunk> := [];
    var start: nat := 0;
    var prevSpace := true;
    var padded := s + " ";
    for i := 0 to |padded|
      invariant ScanOk(s, chunks, start, i, prevSpace, normalize)
    {
      var space := IsSpace(padded[i]);
      ScanGoesOn(s, chunks, start, i, prevSpace, normalize);
      if prevSpace {
        start := i;
      } else if space {
        var content := s[start..i];
        chunks := chunks + [Chunk(start, i, normalize(content, false), normalize(content, true))];
      }
      prevSpace := space;
    }
    ScanEnds(s, chunks, start, prevSpace, normalize);
    result := Message(s, chunks);
  }

  lemma AllChunks(s: string, chunks: seq<Chunk>, normalize: Normalizer)
    requires |chunks| == |Spans(s, 0)|
    requires forall k :: 0 <= k < |chunks| ==> IsChunk(chunks[k], s, Spans(s, 0)[k], normalize)
    ensures Message(s, chunks) == MessageOf(s, normalize)
  {
  }

  lemma RunFrom(s: string, o: nat, a: nat, b: nat)
    requires o < |s| && !IsSpace(s[o]) && Boundary(s, o)
    ensures o <= a < RunEnd(s, o) && MaximalRun(s, a, b) ==> (a, b) == (o, RunEnd(s, o))
    ensures MaximalRun(s, o, RunEnd(s, o))
  {
    assert forall k :: o <= k < RunEnd(s, o) ==> !IsSpace(s[k]);
  }

  lemma {:induction false} SpansFromAreRuns(s: string, o: nat, a: nat, b: nat)
    requires o <= |s| && Boundary(s, o)
    ensures (a, b) in Spans(s, o) <==> o <= a && MaximalRun(s, a, b)
    decreases |s| - o
  {
    if o < |s| && IsSpace(s[o]) {
      SpansFromAreRuns(s, o + 1, a, b);
    } else if o < |s| {
      RunFrom(s, o, a, b);
      SpansFromAreRuns(s, RunEnd(s, o), a, b);
    }
  }

  /** The chunks are exactly the maximal runs of non-whitespace, each listed once, from left to right. */
  lemma ChunksAreMaximalRuns(s: string, normalize: Normalizer)
    ensures var chunks := MessageOf(s, normalize).chunks;
            && (forall k, l :: 0 <= k < l < |chunks| ==> chunks[k].start < chunks[k].end <= chunks[l].start)
            && (forall k :: 0 <= k < |chunks| ==> MaximalRun(s, chunks[k].start, chunks[k].end))
            && (forall a: nat, b: nat :: MaximalRun(s, a, b) ==>
                  exists k :: 0 <= k < |chunks| && chunks[k].start == a && chunks[k].end == b)
  {
    var chunks, spans := MessageOf(s, normalize).chunks, Spans(s, 0);
    forall a: nat, b: nat ensures (a, b) in spans <==> MaximalRun(s, a, b) {
      SpansFromAreRuns(s, 0, a, b);
    }
    forall k | 0 <= k < |chunks| ensures MaximalRun(s, chunks[k].start, chunks[k].end) {
      assert spans[k] in spans;
    }
    forall a: nat, b: nat | MaximalRun(s, a, b)
      ensures exists k :: 0 <= k < |chunks| && chunks[k].start == a && chunks[k].end == b
    {
      var k :| 0 <= k < |spans| && spans[k] == (a, b);
      assert chunks[k].start == a && chunks[k].end == b;
    }
  }

  /** Each chunk carries its text normalized without and with punctuation. */
  lemma ChunkTexts(s: string, normalize: Normalizer)
    ensures forall c :: c in MessageOf(s, normalize).chunks ==>
              && c.start < c.end <= |s|
              && c.norm == normalize(s[c.start..c.end], false) && c.normPunct == normalize(s[c.start..c.end], true)
    ensures forall k :: 0 <= k < |Words(s)| ==>
              var c := MessageOf(s, normalize).chunks[k]; c.start < c.end <= |s| && Words(s)[k] == s[c.start..c.end]
  {
  }

  function Shift(spans: seq<(nat, nat)>, d: nat): (shifted: seq<(nat, nat)>)
    ensures |shifted| == |spans|
  {
    seq(|spans|, k requires 0 <= k < |spans| => (spans[k].0 + d, spans[k].1 + d))
  }

  lemma {:induction false} RunEndShift(a: string, b: string, o: nat)
    requires o <= |b|
    ensures RunEnd(a + b, |a| + o) == |a| + RunEnd(b, o)
    decreases |b| - o
  {
    if o < |b| && !IsSpace(b[o]) { RunEndShift(a, b, o + 1); }
  }

  lemma {:induction false} SpansShift(a: string, b: string, o: nat)
    requires o <= |b|
    ensures Spans(a + b, |a| + o) == Shift(Spans(b, o), |a|)
    decreases |b| - o
  {
    if o < |b| && IsSpace(b[o]) {
      SpansShift(a, b, o + 1);
    } else if o < |b| {
      RunEndShift(a, b, o);
      SpansShift(a, b, RunEnd(b, o));
    }
  }

  lemma {:induction false} RunEndPrefix(a: string, b: string, o: nat)
    requires o < |a| && Boundary(a + b, |a|)
    ensures RunEnd(a + b, o) == RunEnd(a, o)
    decreases |a| - o
  {
    var s := a + b;
    assert s[o] == a[o];
    if !IsSpace(a[o]) {
      if o + 1 < |a| {
        RunEndPrefix(a, b, o + 1);
      } else {
        assert s[|a| - 1] == a[|a| - 1];
        assert |b| == 0 || IsSpace(s[|a|]);
      }
    }
  }

  lemma {:induction false} SpansConcat(a: string, b: string, o: nat)
    requires o <= |a| && Boundary(a + b, |a|)
    ensures Spans(a + b, o) == Spans(a, o) + Shift(Spans(b, 0), |a|)
    decreases |a| - o
  {
    if o == |a| {
      SpansShift(a, b, 0);
    } else if IsSpace(a[o]) {
      SpansConcat(a, b, o + 1);
    } else {
      RunEndPrefix(a, b, o);
      SpansConcat(a, b, RunEnd(a, o));
    }
  }

  lemma TextConcat(a: string, b: string, span: (nat, nat))
    requires span.0 <= span.1
    ensures span.1 <= |a| ==> Text(a + b, span) == Text(a, span)
    ensures span.1 <= |b| ==> Text(a + b, (span.0 + |a|, span.1 + |a|)) == Text(b, span)
  {
  }

  lemma WordAt(a: string, b: string, k: nat)
    requires Boundary(a + b, |a|) && k < |Words(a + b)|
    ensures |Words(a + b)| == |Words(a)| + |Words(b)|
    ensures Words(a + b)[k] == if k < |Words(a)| then Words(a)[k] else Words(b)[k - |Words(a)|]
  {
    SpansConcat(a, b, 0);
    var s, sa, sb := Spans(a + b, 0), Spans(a, 0), Spans(b, 0);
    if k < |sa| {
      assert s[k] == sa[k];
      TextConcat(a, b, sa[k]);
    } else {
      var span := sb[k - |sa|];
      assert s[k] == (span.0 + |a|, span.1 + |a|);
      TextConcat(a, b, span);
    }
  }

  /** Cutting a text where no chunk is cut splits its chunk list. */
  lemma WordsConcat(a: string, b: string)
    requires Boundary(a + b, |a|)
    ensures Words(a + b) == Words(a) + Words(b)
  {
    SpansConcat(a, b, 0);
    forall k: nat | k < |Words(a + b)| ensures Words(a + b)[k] == (Words(a) + Words(b))[k] {
      WordAt(a, b, k);
    }
  }

  /** The text before the i-th chunk holds exactly the chunks before it. */
  lemma WordsBefore(s: string, i: nat)
    requires i < |Spans(s, 0)|
    ensures Words(s[..Spans(s, 0)[i].0]) == Words(s)[..i]
  {
    var spans := Spans(s, 0);
    var start := spans[i].0;
    assert s == s[..start] + s[start..];
    SpansFromAreRuns(s, 0, start, spans[i].1);
    assert MaximalRun(s, start, spans[i].1) by { assert spans[i] in spans; }
    WordsConcat(s[..start], s[start..]);
    SpansConcat(s[..start], s[start..], 0);
    var c := |Spans(s[..start], 0)|;
    assert !IsSpace(s[start..][0]);
    assert spans[c].0 == start;
    assert c == i;
  }

  /** The text after the j-th chunk holds exactly the chunks after it. */
  lemma WordsAfter(s: string, j: nat)
    requires j < |Spans(s, 0)|
    ensures Words(s[Spans(s, 0)[j].1..]) == Words(s)[j + 1..]
  {
    var spans := Spans(s, 0);
    var end := spans[j].1;
    assert s == s[..end] + s[end..];
    SpansFromAreRuns(s, 0, spans[j].0, end);
    assert MaximalRun(s, spans[j].0, end) by { assert spans[j] in spans; }
    WordsConcat(s[..end], s[end..]);
    RunsUpTo(s, j);
  }

  lemma RunsUpTo(s: string, j: nat)
    requires j < |Spans(s, 0)|
    ensures |Spans(s[..Spans(s, 0)[j].1], 0)| == j + 1
  {
    var spans := Spans(s, 0);
    var start, end := spans[j].0, spans[j].1;
    assert spans[j] in spans;
    SpansFromAreRuns(s, 0, start, end);
    SpansFromAreRuns(s[..end], 0, start, end);
    assert s == s[..end] + s[end..];
    SpansConcat(s[..end], s[end..], 0);
    var upTo := Spans(s[..end], 0);
    var k :| 0 <= k < |upTo| && upTo[k] == (start, end);
    assert spans[k] == upTo[k] && k == j;
    var last := |upTo| - 1;
    assert spans[last] == upTo[last];
    assert last == j;
  }

  predicate SpaceDelimited(p: string) {
    p != "" && IsSpace(p[0]) && IsSpace(p[|p| - 1])
  }

  /**
   * Replacing the text from the start of chunk i to the end of chunk j by a text that begins and ends in
   * whitespace replaces chunks i..j by that text's own chunks, and leaves every other chunk text as it was.
   */
  lemma SpliceWords(s: string, i: nat, j: nat, p: string)
    requires i <= j < |Spans(s, 0)| && SpaceDelimited(p)
    ensures Words(s[..Spans(s, 0)[i].0] + p + s[Spans(s, 0)[j].1..])
            == Words(s)[..i] + Words(p) + Words(s)[j + 1..]
  {
    var before, after := s[..Spans(s, 0)[i].0], s[Spans(s, 0)[j].1..];
    WordsBefore(s, i);
    WordsAfter(s, j);
    assert (before + p)[|before|] == p[0];
    WordsConcat(before, p);
    assert (before + p + after)[|before + p| - 1] == p[|p| - 1];
    WordsConcat(before + p, after);
  }
}
