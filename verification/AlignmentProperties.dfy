/** What the result of the local alignment says about the two chunk lists. */
module AlignmentProperties {
  import opened Chunking
  import opened SmithWaterman
  import Ratios

  /** The best score is the greatest weight of any local alignment of any part of the two chunk lists. */
  lemma BestScoreIsMaximum(base: seq<Chunk>, block: seq<Chunk>)
    ensures forall al, p: nat, q: nat | p <= |base| && q <= |block| && Fits(al, p, q) ::
              Weight(al, base, block, p, q) <= BestScore(base, block)
    ensures exists al, p: nat, q: nat :: p <= |base| && q <= |block| && Fits(al, p, q)
              && Weight(al, base, block, p, q) == BestScore(base, block)
  {
    if |base| == 0 || |block| == 0 {
      assert Fits(Empty, 0, 0) && Weight(Empty, base, block, 0, 0) == 0;
    } else {
      var best := BestCell(base, block);
      TracedAttainsScore(base, block, best.0, best.1);
      assert Fits(Traced(base, block, best.0, best.1), best.0, best.1);
      BestCellIsBest(base, block);
    }
    forall al, p: nat, q: nat | p <= |base| && q <= |block| && Fits(al, p, q)
      ensures Weight(al, base, block, p, q) <= BestScore(base, block)
    {
      ScoreBoundsAlignments(al, base, block, p, q);
      if p > 0 && q > 0 {
        BestCellIsBest(base, block);
        assert InGrid(base, block, p, q);
      }
    }
  }

  /** The alignment that is cut out when the score is positive, with the prefix lengths at which it ends. */
  function BestAlignment(base: seq<Chunk>, block: seq<Chunk>): (al: Alignment)
    requires |base| > 0 && |block| > 0
    ensures Fits(al, BestCell(base, block).0, BestCell(base, block).1)
  {
    Traced(base, block, BestCell(base, block).0, BestCell(base, block).1)
  }

  /** From a best cell the last step of the traceback's alignment is a pair of chunks that share their text. */
  lemma BestEndsShared(base: seq<Chunk>, block: seq<Chunk>)
    requires BestScore(base, block) > 0
    ensures var best := BestCell(base, block);
            BestAlignment(base, block).Pair? && Shares(base[best.0 - 1], block[best.1 - 1])
  {
    var best := BestCell(base, block);
    var p, q := best.0, best.1;
    BestCellIsBest(base, block);
    ScoreUnfolds(base, block, p, q);
    assert Trace(base, block, p, q) == Diagonal by {
      assert p > 1 ==> InGrid(base, block, p - 1, q);
      assert q > 1 ==> InGrid(base, block, p, q - 1);
    }
    assert PairWeight(base[p - 1], block[q - 1]) > 0 by {
      assert p > 1 && q > 1 ==> InGrid(base, block, p - 1, q - 1);
    }
  }

  /**
   * When something is found, the returned span runs from the first to the last matched base chunk: both
   * share their text with a block chunk, and an alignment between exactly those rows attains the best score.
   */
  lemma SpanIsBestAlignment(base: seq<Chunk>, block: seq<Chunk>)
    requires BestScore(base, block) > 0
    ensures var rows := BestRows(base, block);
            var best := BestCell(base, block);
            var start := Start(BestAlignment(base, block), best.0, best.1);
            && rows.0 <= rows.1 < |base| && rows == (start.0, best.0 - 1)
            && Locate(base, block).start == base[rows.0].start && Locate(base, block).end == base[rows.1].end
            && Weight(BestAlignment(base, block), base, block, best.0, best.1) == BestScore(base, block)
            && start.1 < best.1
            && var pairs := Matches(BestAlignment(base, block), base, block, best.0, best.1);
            && pairs != [] && pairs[0] == start && pairs[|pairs| - 1] == (rows.1, best.1 - 1)
            && Shares(base[rows.0], block[start.1]) && Shares(base[rows.1], block[best.1 - 1])
  {
    var best := BestCell(base, block);
    TracedStartsShared(base, block, best.0, best.1);
    TracedStartsMatched(base, block, best.0, best.1);
    TracedAttainsScore(base, block, best.0, best.1);
    BestEndsShared(base, block);
  }

  // ----- the threshold

  /** Matched pairs are pairs of chunks sharing their text, increasing in both indices, inside the span. */
  ghost predicate InOrder(pairs: seq<(nat, nat)>, base: seq<Chunk>, block: seq<Chunk>,
                          low: (nat, nat), high: (nat, nat))
  {
    && (forall k :: 0 <= k < |pairs| ==>
          && low.0 <= pairs[k].0 < high.0 <= |base| && low.1 <= pairs[k].1 < high.1 <= |block|
          && Shares(base[pairs[k].0], block[pairs[k].1]))
    && (forall k, l :: 0 <= k < l < |pairs| ==> pairs[k].0 < pairs[l].0 && pairs[k].1 < pairs[l].1)
  }

  lemma {:induction false} MatchesInOrder(al: Alignment, base: seq<Chunk>, block: seq<Chunk>, p: nat, q: nat)
    requires p <= |base| && q <= |block| && Fits(al, p, q)
    ensures InOrder(Matches(al, base, block, p, q), base, block, Start(al, p, q), (p, q))
  {
    match al
    case Empty =>
    case Pair(before) => MatchesInOrder(before, base, block, p - 1, q - 1);
    case SkipBase(before) => MatchesInOrder(before, base, block, p - 1, q);
    case SkipBlock(before) => MatchesInOrder(before, base, block, p, q - 1);
  }

  // ----- what unmatched chunks weigh

  /** A chunk that holds nothing but punctuation is meant to weigh 4 tenths less than a word when it is left out. */
  function Meant(chunks: seq<Chunk>, i: nat): int
    requires i < |chunks|
  {
    if chunks[i].norm == "" then 4 else 0
  }

  /** The reductions meant for chunks lo..hi. */
  function MeantIn(chunks: seq<Chunk>, lo: nat, hi: nat): int
    requires lo <= hi <= |chunks|
    decreases hi - lo
  {
    if lo == hi then 0 else Meant(chunks, lo) + MeantIn(chunks, lo + 1, hi)
  }

  /** The reduction that chunk lo - 1 causes, if there is such a chunk. */
  function Before(chunks: seq<Chunk>, lo: nat): int
    requires lo <= |chunks|
  {
    if lo == 0 then 0 else Meant(chunks, lo - 1)
  }

  /** al, which ends at (p, q), followed by k unmatched base chunks. */
  function SkipBases(al: Alignment, p: nat, q: nat, k: nat): (longer: Alignment)
    requires Fits(al, p, q) && q > 0
    ensures Fits(longer, p + k, q)
    decreases k
  {
    if k == 0 then al else SkipBases(SkipBase(al), p + 1, q, k - 1)
  }

  /** al, which ends at (p, q), followed by k unmatched block chunks. */
  function SkipBlocks(al: Alignment, p: nat, q: nat, k: nat): (longer: Alignment)
    requires Fits(al, p, q) && p > 0
    ensures Fits(longer, p, q + k)
    decreases k
  {
    if k == 0 then al else SkipBlocks(SkipBlock(al), p, q + 1, k - 1)
  }

  lemma {:induction false} SkipBasesWeigh(al: Alignment, base: seq<Chunk>, block: seq<Chunk>, p: nat, q: nat, k: nat)
    requires p + k <= |base| && 0 < q <= |block| && Fits(al, p, q)
    ensures Weight(SkipBases(al, p, q, k), base, block, p + k, q)
            == Weight(al, base, block, p, q) - 5 * k + MeantIn(base, p, p + k) + Before(base, p) - Before(base, p + k)
    decreases k
  {
    if k > 0 { SkipBasesWeigh(SkipBase(al), base, block, p + 1, q, k - 1); }
  }

  lemma {:induction false} SkipBlocksWeigh(al: Alignment, base: seq<Chunk>, block: seq<Chunk>, p: nat, q: nat, k: nat)
    requires 0 < p <= |base| && q + k <= |block| && Fits(al, p, q)
    ensures Weight(SkipBlocks(al, p, q, k), base, block, p, q + k)
            == Weight(al, base, block, p, q) - 20 * k + MeantIn(block, q, q + k)
               + Before(block, q) - Before(block, q + k)
    decreases k
  {
    if k > 0 { SkipBlocksWeigh(SkipBlock(al), base, block, p, q + 1, k - 1); }
  }

  /** The chunk before position i is there and holds nothing but punctuation. */
  predicate AfterPunctuation(chunks: seq<Chunk>, i: nat)
    requires i <= |chunks|
  {
    i > 0 && chunks[i - 1].norm == ""
  }

  /**
   * A gap of k chunks, in the base or in the block, weighs what is meant if and only if the chunk before the gap and
   * the last chunk of the gap are both punctuation-only or both not.
   */
  lemma GapsWeighAsMeant(al: Alignment, base: seq<Chunk>, block: seq<Chunk>, p: nat, q: nat, k: nat)
    requires p <= |base| && q <= |block| && Fits(al, p, q)
    ensures p + k <= |base| && 0 < q ==>
              (Weight(SkipBases(al, p, q, k), base, block, p + k, q)
               == Weight(al, base, block, p, q) - 5 * k + MeantIn(base, p, p + k)
               <==> (AfterPunctuation(base, p) <==> AfterPunctuation(base, p + k)))
    ensures q + k <= |block| && 0 < p ==>
              (Weight(SkipBlocks(al, p, q, k), base, block, p, q + k)
               == Weight(al, base, block, p, q) - 20 * k + MeantIn(block, q, q + k)
               <==> (AfterPunctuation(block, q) <==> AfterPunctuation(block, q + k)))
  {
    if p + k <= |base| && 0 < q { SkipBasesWeigh(al, base, block, p, q, k); }
    if q + k <= |block| && 0 < p { SkipBlocksWeigh(al, base, block, p, q, k); }
  }

  const MARK := Chunk(0, 1, "", "!")
  const WORD := Chunk(0, 1, "w", "w")
  const OTHER := Chunk(0, 1, "x", "x")

  lemma ScoreOfThreeByTwo(a: Chunk, b: Chunk, c: Chunk)
    requires a.normPunct != b.normPunct && a.norm != b.norm && b.normPunct != c.normPunct && b.norm != c.norm
    ensures Score([a, b, c], [a, c], 3, 2) == if a.norm == "" then 19 else 15
  {
    var base, block := [a, b, c], [a, c];
    assert Score(base, block, 1, 1) == 10;
    assert Score(base, block, 2, 1) == if a.norm == "" then 9 else 5;
  }

  /**
   * So an additional word can weigh less than an additional punctuation mark: an x inserted into "! w" costs 1 tenth,
   * a mark inserted into "w w" costs 5.
   */
  lemma WordCanWeighLess()
    ensures OTHER.norm != "" && Score([MARK, OTHER, WORD], [MARK, WORD], 3, 2) == 19
    ensures MARK.norm == "" && Score([WORD, MARK, WORD], [WORD, WORD], 3, 2) == 15
  {
    ScoreOfThreeByTwo(MARK, OTHER, WORD);
    ScoreOfThreeByTwo(WORD, MARK, WORD);
  }

  /** How a weight limits what an alignment leaves unmatched, in the block and in the base. */
  lemma {:induction false} WeightLimitsGaps(al: Alignment, base: seq<Chunk>, block: seq<Chunk>, p: nat, q: nat)
    requires p <= |base| && q <= |block| && Fits(al, p, q)
    ensures var matched := |Matches(al, base, block, p, q)|;
            var start := Start(al, p, q);
            && matched <= q - start.1 && matched <= p - start.0
            && Weight(al, base, block, p, q) <= 10 * matched
            && Weight(al, base, block, p, q) <= 11 * matched - (p - start.0)
  {
    match al
    case Empty =>
    case Pair(before) => WeightLimitsGaps(before, base, block, p - 1, q - 1);
    case SkipBase(before) => WeightLimitsGaps(before, base, block, p - 1, q);
    case SkipBlock(before) => WeightLimitsGaps(before, base, block, p, q - 1);
  }

  /** The threshold in exact arithmetic: a similarity of at least 0.85 is a score of at least 8.5 per block chunk. */
  lemma ThresholdInTenths(base: seq<Chunk>, block: seq<Chunk>)
    ensures Locate(base, block).similarity >= 0.85 <==> |block| > 0 && 2 * BestScore(base, block) >= 17 * |block|
  {
    if BestScore(base, block) > 0 {
      Ratios.CompareQuotient(BestScore(base, block) as real / 10.0, |block| as real, 0.85);
    }
  }

  /**
   * A span that reaches the threshold contains, in order, counterparts for at least 85% of the block's chunks,
   * and is between 0.85 and 2.5 times as long as the block.
   */
  lemma ThresholdBoundsSpan(base: seq<Chunk>, block: seq<Chunk>)
    requires Locate(base, block).similarity >= 0.85
    ensures BestScore(base, block) > 0
    ensures var rows := BestRows(base, block);
            var m, span := |block|, rows.1 - rows.0 + 1;
            && 85 * m <= 100 * span <= 250 * m
            && exists pairs :: InOrder(pairs, base, block, (rows.0, 0), (rows.1 + 1, m)) && 100 * |pairs| >= 85 * m
  {
    ThresholdInTenths(base, block);
    var best := BestCell(base, block);
    var al := BestAlignment(base, block);
    SpanIsBestAlignment(base, block);
    WeightLimitsGaps(al, base, block, best.0, best.1);
    MatchesInOrder(al, base, block, best.0, best.1);
    var pairs := Matches(al, base, block, best.0, best.1);
    assert InOrder(pairs, base, block, (BestRows(base, block).0, 0), (BestRows(base, block).1 + 1, |block|));
  }

  // ----- exact occurrences

  /** The block's chunks occur, up to normalization, contiguously in the base from chunk i on. */
  ghost predicate OccursAt(base: seq<Chunk>, block: seq<Chunk>, i: nat) {
    i + |block| <= |base| && forall k :: 0 <= k < |block| ==> base[i + k].normPunct == block[k].normPunct
  }

  ghost predicate SuffixMatches(base: seq<Chunk>, block: seq<Chunk>, p: nat, q: nat)
    requires p <= |base| && q <= |block|
  {
    q <= p && forall k :: 0 <= k < q ==> base[p - q + k].normPunct == block[k].normPunct
  }

  lemma SuffixExtends(base: seq<Chunk>, block: seq<Chunk>, p: nat, q: nat)
    requires 0 < p <= |base| && 0 < q <= |block|
    ensures SuffixMatches(base, block, p, q)
            <==> SuffixMatches(base, block, p - 1, q - 1) && base[p - 1].normPunct == block[q - 1].normPunct
  {
    if q <= p {
      assert base[p - q + (q - 1)] == base[p - 1];
    }
  }

  /** A full score of 10 per block chunk means an exact match ending here, and the traceback follows it. */
  lemma {:induction false} FullScore(base: seq<Chunk>, block: seq<Chunk>, p: nat, q: nat)
    requires p <= |base| && q <= |block|
    ensures Score(base, block, p, q) <= 10 * q
    ensures Score(base, block, p, q) == 10 * q <==> SuffixMatches(base, block, p, q)
    ensures SuffixMatches(base, block, p, q) ==> Start(Traced(base, block, p, q), p, q) == (p - q, 0)
    decreases p + q
  {
    if p > 0 && q > 0 {
      ScoreUnfolds(base, block, p, q);
      FullScore(base, block, p - 1, q);
      FullScore(base, block, p, q - 1);
      FullScore(base, block, p - 1, q - 1);
      SuffixExtends(base, block, p, q);
    }
  }

  lemma SimilarityRange(base: seq<Chunk>, block: seq<Chunk>)
    ensures 0.0 <= Locate(base, block).similarity <= 1.0
    ensures Locate(base, block).similarity == 1.0 <==> |block| > 0 && BestScore(base, block) == 10 * |block|
  {
    if BestScore(base, block) > 0 {
      var best := BestCell(base, block);
      FullScore(base, block, best.0, best.1);
      Ratios.CompareQuotient(BestScore(base, block) as real / 10.0, |block| as real, 0.0);
      Ratios.CompareQuotient(BestScore(base, block) as real / 10.0, |block| as real, 1.0);
    }
  }

  /** Where the block occurs, the best cell is the end of the last occurrence and carries the full score. */
  lemma OccurrenceIsBest(base: seq<Chunk>, block: seq<Chunk>, i: nat)
    requires block != [] && OccursAt(base, block, i)
    ensures BestScore(base, block) == 10 * |block|
    ensures BestCell(base, block).1 == |block| && i + |block| <= BestCell(base, block).0
    ensures OccursAt(base, block, BestCell(base, block).0 - |block|)
    ensures BestRows(base, block).0 == BestCell(base, block).0 - |block|
  {
    var m, best := |block|, BestCell(base, block);
    BestCellIsBest(base, block);
    FullScore(base, block, best.0, best.1);
    FullScore(base, block, i + m, m);
    assert InGrid(base, block, i + m, m);
  }

  /** Where the block occurs, the span found is its last occurrence, with similarity 1. */
  lemma LastOccurrenceFound(base: seq<Chunk>, block: seq<Chunk>, i: nat)
    requires block != [] && OccursAt(base, block, i)
    requires forall l: nat | OccursAt(base, block, l) :: l <= i
    ensures Locate(base, block).similarity == 1.0
    ensures Locate(base, block).start == base[i].start && Locate(base, block).end == base[i + |block| - 1].end
  {
    OccurrenceIsBest(base, block, i);
    SimilarityRange(base, block);
    SpanIsBestAlignment(base, block);
    assert BestRows(base, block) == (i, i + |block| - 1);
  }

  /** The similarity is 1 exactly when a non-empty block occurs word for word, up to normalization, in the base. */
  lemma ExactOccurrence(base: seq<Chunk>, block: seq<Chunk>)
    ensures Locate(base, block).similarity == 1.0 <==> block != [] && exists i: nat :: OccursAt(base, block, i)
  {
    SimilarityRange(base, block);
    if Locate(base, block).similarity == 1.0 {
      var best := BestCell(base, block);
      FullScore(base, block, best.0, best.1);
      assert OccursAt(base, block, best.0 - |block|);
    } else if i: nat :| block != [] && OccursAt(base, block, i) {
      OccurrenceIsBest(base, block, i);
    }
  }
}
