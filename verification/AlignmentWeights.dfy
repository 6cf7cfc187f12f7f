/** What the alignment scores, said in terms of the chunks alone: punctuation that differs, and a chunk replaced. */
module AlignmentWeights {
  import opened Chunking
  import opened SmithWaterman
  import opened AlignmentProperties

  // ----- bounds for any two lists

  /** The most that block chunk c can score: 10 if some base chunk is equal to it, 8 if one differs in punctuation. */
  ghost function Potential(base: seq<Chunk>, c: Chunk): (w: nat) {
    if exists i :: 0 <= i < |base| && base[i].normPunct == c.normPunct then 10
    else if exists i :: 0 <= i < |base| && base[i].norm == c.norm then 8
    else 0
  }

  ghost function PotentialOf(base: seq<Chunk>, block: seq<Chunk>, q: nat): nat
    requires q <= |block|
  {
    if q == 0 then 0 else PotentialOf(base, block, q - 1) + Potential(base, block[q - 1])
  }

  lemma {:induction false} ScoreWithinPotential(base: seq<Chunk>, block: seq<Chunk>, p: nat, q: nat)
    requires p <= |base| && q <= |block|
    ensures Score(base, block, p, q) <= PotentialOf(base, block, q)
    decreases p + q
  {
    if p > 0 && q > 0 {
      ScoreUnfolds(base, block, p, q);
      ScoreWithinPotential(base, block, p - 1, q);
      ScoreWithinPotential(base, block, p, q - 1);
      ScoreWithinPotential(base, block, p - 1, q - 1);
      assert PairWeight(base[p - 1], block[q - 1]) <= Potential(base, block[q - 1]);
    }
  }

  /** No score exceeds the sum of what the block's chunks can score each. */
  lemma BestWithinPotential(base: seq<Chunk>, block: seq<Chunk>)
    ensures BestScore(base, block) <= PotentialOf(base, block, |block|)
  {
    if |base| > 0 && |block| > 0 {
      var best := BestCell(base, block);
      ScoreWithinPotential(base, block, best.0, best.1);
      PotentialGrows(base, block, best.1);
    }
  }

  lemma {:induction false} PotentialGrows(base: seq<Chunk>, block: seq<Chunk>, q: nat)
    requires q <= |block|
    ensures PotentialOf(base, block, q) <= PotentialOf(base, block, |block|)
    decreases |block| - q
  {
    if q < |block| { PotentialGrows(base, block, q + 1); }
  }

  // ----- a block that occurs except for its punctuation

  /** From base chunk i on, the base agrees with the block chunk by chunk, up to punctuation. */
  ghost predicate OccursWithout(base: seq<Chunk>, block: seq<Chunk>, i: nat) {
    i + |block| <= |base| && forall k :: 0 <= k < |block| ==> base[i + k].norm == block[k].norm
  }

  /** How many of the first q chunks differ in punctuation. */
  ghost function Differing(base: seq<Chunk>, block: seq<Chunk>, i: nat, q: nat): (d: nat)
    requires q <= |block| && i + |block| <= |base|
    ensures d <= q
  {
    if q == 0 then 0
    else Differing(base, block, i, q - 1) + if base[i + q - 1].normPunct == block[q - 1].normPunct then 0 else 1
  }

  lemma {:induction false} ScoreOfOccurrence(base: seq<Chunk>, block: seq<Chunk>, i: nat, q: nat)
    requires q <= |block| && OccursWithout(base, block, i)
    ensures Score(base, block, i + q, q) >= 10 * q - 2 * Differing(base, block, i, q)
  {
    if q > 0 {
      ScoreOfOccurrence(base, block, i, q - 1);
      ScoreUnfolds(base, block, i + q, q);
    }
  }

  /** Where the block differs in punctuation from the base at i, it differs so from every base chunk. */
  ghost predicate NowhereElse(base: seq<Chunk>, block: seq<Chunk>, i: nat)
    requires i + |block| <= |base|
  {
    forall k, l :: 0 <= k < |block| && 0 <= l < |base| && base[i + k].normPunct != block[k].normPunct ==>
      base[l].normPunct != block[k].normPunct
  }

  lemma {:induction false} PotentialOfOccurrence(base: seq<Chunk>, block: seq<Chunk>, i: nat, q: nat)
    requires q <= |block| && OccursWithout(base, block, i) && NowhereElse(base, block, i)
    ensures PotentialOf(base, block, q) == 10 * q - 2 * Differing(base, block, i, q)
  {
    if q > 0 {
      PotentialOfOccurrence(base, block, i, q - 1);
      assert base[i + (q - 1)].norm == block[q - 1].norm;
    }
  }

  /**
   * A block that occurs in the base except for the punctuation of d chunks, which is found nowhere in the base, scores
   * exactly 10 tenths for each chunk less 2 for each of these d. So it is replaced if and only if 20 d <= 15 n.
   */
  lemma PunctuationCosts(base: seq<Chunk>, block: seq<Chunk>, i: nat)
    requires block != [] && OccursWithout(base, block, i) && NowhereElse(base, block, i)
    ensures var n, d := |block|, Differing(base, block, i, |block|);
            && BestScore(base, block) == 10 * n - 2 * d
            && (Locate(base, block).similarity >= 0.85 <==> 20 * d <= 15 * n)
  {
    var n := |block|;
    ScoreOfOccurrence(base, block, i, n);
    PotentialOfOccurrence(base, block, i, n);
    BestWithinPotential(base, block);
    BestCellIsBest(base, block);
    assert InGrid(base, block, i + n, n);
    ThresholdInTenths(base, block);
  }

  // ----- a chunk that is replaced

  /** The two lists agree chunk by chunk except at m, and no other two chunks of them have anything in common. */
  ghost predicate DifferAt(base: seq<Chunk>, block: seq<Chunk>, m: nat) {
    && m < |base| == |block|
    && (forall k :: 0 <= k < |base| && k != m ==> base[k].normPunct == block[k].normPunct)
    && (forall k, l :: 0 <= k < |base| && 0 <= l < |block| && (k != l || k == m) ==>
          base[k].normPunct != block[l].normPunct && base[k].norm != block[l].norm)
  }

  /** The score at the end of the first k chunks of both lists: the replaced chunk costs 10 tenths, like one match. */
  function Along(m: nat, k: nat): nat {
    if k == 0 then 0 else if k - 1 == m then (if m == 0 then 0 else 10 * m - 10) else Along(m, k - 1) + 10
  }

  lemma {:induction false} AlongBefore(m: nat, k: nat)
    requires k <= m
    ensures Along(m, k) == 10 * k
  {
    if k > 0 { AlongBefore(m, k - 1); }
  }

  /** What the score of cell (p, q) is on the diagonal, and how far below it elsewhere. */
  predicate CellOk(m: nat, p: nat, q: nat, score: nat) {
    if p == q then score == Along(m, p)
    else if p > q then score <= Max(0, Along(m, q) - 1)
    else score <= Max(0, Along(m, p) - if p <= m then 16 else 7)
  }

  lemma AlongStep(m: nat, k: nat)
    requires k > 0
    ensures Along(m, k) == if k - 1 == m then Max(0, Along(m, k - 1) - 10) else Along(m, k - 1) + 10
  {
    if k - 1 == m { AlongBefore(m, m); }
  }

  lemma CellFollows(m: nat, p: nat, q: nat, top: nat, left: nat, diag: nat, baseGap: int, blockGap: int, pair: int)
    requires p > 0 && q > 0 && CellOk(m, p - 1, q, top) && CellOk(m, p, q - 1, left) && CellOk(m, p - 1, q - 1, diag)
    requires baseGap <= -1 && blockGap <= -16 && pair == if p == q && p - 1 != m then 10 else -10
    ensures CellOk(m, p, q, Max(Max(0, baseGap + top), Max(blockGap + left, pair + diag)))
  {
    AlongStep(m, p);
    AlongStep(m, q);
  }

  lemma {:induction false} ScoreOfDifferent(base: seq<Chunk>, block: seq<Chunk>, m: nat, p: nat, q: nat)
    requires DifferAt(base, block, m) && p <= |base| && q <= |block|
    ensures CellOk(m, p, q, Score(base, block, p, q))
    decreases p + q
  {
    if p > 0 && q > 0 {
      ScoreUnfolds(base, block, p, q);
      ScoreOfDifferent(base, block, m, p - 1, q);
      ScoreOfDifferent(base, block, m, p, q - 1);
      ScoreOfDifferent(base, block, m, p - 1, q - 1);
      CellFollows(m, p, q, Score(base, block, p - 1, q), Score(base, block, p, q - 1), Score(base, block, p - 1, q - 1),
                  BaseGap(base, p - 1), BlockGap(block, q - 1), PairWeight(base[p - 1], block[q - 1]));
    }
  }

  /**
   * If two lists of n chunks have nothing in common but that they agree everywhere except at chunk m, the best score is
   * that of the first m chunks, or that of all with 10 tenths less for the chunk replaced. For two chunks, a replaced
   * one and two chunks it is 30 tenths.
   */
  lemma ReplacedChunkCosts(base: seq<Chunk>, block: seq<Chunk>, m: nat)
    requires DifferAt(base, block, m)
    ensures BestScore(base, block) == Max(10 * m, Along(m, |base|))
    ensures Along(m, |base|) == Max(0, 10 * m - 10) + 10 * (|base| - m - 1)
  {
    var n, best := |base|, BestCell(base, block);
    BestCellIsBest(base, block);
    assert InGrid(base, block, n, n) && (m > 0 ==> InGrid(base, block, m, m));
    ScoreOfDifferent(base, block, m, n, n);
    ScoreOfDifferent(base, block, m, m, m);
    ScoreOfDifferent(base, block, m, best.0, best.1);
    AlongBefore(m, m);
    AlongAfter(m, n);
    AlongIsBounded(m, n, best.0);
    AlongIsBounded(m, n, best.1);
  }

  lemma {:induction false} AlongAfter(m: nat, k: nat)
    requires k > m
    ensures Along(m, k) == Max(0, 10 * m - 10) + 10 * (k - m - 1)
  {
    if k > m + 1 { AlongAfter(m, k - 1); }
  }

  lemma AlongIsBounded(m: nat, n: nat, k: nat)
    requires m < n && k <= n
    ensures Along(m, k) <= Max(10 * m, Along(m, n))
  {
    AlongAfter(m, n);
    if k <= m { AlongBefore(m, k); } else { AlongAfter(m, k); }
  }
}
