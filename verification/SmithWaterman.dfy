/**
 * Locating an old message inside a mail body: internal/textprocessor/smith_waterman.go.
 * Scores are kept in tenths. A cell (i, j) of the source's matrices is addressed below by the prefix
 * lengths p = i + 1 and q = j + 1, so that a missing neighbour is simply a prefix of length 0.
 */
module SmithWaterman {
  import opened Chunking

  datatype Direction = Stop | Diagonal | Top | Left

  /** The two chunks have the same normalized text, with or without punctuation. */
  predicate Shares(a: Chunk, b: Chunk) {
    a.normPunct == b.normPunct || a.norm == b.norm
  }

  function PairWeight(a: Chunk, b: Chunk): int {
    if a.normPunct == b.normPunct then 10 else if a.norm == b.norm then 8 else -10
  }

  // Leaving base chunk i unmatched; the reduction looks at the chunk before it, see AlignmentProperties.
  function BaseGap(base: seq<Chunk>, i: nat): (w: int)
    requires i < |base|
    ensures w <= -1
  {
    if i >= 1 && base[i - 1].norm == "" then -5 + 4 else -5
  }

  // Leaving block chunk j unmatched; the reduction looks at the chunk before it.
  function BlockGap(block: seq<Chunk>, j: nat): (w: int)
    requires j < |block|
    ensures w <= -16
  {
    if j >= 1 && block[j - 1].norm == "" then -20 + 4 else -20
  }

  function Max(a: int, b: int): int {
    if a < b then b else a
  }

  /** The recurrence behind the score matrix. */
  function Score(base: seq<Chunk>, block: seq<Chunk>, p: nat, q: nat): (s: nat)
    requires p <= |base| && q <= |block|
    decreases p + q
  {
    if p == 0 || q == 0 then 0
    else Max(Max(0, TopValue(base, block, p, q)), Max(LeftValue(base, block, p, q), DiagValue(base, block, p, q)))
  }

  lemma ScoreUnfolds(base: seq<Chunk>, block: seq<Chunk>, p: nat, q: nat)
    requires 0 < p <= |base| && 0 < q <= |block|
    ensures Score(base, block, p, q)
            == Max(Max(0, TopValue(base, block, p, q)), Max(LeftValue(base, block, p, q), DiagValue(base, block, p, q)))
  {
  }

  function DiagValue(base: seq<Chunk>, block: seq<Chunk>, p: nat, q: nat): int
    requires 0 < p <= |base| && 0 < q <= |block|
    decreases p + q, 0
  {
    PairWeight(base[p - 1], block[q - 1]) + Score(base, block, p - 1, q - 1)
  }

  function TopValue(base: seq<Chunk>, block: seq<Chunk>, p: nat, q: nat): int
    requires 0 < p <= |base| && 0 < q <= |block|
    decreases p + q, 0
  {
    BaseGap(base, p - 1) + Score(base, block, p - 1, q)
  }

  function LeftValue(base: seq<Chunk>, block: seq<Chunk>, p: nat, q: nat): int
    requires 0 < p <= |base| && 0 < q <= |block|
    decreases p + q, 0
  {
    BlockGap(block, q - 1) + Score(base, block, p, q - 1)
  }

  /** The trace matrix: ties are resolved in the order stop, diagonal, top, left. */
  function Trace(base: seq<Chunk>, block: seq<Chunk>, p: nat, q: nat): Direction
    requires 0 < p <= |base| && 0 < q <= |block|
  {
    var s := Score(base, block, p, q);
    if s == 0 then Stop
    else if s == DiagValue(base, block, p, q) then Diagonal
    else if s == TopValue(base, block, p, q) then Top
    else Left
  }

  // ----- local alignments, defined without reference to the matrices

  /** A local alignment, read from its last step backwards. */
  datatype Alignment = Empty | Pair(before: Alignment) | SkipBase(before: Alignment) | SkipBlock(before: Alignment)

  /** al can end after the first p base chunks and the first q block chunks. */
  predicate Fits(al: Alignment, p: nat, q: nat) {
    match al
    case Empty => true
    case Pair(before) => p > 0 && q > 0 && Fits(before, p - 1, q - 1)
    case SkipBase(before) => p > 0 && q > 0 && Fits(before, p - 1, q)
    case SkipBlock(before) => p > 0 && q > 0 && Fits(before, p, q - 1)
  }

  function Weight(al: Alignment, base: seq<Chunk>, block: seq<Chunk>, p: nat, q: nat): int
    requires p <= |base| && q <= |block| && Fits(al, p, q)
  {
    match al
    case Empty => 0
    case Pair(before) => PairWeight(base[p - 1], block[q - 1]) + Weight(before, base, block, p - 1, q - 1)
    case SkipBase(before) => BaseGap(base, p - 1) + Weight(before, base, block, p - 1, q)
    case SkipBlock(before) => BlockGap(block, q - 1) + Weight(before, base, block, p, q - 1)
  }

  /** Where an alignment ending at (p, q) begins: its first base chunk and its first block chunk. */
  function Start(al: Alignment, p: nat, q: nat): (start: (nat, nat))
    requires Fits(al, p, q)
    ensures start.0 <= p && start.1 <= q
  {
    match al
    case Empty => (p, q)
    case Pair(before) => Start(before, p - 1, q - 1)
    case SkipBase(before) => Start(before, p - 1, q)
    case SkipBlock(before) => Start(before, p, q - 1)
  }

  /** The pairs (base index, block index) that the alignment matches and whose chunks share their text. */
  function Matches(al: Alignment, base: seq<Chunk>, block: seq<Chunk>, p: nat, q: nat): seq<(nat, nat)>
    requires p <= |base| && q <= |block| && Fits(al, p, q)
  {
    match al
    case Empty => []
    case Pair(before) =>
      Matches(before, base, block, p - 1, q - 1)
      + (if Shares(base[p - 1], block[q - 1]) then [(p - 1, q - 1)] else [])
    case SkipBase(before) => Matches(before, base, block, p - 1, q)
    case SkipBlock(before) => Matches(before, base, block, p, q - 1)
  }

  /** No local alignment ending at (p, q) weighs more than the matrix entry. */
  lemma {:induction false} ScoreBoundsAlignments(al: Alignment, base: seq<Chunk>, block: seq<Chunk>, p: nat, q: nat)
    requires p <= |base| && q <= |block| && Fits(al, p, q)
    ensures Weight(al, base, block, p, q) <= Score(base, block, p, q)
  {
    match al
    case Empty =>
    case Pair(before) => ScoreBoundsAlignments(before, base, block, p - 1, q - 1);
    case SkipBase(before) => ScoreBoundsAlignments(before, base, block, p - 1, q);
    case SkipBlock(before) => ScoreBoundsAlignments(before, base, block, p, q - 1);
  }

  /** The alignment that the traceback walks from (p, q). */
  function Traced(base: seq<Chunk>, block: seq<Chunk>, p: nat, q: nat): (al: Alignment)
    requires p <= |base| && q <= |block|
    ensures Fits(al, p, q)
    decreases p + q
  {
    if p == 0 || q == 0 then Empty
    else
      match Trace(base, block, p, q)
      case Stop => Empty
      case Diagonal => Pair(Traced(base, block, p - 1, q - 1))
      case Top => SkipBase(Traced(base, block, p - 1, q))
      case Left => SkipBlock(Traced(base, block, p, q - 1))
  }

  /** The traced alignment attains the matrix entry, so the entry is the maximum over all local alignments. */
  lemma {:induction false} TracedAttainsScore(base: seq<Chunk>, block: seq<Chunk>, p: nat, q: nat)
    requires p <= |base| && q <= |block|
    ensures Weight(Traced(base, block, p, q), base, block, p, q) == Score(base, block, p, q)
    decreases p + q
  {
    if p > 0 && q > 0 {
      match Trace(base, block, p, q)
      case Stop =>
      case Diagonal => TracedAttainsScore(base, block, p - 1, q - 1);
      case Top => TracedAttainsScore(base, block, p - 1, q);
      case Left => TracedAttainsScore(base, block, p, q - 1);
    }
  }

  /**
   * Read backwards, al stops no later than other, and where they part al matches two chunks, or leaves out a base chunk
   * where other leaves out a block chunk.
   */
  predicate ComesFirst(al: Alignment, other: Alignment) {
    match al
    case Empty => true
    case Pair(before) => !other.Empty? && (other.Pair? ==> ComesFirst(before, other.before))
    case SkipBase(before) => other.SkipBlock? || (other.SkipBase? && ComesFirst(before, other.before))
    case SkipBlock(before) => other.SkipBlock? && ComesFirst(before, other.before)
  }

  /** Among the alignments of greatest weight that end at a cell, the traced one comes first. */
  lemma {:induction false} TracedComesFirst(al: Alignment, base: seq<Chunk>, block: seq<Chunk>, p: nat, q: nat)
    requires p <= |base| && q <= |block| && Fits(al, p, q)
    requires Weight(al, base, block, p, q) == Score(base, block, p, q)
    ensures ComesFirst(Traced(base, block, p, q), al)
  {
    if p > 0 && q > 0 && Score(base, block, p, q) > 0 {
      match al
      case Empty =>
      case Pair(before) =>
        ScoreBoundsAlignments(before, base, block, p - 1, q - 1);
        TracedComesFirst(before, base, block, p - 1, q - 1);
      case SkipBase(before) =>
        ScoreBoundsAlignments(before, base, block, p - 1, q);
        TracedComesFirst(before, base, block, p - 1, q);
      case SkipBlock(before) =>
        ScoreBoundsAlignments(before, base, block, p, q - 1);
        TracedComesFirst(before, base, block, p, q - 1);
    }
  }

  /** Where a traced alignment of positive weight begins, two chunks share their text. */
  lemma {:induction false} TracedStartsShared(base: seq<Chunk>, block: seq<Chunk>, p: nat, q: nat)
    requires p <= |base| && q <= |block| && Score(base, block, p, q) > 0
    ensures var start := Start(Traced(base, block, p, q), p, q);
            start.0 < p && start.1 < q && Shares(base[start.0], block[start.1])
    decreases p + q
  {
    match Trace(base, block, p, q)
    case Stop =>
    case Top => TracedStartsShared(base, block, p - 1, q);
    case Left => TracedStartsShared(base, block, p, q - 1);
    case Diagonal =>
      if Score(base, block, p - 1, q - 1) > 0 {
        TracedStartsShared(base, block, p - 1, q - 1);
      }
  }

  /** The first step of a traced alignment of positive weight is a diagonal one that matches these two chunks. */
  lemma {:induction false} TracedStartsMatched(base: seq<Chunk>, block: seq<Chunk>, p: nat, q: nat)
    requires p <= |base| && q <= |block| && Score(base, block, p, q) > 0
    ensures var pairs := Matches(Traced(base, block, p, q), base, block, p, q);
            pairs != [] && pairs[0] == Start(Traced(base, block, p, q), p, q)
    decreases p + q
  {
    match Trace(base, block, p, q)
    case Stop =>
    case Top => TracedStartsMatched(base, block, p - 1, q);
    case Left => TracedStartsMatched(base, block, p, q - 1);
    case Diagonal =>
      if Score(base, block, p - 1, q - 1) > 0 {
        TracedStartsMatched(base, block, p - 1, q - 1);
      } else {
        assert Traced(base, block, p - 1, q - 1) == Empty;
      }
  }

  // ----- the chosen cell

  ghost predicate InGrid(base: seq<Chunk>, block: seq<Chunk>, p: nat, q: nat) {
    0 < p <= |base| && 0 < q <= |block|
  }

  predicate RowMajor(p: nat, q: nat, p': nat, q': nat) {
    p < p' || (p == p' && q < q')
  }

  /** (p, q) holds the greatest entry, and is the last such cell in row-major order. */
  ghost predicate IsBest(base: seq<Chunk>, block: seq<Chunk>, p: nat, q: nat) {
    && InGrid(base, block, p, q)
    && forall p': nat, q': nat | InGrid(base, block, p', q') ::
         && Score(base, block, p', q') <= Score(base, block, p, q)
         && (RowMajor(p, q, p', q') ==> Score(base, block, p', q') < Score(base, block, p, q))
  }

  /** The best cell among those before (p, q) in row-major order, (1, 1) if there is none. */
  function BestBefore(base: seq<Chunk>, block: seq<Chunk>, p: nat, q: nat): (best: (nat, nat))
    requires 0 < p <= |base| && 0 < q <= |block| + 1 && |block| > 0
    ensures 0 < best.0 <= p && 0 < best.1 <= |block|
    ensures best != (1, 1) ==> RowMajor(best.0, best.1, p, q)
    decreases p, q
  {
    if q == 1 then
      if p == 1 then (1, 1) else BestBefore(base, block, p - 1, |block| + 1)
    else
      var best := BestBefore(base, block, p, q - 1);
      if Score(base, block, p, q - 1) >= Score(base, block, best.0, best.1) then (p, q - 1) else best
  }

  function BestCell(base: seq<Chunk>, block: seq<Chunk>): (best: (nat, nat))
    requires |base| > 0 && |block| > 0
    ensures 0 < best.0 <= |base| && 0 < best.1 <= |block|
  {
    BestBefore(base, block, |base|, |block| + 1)
  }

  lemma {:induction false} BestBeforeIsBest(base: seq<Chunk>, block: seq<Chunk>, p: nat, q: nat, p': nat, q': nat)
    requires 0 < p <= |base| && 0 < q <= |block| + 1 && |block| > 0
    requires InGrid(base, block, p', q') && RowMajor(p', q', p, q)
    ensures var best := BestBefore(base, block, p, q);
            && Score(base, block, p', q') <= Score(base, block, best.0, best.1)
            && (RowMajor(best.0, best.1, p', q') ==> Score(base, block, p', q') < Score(base, block, best.0, best.1))
    decreases p, q
  {
    if q == 1 {
      BestBeforeIsBest(base, block, p - 1, |block| + 1, p', q');
    } else if (p', q') != (p, q - 1) {
      BestBeforeIsBest(base, block, p, q - 1, p', q');
    }
  }

  lemma BestCellIsBest(base: seq<Chunk>, block: seq<Chunk>)
    requires |base| > 0 && |block| > 0
    ensures IsBest(base, block, BestCell(base, block).0, BestCell(base, block).1)
  {
    var best := BestCell(base, block);
    forall p: nat, q: nat | InGrid(base, block, p, q)
      ensures Score(base, block, p, q) <= Score(base, block, best.0, best.1)
      ensures RowMajor(best.0, best.1, p, q) ==> Score(base, block, p, q) < Score(base, block, best.0, best.1)
    {
      BestBeforeIsBest(base, block, |base|, |block| + 1, p, q);
    }
  }

  // ----- the result

  datatype Located = Located(similarity: real, start: nat, end: nat)

  /** First and last base chunk of the span that is returned when the best entry is positive. */
  function BestRows(base: seq<Chunk>, block: seq<Chunk>): (rows: (nat, nat))
    requires |base| > 0 && |block| > 0
    ensures rows.1 < |base|
  {
    var best := BestCell(base, block);
    (Start(Traced(base, block, best.0, best.1), best.0, best.1).0, best.0 - 1)
  }

  function BestScore(base: seq<Chunk>, block: seq<Chunk>): nat {
    if |base| == 0 || |block| == 0 then 0
    else Score(base, block, BestCell(base, block).0, BestCell(base, block).1)
  }

  function Locate(base: seq<Chunk>, block: seq<Chunk>): Located {
    if BestScore(base, block) == 0 then Located(0.0, 0, 0)
    else
      TracedStartsShared(base, block, BestCell(base, block).0, BestCell(base, block).1);
      var rows := BestRows(base, block);
      Located(BestScore(base, block) as real / 10.0 / |block| as real, base[rows.0].start, base[rows.1].end)
  }

  /** The score matrix holds its final values in every cell before (i, j). */
  ghost predicate ScoresFilled(base: seq<Chunk>, block: seq<Chunk>, score: array2<int>, i: nat, j: nat)
    requires score.Length0 == |base| && score.Length1 == |block|
    reads score
  {
    forall x, y | 0 <= x < |base| && 0 <= y < |block| && RowMajor(x, y, i, j) ::
      score[x, y] == Score(base, block, x + 1, y + 1)
  }

  /** The trace matrix holds its final values in every cell before (i, j), and Stop in the others. */
  ghost predicate TraceFilled(base: seq<Chunk>, block: seq<Chunk>, trace: array2<Direction>, i: nat, j: nat)
    reads trace
  {
    && trace.Length0 == |base| && trace.Length1 == |block|
    && forall x, y | 0 <= x < |base| && 0 <= y < |block| ::
         trace[x, y] == if RowMajor(x, y, i, j) then Trace(base, block, x + 1, y + 1) else Stop
  }

  ghost predicate Filled(base: seq<Chunk>, block: seq<Chunk>, score: array2<int>, trace: array2<Direction>,
                         i: nat, j: nat)
    reads score, trace
  {
    && score.Length0 == |base| && score.Length1 == |block| && ScoresFilled(base, block, score, i, j)
    && TraceFilled(base, block, trace, i, j)
  }

  // The three candidate values of cell (i, j), from the cells already filled.
  method Candidates(base: seq<Chunk>, block: seq<Chunk>, score: array2<int>, i: nat, j: nat)
    returns (valueTop: int, valueLeft: int, valueDiag: int)
    requires i < score.Length0 == |base| && j < score.Length1 == |block|
    requires ScoresFilled(base, block, score, i, j)
    ensures valueTop == TopValue(base, block, i + 1, j + 1)
    ensures valueLeft == LeftValue(base, block, i + 1, j + 1)
    ensures valueDiag == DiagValue(base, block, i + 1, j + 1)
  {
    valueTop, valueLeft := -5, -20;
    if base[i].normPunct == block[j].normPunct {
      valueDiag := 10;
    } else if base[i].norm == block[j].norm {
      valueDiag := 8;
    } else {
      valueDiag := -10;
    }
    if i >= 1 {
      valueTop := valueTop + score[i - 1, j];
      if base[i - 1].norm == "" {
        valueTop := valueTop + 4;
      }
    }
    if j >= 1 {
      valueLeft := valueLeft + score[i, j - 1];
      if block[j - 1].norm == "" {
        valueLeft := valueLeft + 4;
      }
    }
    if i >= 1 && j >= 1 {
      valueDiag := valueDiag + score[i - 1, j - 1];
    }
  }

  method FillCell(base: seq<Chunk>, block: seq<Chunk>, score: array2<int>, trace: array2<Direction>, i: nat, j: nat)
    requires i < |base| && j < |block| && Filled(base, block, score, trace, i, j)
    modifies score, trace
    ensures Filled(base, block, score, trace, i, j + 1)
  {
    var valueTop, valueLeft, valueDiag := Candidates(base, block, score, i, j);
    var value := Max(Max(0, valueTop), Max(valueLeft, valueDiag));
    ScoreUnfolds(base, block, i + 1, j + 1);
    score[i, j] := value;
    assert ScoresFilled(base, block, score, i, j + 1);
    if value == 0 {
      // Stop is the initial value
    } else if value == valueDiag {
      trace[i, j] := Diagonal;
    } else if value == valueTop {
      trace[i, j] := Top;
    } else if value == valueLeft {
      trace[i, j] := Left;
    }
    assert trace[i, j] == Trace(base, block, i + 1, j + 1);
  }

  // The inner loop: row i, keeping the best cell so far.
  method FillRow(base: seq<Chunk>, block: seq<Chunk>, score: array2<int>, trace: array2<Direction>,
                 i: nat, best: (nat, nat)) returns (best': (nat, nat))
    requires i < |base| && |block| > 0 && best.0 <= i && best.1 < |block|
    requires Filled(base, block, score, trace, i, 0)
    requires (best.0 + 1, best.1 + 1) == BestBefore(base, block, i + 1, 1)
    modifies score, trace
    ensures Filled(base, block, score, trace, i, |block|)
    ensures best'.0 <= i && best'.1 < |block|
    ensures (best'.0 + 1, best'.1 + 1) == BestBefore(base, block, i + 1, |block| + 1)
  {
    best' := best;
    for j := 0 to |block|
      invariant Filled(base, block, score, trace, i, j)
      invariant best'.0 <= i && best'.1 < |block|
      invariant (best'.0 + 1, best'.1 + 1) == BestBefore(base, block, i + 1, j + 1)
    {
      FillCell(base, block, score, trace, i, j);
      assert RowMajor(best'.0, best'.1, i, j + 1);
      if score[i, j] >= score[best'.0, best'.1] {
        best' := (i, j);
      }
    }
  }

  method FillMatrices(base: seq<Chunk>, block: seq<Chunk>)
    returns (score: array2<int>, trace: array2<Direction>, bestI: nat, bestJ: nat)
    requires |base| > 0 && |block| > 0
    ensures fresh(score) && fresh(trace)
    ensures Filled(base, block, score, trace, |base|, 0)
    ensures (bestI + 1, bestJ + 1) == BestCell(base, block)
  {
    var n, m := |base|, |block|;
    score := new int[n, m];
    trace := new Direction[n, m]((_, _) => Stop);
    var best := (0, 0);
    for i := 0 to n
      invariant Filled(base, block, score, trace, i, 0)
      invariant best.0 < n && best.1 < m && best.0 <= i
      invariant if i == 0 then best == (0, 0) else (best.0 + 1, best.1 + 1) == BestBefore(base, block, i, m + 1)
    {
      best := FillRow(base, block, score, trace, i, best);
    }
    bestI, bestJ := best.0, best.1;
  }

  // The traceback loop from cell (i, j); it returns the row of the last cell it visits.
  method WalkBack(base: seq<Chunk>, block: seq<Chunk>, trace: array2<Direction>, bestI: nat, bestJ: nat)
    returns (prevI: nat)
    requires TraceFilled(base, block, trace, |base|, 0) && bestI < |base| && bestJ < |block|
    requires Score(base, block, bestI + 1, bestJ + 1) > 0
    ensures prevI == Start(Traced(base, block, bestI + 1, bestJ + 1), bestI + 1, bestJ + 1).0
  {
    var i: int, j: int := bestI, bestJ;
    prevI := i;
    ghost var first := Start(Traced(base, block, bestI + 1, bestJ + 1), bestI + 1, bestJ + 1).0;
    while i >= 0 && j >= 0 && trace[i, j] != Stop
      invariant -1 <= i < |base| && -1 <= j < |block|
      invariant first == Start(Traced(base, block, i + 1, j + 1), i + 1, j + 1).0
      invariant Score(base, block, i + 1, j + 1) > 0 || prevI == i + 1
      decreases i + j
    {
      prevI := i;
      match trace[i, j]
      case Diagonal => i, j := i - 1, j - 1;
      case Top => i := i - 1;
      case Left => j := j - 1;
    }
  }

  method Align(base: Message, block: Message) returns (similarity: real, start: nat, end: nat)
    ensures Located(similarity, start, end) == Locate(base.chunks, block.chunks)
  {
    var n, m := |base.chunks|, |block.chunks|;
    if n == 0 || m == 0 {
      return 0.0, 0, 0;
    }
    var score, trace, bestI, bestJ := FillMatrices(base.chunks, block.chunks);
    assert score[bestI, bestJ] == BestScore(base.chunks, block.chunks);
    if score[bestI, bestJ] == 0 {
      return 0.0, 0, 0;
    }
    var i := WalkBack(base.chunks, block.chunks, trace, bestI, bestJ);
    assert (i, bestI) == BestRows(base.chunks, block.chunks);
    TracedStartsShared(base.chunks, block.chunks, bestI + 1, bestJ + 1);
    return score[bestI, bestJ] as real / 10.0 / m as real, base.chunks[i].start, base.chunks[bestI].end;
  }
}
