/**
 * The weighted edit distance between two chunk lists: internal/textprocessor/levenshtein.go.
 * Distances are kept in halves.
 */
module Levenshtein {
  import opened Chunking
  import Ratios

  function Min(a: int, b: int): int {
    if a < b then a else b
  }

  function MaxLength(a: seq<Chunk>, b: seq<Chunk>): nat {
    if |a| < |b| then |b| else |a|
  }

  /** Dropping a chunk between matched ones: half price when it holds nothing but punctuation. */
  function GapCost(c: Chunk): (cost: nat)
    ensures 1 <= cost <= 2
  {
    if c.norm == "" then 1 else 2
  }

  function ReplaceCost(c: Chunk, d: Chunk): (cost: nat)
    ensures cost <= 2
    ensures cost == 0 <==> c.normPunct == d.normPunct
  {
    if c.normPunct == d.normPunct then 0 else if c.norm == d.norm then 1 else 2
  }

  // ----- edit scripts, defined without reference to the recurrence

  /** An edit script, read from its last step backwards. */
  datatype Script = Begin | Replace(before: Script) | Delete(before: Script) | Insert(before: Script)

  /** The script turns the first i chunks of one list into the first j chunks of another. */
  predicate Edits(script: Script, i: nat, j: nat) {
    match script
    case Begin => i == 0 && j == 0
    case Replace(before) => i > 0 && j > 0 && Edits(before, i - 1, j - 1)
    case Delete(before) => i > 0 && Edits(before, i - 1, j)
    case Insert(before) => j > 0 && Edits(before, i, j - 1)
  }

  /** Cost of a script: while one of the two lists is untouched every step costs a full chunk. */
  function Cost(script: Script, a: seq<Chunk>, b: seq<Chunk>, i: nat, j: nat): nat
    requires i <= |a| && j <= |b| && Edits(script, i, j)
  {
    match script
    case Begin => 0
    case Replace(before) => ReplaceCost(a[i - 1], b[j - 1]) + Cost(before, a, b, i - 1, j - 1)
    case Delete(before) => (if j == 0 then 2 else GapCost(a[i - 1])) + Cost(before, a, b, i - 1, j)
    case Insert(before) => (if i == 0 then 2 else GapCost(b[j - 1])) + Cost(before, a, b, i, j - 1)
  }

  /** The full recurrence, of which the source keeps two rows. */
  function Distance(a: seq<Chunk>, b: seq<Chunk>, i: nat, j: nat): nat
    requires i <= |a| && j <= |b|
    decreases i + j
  {
    if i == 0 then 2 * j
    else if j == 0 then 2 * i
    else
      Min(Min(Distance(a, b, i, j - 1) + GapCost(b[j - 1]), Distance(a, b, i - 1, j) + GapCost(a[i - 1])),
          Distance(a, b, i - 1, j - 1) + ReplaceCost(a[i - 1], b[j - 1]))
  }

  lemma {:induction false} DistanceBoundsScripts(script: Script, a: seq<Chunk>, b: seq<Chunk>, i: nat, j: nat)
    requires i <= |a| && j <= |b| && Edits(script, i, j)
    ensures Distance(a, b, i, j) <= Cost(script, a, b, i, j)
  {
    match script
    case Begin =>
    case Replace(before) => DistanceBoundsScripts(before, a, b, i - 1, j - 1);
    case Delete(before) => DistanceBoundsScripts(before, a, b, i - 1, j);
    case Insert(before) => DistanceBoundsScripts(before, a, b, i, j - 1);
  }

  function CheapestScript(a: seq<Chunk>, b: seq<Chunk>, i: nat, j: nat): (script: Script)
    requires i <= |a| && j <= |b|
    ensures Edits(script, i, j) && Cost(script, a, b, i, j) == Distance(a, b, i, j)
    decreases i + j
  {
    if i == 0 && j == 0 then Begin
    else if i == 0 then Insert(CheapestScript(a, b, i, j - 1))
    else if j == 0 then Delete(CheapestScript(a, b, i - 1, j))
    else if Distance(a, b, i, j) == Distance(a, b, i, j - 1) + GapCost(b[j - 1]) then
      Insert(CheapestScript(a, b, i, j - 1))
    else if Distance(a, b, i, j) == Distance(a, b, i - 1, j) + GapCost(a[i - 1]) then
      Delete(CheapestScript(a, b, i - 1, j))
    else
      Replace(CheapestScript(a, b, i - 1, j - 1))
  }

  /** The recurrence computes the minimum cost over all edit scripts. */
  lemma DistanceIsMinimum(a: seq<Chunk>, b: seq<Chunk>)
    ensures forall script | Edits(script, |a|, |b|) :: Distance(a, b, |a|, |b|) <= Cost(script, a, b, |a|, |b|)
    ensures exists script :: Edits(script, |a|, |b|) && Distance(a, b, |a|, |b|) == Cost(script, a, b, |a|, |b|)
  {
    forall script | Edits(script, |a|, |b|)
      ensures Distance(a, b, |a|, |b|) <= Cost(script, a, b, |a|, |b|)
    {
      DistanceBoundsScripts(script, a, b, |a|, |b|);
    }
    var script := CheapestScript(a, b, |a|, |b|);
    assert Edits(script, |a|, |b|);
  }

  const MARK := Chunk(0, 1, "", "!")
  const WORD := Chunk(0, 1, "w", "w")

  /**
   * The distance depends on where a punctuation mark stands: one in front of a word, where the other message is still
   * untouched, costs a whole chunk, one behind it half a chunk. So it changes when both messages are reversed.
   */
  lemma BorderChargesInFull()
    ensures Distance([MARK, WORD], [WORD], 2, 1) == 2 && Distance([WORD, MARK], [WORD], 2, 1) == 1
  {
    assert Distance([MARK, WORD], [WORD], 1, 1) == 2;
    assert Distance([WORD, MARK], [WORD], 1, 1) == 0;
  }

  // ----- the similarity

  /** The share of a list of m chunks that a cost of d halves leaves. */
  function Ratio(d: int, m: nat): real
    requires m > 0
  {
    1.0 - d as real / 2.0 / m as real
  }

  function Similarity(a: seq<Chunk>, b: seq<Chunk>): real {
    if a == [] || b == [] then 0.0
    else Ratio(Distance(a, b, |a|, |b|), MaxLength(a, b))
  }

  // The inner loop: the next row from the previous one.
  method FillRow(chunks1: seq<Chunk>, chunks2: seq<Chunk>, i: nat, prev: array<int>, curr: array<int>)
    requires i < |chunks1| && prev != curr && prev.Length == curr.Length == |chunks2| + 1
    requires forall k :: 0 <= k <= |chunks2| ==> prev[k] == Distance(chunks1, chunks2, i, k)
    modifies curr
    ensures forall k :: 0 <= k <= |chunks2| ==> curr[k] == Distance(chunks1, chunks2, i + 1, k)
  {
    curr[0] := 2 * i + 2;
    for j := 0 to |chunks2|
      invariant forall k :: 0 <= k <= j ==> curr[k] == Distance(chunks1, chunks2, i + 1, k)
    {
      var valueTop := curr[j] + 2;
      var valueLeft := prev[j + 1] + 2;
      var valueDiag;
      if chunks1[i].norm == "" {
        valueLeft := valueLeft - 1;
      }
      if chunks2[j].norm == "" {
        valueTop := valueTop - 1;
      }
      if chunks1[i].normPunct == chunks2[j].normPunct {
        valueDiag := prev[j];
      } else if chunks1[i].norm == chunks2[j].norm {
        valueDiag := prev[j] + 1;
      } else {
        valueDiag := prev[j] + 2;
      }
      curr[j + 1] := Min(Min(valueTop, valueLeft), valueDiag);
    }
  }

  method ComputeSimilarity(message1: Message, message2: Message) returns (similarity: real)
    ensures similarity == Similarity(message1.chunks, message2.chunks)
  {
    var chunks1, chunks2 := message1.chunks, message2.chunks;
    var len1, len2 := |chunks1|, |chunks2|;
    if len1 == 0 || len2 == 0 {
      return 0.0;
    }
    var prev := new int[len2 + 1];
    var curr := new int[len2 + 1];
    for i := 0 to len2 + 1
      invariant forall k :: 0 <= k < i ==> prev[k] == 2 * k
    {
      prev[i] := 2 * i;
    }
    for i := 0 to len1
      invariant prev != curr && fresh(prev) && fresh(curr) && prev.Length == curr.Length == len2 + 1
      invariant forall k :: 0 <= k <= len2 ==> prev[k] == Distance(chunks1, chunks2, i, k)
    {
      FillRow(chunks1, chunks2, i, prev, curr);
      prev, curr := curr, prev;
    }
    return Ratio(prev[len2], if len1 < len2 then len2 else len1);
  }

  lemma {:induction false} DistanceSymmetric(a: seq<Chunk>, b: seq<Chunk>, i: nat, j: nat)
    requires i <= |a| && j <= |b|
    ensures Distance(a, b, i, j) == Distance(b, a, j, i)
    decreases i + j
  {
    if i > 0 && j > 0 {
      DistanceSymmetric(a, b, i - 1, j);
      DistanceSymmetric(a, b, i, j - 1);
      DistanceSymmetric(a, b, i - 1, j - 1);
      assert ReplaceCost(a[i - 1], b[j - 1]) == ReplaceCost(b[j - 1], a[i - 1]);
    }
  }

  /** The distance is at least half the difference of the lengths and at most the greater length, in halves. */
  lemma {:induction false} DistanceBounds(a: seq<Chunk>, b: seq<Chunk>, i: nat, j: nat)
    requires i <= |a| && j <= |b|
    ensures i - j <= Distance(a, b, i, j) && j - i <= Distance(a, b, i, j)
    ensures Distance(a, b, i, j) <= 2 * if i < j then j else i
    decreases i + j
  {
    if i > 0 && j > 0 {
      DistanceBounds(a, b, i - 1, j);
      DistanceBounds(a, b, i, j - 1);
      DistanceBounds(a, b, i - 1, j - 1);
    }
  }

  ghost predicate SameText(a: seq<Chunk>, b: seq<Chunk>, i: nat, j: nat)
    requires i <= |a| && j <= |b|
  {
    i == j && forall k :: 0 <= k < i ==> a[k].normPunct == b[k].normPunct
  }

  lemma {:induction false} ZeroDistance(a: seq<Chunk>, b: seq<Chunk>, i: nat, j: nat)
    requires i <= |a| && j <= |b|
    ensures Distance(a, b, i, j) == 0 <==> SameText(a, b, i, j)
    decreases i + j
  {
    if i > 0 && j > 0 {
      ZeroDistance(a, b, i - 1, j - 1);
    }
  }

  lemma RatioAtLeast(d: int, m: nat, t: nat)
    requires m > 0 && t <= 10
    ensures Ratio(d, m) >= t as real / 10.0 <==> 5 * d <= (10 - t) * m
    ensures d >= 0 ==> Ratio(d, m) <= 1.0
  {
    var x, y, share := d as real / 2.0, m as real, (10 - t) as real / 10.0;
    Ratios.CompareQuotient(x, y, share);
    Ratios.CompareQuotient(x, y, 0.0);
    TenthsOf(10 - t, m);
  }

  lemma RatioRange(d: int, m: nat)
    requires m > 0 && 0 <= d <= 2 * m
    ensures 0.0 <= Ratio(d, m) <= 1.0
    ensures Ratio(d, m) == 1.0 <==> d == 0
  {
    RatioAtLeast(d, m, 0);
    RatioAtLeast(d, m, 10);
  }

  lemma TenthsOf(t: int, m: int)
    ensures t as real / 10.0 * m as real == (t * m) as real / 10.0
  {
    assert t as real * m as real == (t * m) as real;
  }

  lemma SimilaritySymmetric(a: seq<Chunk>, b: seq<Chunk>)
    ensures Similarity(a, b) == Similarity(b, a)
  {
    DistanceSymmetric(a, b, |a|, |b|);
  }

  /**
   * The similarity lies between 0 and 1, and is 1 exactly when the lists are non-empty and agree chunk by chunk
   * after normalization; an empty list is similar to nothing, not even to itself.
   */
  lemma SimilarityRange(a: seq<Chunk>, b: seq<Chunk>)
    ensures 0.0 <= Similarity(a, b) <= 1.0
    ensures Similarity(a, b) == 1.0 <==> a != [] && SameText(a, b, |a|, |b|)
    ensures a == [] || b == [] ==> Similarity(a, b) == 0.0
  {
    if a != [] && b != [] {
      DistanceBounds(a, b, |a|, |b|);
      ZeroDistance(a, b, |a|, |b|);
      RatioRange(Distance(a, b, |a|, |b|), MaxLength(a, b));
    }
  }

  /**
   * What a cut-off of t tenths means: the cost of the cheapest edit, in halves, is at most a (10 - t)/5 share of
   * the longer list; in particular the lengths of the two lists differ by no more than that share.
   */
  lemma SimilarAtLeast(a: seq<Chunk>, b: seq<Chunk>, t: nat)
    requires 0 < t <= 10
    ensures Similarity(a, b) >= t as real / 10.0
            <==> a != [] && b != [] && 5 * Distance(a, b, |a|, |b|) <= (10 - t) * MaxLength(a, b)
    ensures Similarity(a, b) >= t as real / 10.0 ==>
              5 * (|a| - |b|) <= (10 - t) * MaxLength(a, b) && 5 * (|b| - |a|) <= (10 - t) * MaxLength(a, b)
  {
    if a != [] && b != [] {
      var m, d := MaxLength(a, b), Distance(a, b, |a|, |b|);
      RatioAtLeast(d, m, t);
      DistanceBounds(a, b, |a|, |b|);
    }
  }
}
