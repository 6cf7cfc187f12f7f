/** What single edits cost, said in terms of the chunks alone. */
module EditWeights {
  import opened Chunking
  import opened Levenshtein

  /** The lists agree in the first i chunks, or up to one chunk k. */
  ghost predicate AgreeExcept(a: seq<Chunk>, b: seq<Chunk>, k: nat) {
    k < |a| == |b| && forall l :: 0 <= l < |a| && l != k ==> a[l].normPunct == b[l].normPunct
  }

  lemma {:induction false} ReplacingCosts(a: seq<Chunk>, b: seq<Chunk>, k: nat, i: nat)
    requires AgreeExcept(a, b, k) && i <= |a|
    ensures Distance(a, b, i, i)
            <= if i <= k || a[k].normPunct == b[k].normPunct then 0 else if a[k].norm == b[k].norm then 1 else 2
  {
    if i > 0 { ReplacingCosts(a, b, k, i - 1); }
  }

  lemma {:induction false} CheapScripts(script: Script, a: seq<Chunk>, b: seq<Chunk>, i: nat, j: nat)
    requires i <= |a| && j <= |b| && Edits(script, i, j)
    ensures Cost(script, a, b, i, j) >= i - j && Cost(script, a, b, i, j) >= j - i
    ensures i == j && Cost(script, a, b, i, j) <= 1 ==>
              forall l :: 0 <= l < i ==> a[l].normPunct == b[l].normPunct || a[l].norm == b[l].norm
  {
    match script
    case Begin =>
    case Replace(before) => CheapScripts(before, a, b, i - 1, j - 1);
    case Delete(before) => CheapScripts(before, a, b, i - 1, j);
    case Insert(before) => CheapScripts(before, a, b, i, j - 1);
  }

  /** Lists of equal length at a distance of half a chunk or less agree chunk by chunk, up to punctuation. */
  lemma NearlyEqual(a: seq<Chunk>, b: seq<Chunk>, i: nat)
    requires i <= |a| && i <= |b| && Distance(a, b, i, i) <= 1
    ensures forall l :: 0 <= l < i ==> a[l].normPunct == b[l].normPunct || a[l].norm == b[l].norm
  {
    CheapScripts(CheapestScript(a, b, i, i), a, b, i, i);
  }

  /** One chunk that is replaced costs a whole chunk, or half of one if only its punctuation is different. */
  lemma ReplacedChunk(a: seq<Chunk>, b: seq<Chunk>, k: nat)
    requires AgreeExcept(a, b, k) && a[k].normPunct != b[k].normPunct
    ensures Distance(a, b, |a|, |b|) == if a[k].norm == b[k].norm then 1 else 2
  {
    ReplacingCosts(a, b, k, |a|);
    ZeroDistance(a, b, |a|, |b|);
    if Distance(a, b, |a|, |b|) <= 1 { NearlyEqual(a, b, |a|); }
  }

  /** How many of the first i chunks are words. */
  function WordCount(a: seq<Chunk>, i: nat): (n: nat)
    requires i <= |a|
    ensures n <= i
  {
    if i == 0 then 0 else WordCount(a, i - 1) + IsWord(a[i - 1])
  }

  /** Chunks with the same text are both words or both punctuation. */
  ghost predicate Coherent(a: seq<Chunk>, b: seq<Chunk>) {
    forall x, y :: x in a && y in b && x.normPunct == y.normPunct ==> (x.norm == "" <==> y.norm == "")
  }

  function IsWord(c: Chunk): nat {
    if c.norm == "" then 0 else 1
  }

  lemma {:induction false} WordsCostScripts(script: Script, a: seq<Chunk>, b: seq<Chunk>, i: nat, j: nat)
    requires i <= |a| && j <= |b| && Edits(script, i, j) && Coherent(a, b)
    ensures Cost(script, a, b, i, j) >= 2 * (WordCount(a, i) - WordCount(b, j))
    ensures Cost(script, a, b, i, j) >= 2 * (WordCount(b, j) - WordCount(a, i))
  {
    match script
    case Begin =>
    case Replace(before) =>
      WordsCostScripts(before, a, b, i - 1, j - 1);
      assert a[i - 1] in a && b[j - 1] in b;
    case Delete(before) => WordsCostScripts(before, a, b, i - 1, j);
    case Insert(before) => WordsCostScripts(before, a, b, i, j - 1);
  }

  /** Every word that one list has more than the other costs a whole chunk. */
  lemma WordsCost(a: seq<Chunk>, b: seq<Chunk>, i: nat, j: nat)
    requires i <= |a| && j <= |b| && Coherent(a, b)
    ensures Distance(a, b, i, j) >= 2 * (WordCount(a, i) - WordCount(b, j))
    ensures Distance(a, b, i, j) >= 2 * (WordCount(b, j) - WordCount(a, i))
  {
    WordsCostScripts(CheapestScript(a, b, i, j), a, b, i, j);
  }

  /** a is b with one more chunk at k. */
  ghost predicate OneMoreAt(a: seq<Chunk>, b: seq<Chunk>, k: nat) {
    && k < |a| == |b| + 1
    && (forall l :: 0 <= l < k ==> a[l].normPunct == b[l].normPunct)
    && (forall l :: k <= l < |b| ==> a[l + 1].normPunct == b[l].normPunct)
  }

  lemma {:induction false} InsertingCosts(a: seq<Chunk>, b: seq<Chunk>, k: nat, i: nat, j: nat)
    requires OneMoreAt(a, b, k) && 0 < k && i <= |a| && j <= |b|
    requires (i == j && j <= k) || (i == j + 1 && j >= k)
    ensures Distance(a, b, i, j) <= if i == j then 0 else GapCost(a[k])
  {
    if i == k + 1 && j == k {
      InsertingCosts(a, b, k, i - 1, j);
    } else if j > 0 {
      InsertingCosts(a, b, k, i - 1, j - 1);
    }
  }

  lemma {:induction false} OneMoreWord(a: seq<Chunk>, b: seq<Chunk>, k: nat, j: nat)
    requires OneMoreAt(a, b, k) && Coherent(a, b) && j <= |b|
    ensures j <= k ==> WordCount(a, j) == WordCount(b, j)
    ensures j >= k ==> WordCount(a, j + 1) == WordCount(b, j) + IsWord(a[k])
  {
    if j > 0 {
      OneMoreWord(a, b, k, j - 1);
      assert b[j - 1] in b && a[j - 1] in a && a[j] in a;
    }
  }

  lemma InsertingCostsNoMore(a: seq<Chunk>, b: seq<Chunk>, k: nat)
    requires OneMoreAt(a, b, k) && 0 < k
    ensures Distance(a, b, |a|, |b|) <= GapCost(a[k])
  {
    InsertingCosts(a, b, k, |a|, |b|);
  }

  lemma InsertingCostsNoLess(a: seq<Chunk>, b: seq<Chunk>, k: nat)
    requires OneMoreAt(a, b, k) && Coherent(a, b)
    ensures Distance(a, b, |a|, |b|) >= 1 + IsWord(a[k])
  {
    var script := CheapestScript(a, b, |a|, |b|);
    CheapScripts(script, a, b, |a|, |b|);
    WordsCostScripts(script, a, b, |a|, |b|);
    OneMoreWord(a, b, k, |b|);
  }

  lemma Between(d: nat, c: Chunk)
    requires 1 + IsWord(c) <= d <= GapCost(c)
    ensures d == if c.norm == "" then 1 else 2
  {
  }

  /** One more chunk that is not the first costs a whole chunk if it is a word, and else half of one. */
  lemma AdditionalChunk(a: seq<Chunk>, b: seq<Chunk>, k: nat)
    requires OneMoreAt(a, b, k) && 0 < k && Coherent(a, b)
    ensures Distance(a, b, |a|, |b|) == if a[k].norm == "" then 1 else 2
  {
    InsertingCostsNoMore(a, b, k);
    InsertingCostsNoLess(a, b, k);
    Between(Distance(a, b, |a|, |b|), a[k]);
  }
}
