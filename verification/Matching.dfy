/** A greedy one-to-one matching of positions with candidates, as postExtraction builds it for its known messages. */
module Matching {

  ghost predicate Distinct<T>(s: seq<T>) {
    forall i, j :: 0 <= i < j < |s| ==> s[i] != s[j]
  }

  ghost predicate Injective<C>(owner: map<nat, C>) {
    forall i, j :: i in owner && j in owner && i != j ==> owner[i] != owner[j]
  }

  /** The candidates that went to positions before n. */
  ghost function Claimed<C>(owner: map<nat, C>, n: nat): set<C> {
    set i | i in owner && i < n :: owner[i]
  }

  /** A position was left unknown only if every candidate of it went to an earlier one. */
  ghost predicate PassedOver<C>(candidates: seq<set<C>>, known: seq<bool>, owner: map<nat, C>)
    requires |known| <= |candidates|
  {
    forall i :: 0 <= i < |known| && !known[i] ==> candidates[i] <= Claimed(owner, i)
  }

  /**
   * The first |known| positions have been decided: the known ones own distinct candidates of theirs, and a position
   * is left unknown only if every candidate of it went to an earlier one.
   */
  ghost predicate Greedy<C>(candidates: seq<set<C>>, known: seq<bool>, owner: map<nat, C>)
    requires |known| <= |candidates|
  {
    && (forall i: nat :: i in owner <==> i < |known| && known[i])
    && Injective(owner)
    && (forall i :: i in owner ==> owner[i] in candidates[i])
    && PassedOver(candidates, known, owner)
  }

  /** All positions have been decided, by some choice of owners. */
  ghost predicate Matched<C(!new)>(candidates: seq<set<C>>, known: seq<bool>) {
    |known| == |candidates| && exists owner :: Greedy(candidates, known, owner)
  }

  /** How many positions are known. */
  function Count(known: seq<bool>): (n: nat)
    ensures n <= |known|
  {
    if known == [] then 0 else Count(known[..|known| - 1]) + if known[|known| - 1] then 1 else 0
  }

  /** A position that has a candidate which no earlier one has is known; one without any candidate is not. */
  lemma UncontestedIsKnown<C(!new)>(candidates: seq<set<C>>, known: seq<bool>, i: nat)
    requires Matched(candidates, known) && i < |candidates|
    ensures candidates[i] == {} ==> !known[i]
    ensures (exists c :: c in candidates[i] && forall j :: 0 <= j < i ==> c !in candidates[j]) ==> known[i]
  {
    var owner :| Greedy(candidates, known, owner);
    assert known[i] ==> i in owner && owner[i] in candidates[i];
    if !known[i] {
      forall c | c in candidates[i] ensures exists j :: 0 <= j < i && c in candidates[j] {
        assert c in Claimed(owner, i);
        var j :| j in owner && j < i && owner[j] == c;
        assert c in candidates[j];
      }
    }
  }

  lemma OneMoreOwner<C>(owner: map<nat, C>, n: nat, c: C)
    requires c !in owner.Values && Injective(owner) && forall i :: i in owner ==> i < n
    ensures var more := owner[n := c];
            && more.Values == owner.Values + {c} && Injective(more)
            && (forall i :: i in owner ==> more[i] == owner[i])
            && forall i: nat :: i <= n ==> Claimed(more, i) == Claimed(owner, i)
  {
    var more := owner[n := c];
    assert more[n] == c;
    assert forall i :: i in owner ==> more[i] == owner[i] && owner[i] in owner.Values;
    forall i: nat | i <= n ensures Claimed(more, i) == Claimed(owner, i) {
      assert forall k :: k < i ==> (k in more <==> k in owner);
    }
  }

  lemma GreedyOwner<C>(candidates: seq<set<C>>, known: seq<bool>, owner: map<nat, C>, c: C)
    requires |known| < |candidates| && Greedy(candidates, known, owner)
    requires c in candidates[|known|] && c !in owner.Values
    ensures Greedy(candidates, known + [true], owner[|known| := c])
    ensures owner[|known| := c].Values == owner.Values + {c}
    ensures Count(known + [true]) == Count(known) + 1
  {
    assert (known + [true])[..|known|] == known;
    OneMoreOwner(owner, |known|, c);
    assert PassedOver(candidates, known + [true], owner[|known| := c]);
  }

  lemma GreedyUnknown<C>(candidates: seq<set<C>>, known: seq<bool>, owner: map<nat, C>)
    requires |known| < |candidates| && Greedy(candidates, known, owner)
    requires candidates[|known|] <= owner.Values
    ensures Greedy(candidates, known + [false], owner)
    ensures Count(known + [false]) == Count(known)
  {
    assert (known + [false])[..|known|] == known;
    assert owner.Values <= Claimed(owner, |known|);
  }

  /** Counting the known positions tells whether all of them are known. */
  lemma {:induction false} AllKnownCount(known: seq<bool>)
    ensures Count(known) == |known| <==> forall i :: 0 <= i < |known| ==> known[i]
  {
    if known != [] {
      AllKnownCount(known[..|known| - 1]);
    }
  }
}
