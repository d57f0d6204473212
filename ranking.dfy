/**
 * `tf.nn.top_k(logits, k)[1]` for one image: the indices of the k
 * highest-scoring classes, best first, equal scores ranked by lower index.
 * Scores are an abstract totally ordered value (`int`).
 */
module Ranking {

  import opened Wrappers

  /** Class `i` ranks above class `j`: a higher score, or an equal score and a lower index. */
  predicate Outranks(scores: seq<int>, i: nat, j: nat)
    requires i < |scores| && j < |scores|
  {
    scores[i] > scores[j] || (scores[i] == scores[j] && i < j)
  }

  /**
   * What top-k promises: k class indices, each ranking above the ones after
   * it (so all distinct and scores non-increasing), and each ranking above
   * every class left out.
   */
  predicate IsTopK(scores: seq<int>, k: nat, r: seq<nat>)
  {
    && |r| == k
    && (forall i :: 0 <= i < k ==> r[i] < |scores|)
    && (forall i, j :: 0 <= i < j < k ==> Outranks(scores, r[i], r[j]))
    && (forall i, c :: 0 <= i < k && 0 <= c < |scores| && c !in r ==> Outranks(scores, r[i], c))
  }

  /** The best-ranked class below `n` that is not in `chosen`, if any is left. */
  function BestBelow(scores: seq<int>, chosen: seq<nat>, n: nat): (r: Option<nat>)
    requires n <= |scores|
    ensures r.None? ==> forall c :: 0 <= c < n ==> c in chosen
    ensures r.Some? ==> r.value < n && r.value !in chosen
    ensures r.Some? ==> forall c :: 0 <= c < n && c !in chosen && c != r.value ==> Outranks(scores, r.value, c)
  {
    if n == 0 then None
    else
      var rest := BestBelow(scores, chosen, n - 1);
      if n - 1 in chosen then rest
      else if rest.None? then Some(n - 1)
      else if scores[n - 1] > scores[rest.value] then Some(n - 1)
      else rest
  }

  /** Pigeonhole: fewer than n indices cannot cover every class below n. */
  lemma {:induction false} Pigeonhole(p: seq<nat>, n: nat)
    requires forall c :: 0 <= c < n ==> c in p
    ensures |p| >= n
  {
    if n > 0 {
      assert n - 1 in p;
      var j :| 0 <= j < |p| && p[j] == n - 1;
      var rest := p[..j] + p[j + 1..];
      forall c | 0 <= c < n - 1
        ensures c in rest
      {
        assert c in p;
        var i :| 0 <= i < |p| && p[i] == c;
        if i < j {
          assert rest[i] == c;
        } else {
          assert rest[i - 1] == c;
        }
      }
      Pigeonhole(rest, n - 1);
    }
  }

  /** The k best classes, chosen one at a time: each pick is the best of those not yet picked. */
  function TopK(scores: seq<int>, k: nat): (r: seq<nat>)
    requires k <= |scores|
    ensures IsTopK(scores, k, r)
  {
    if k == 0 then []
    else
      var p := TopK(scores, k - 1);
      var b := BestBelow(scores, p, |scores|);
      if b.None? then
        Pigeonhole(p, |scores|);
        assert false;
        []
      else
        p + [b.value]
  }

  /** Top-k is determined by its specification: two answers meeting it are the same answer. */
  lemma TopKUnique(scores: seq<int>, k: nat, r1: seq<nat>, r2: seq<nat>)
    requires IsTopK(scores, k, r1) && IsTopK(scores, k, r2)
    ensures r1 == r2
  {
    AgreeBelow(scores, k, r1, r2, k);
    assert r1 == r1[..k] && r2 == r2[..k];
  }

  lemma {:induction false} AgreeBelow(scores: seq<int>, k: nat, r1: seq<nat>, r2: seq<nat>, i: nat)
    requires IsTopK(scores, k, r1) && IsTopK(scores, k, r2) && i <= k
    ensures r1[..i] == r2[..i]
  {
    if i > 0 {
      AgreeBelow(scores, k, r1, r2, i - 1);
      var a, b := r1[i - 1], r2[i - 1];
      if a != b {
        RanksAboveOther(scores, k, r1, r2, i - 1);
        RanksAboveOther(scores, k, r2, r1, i - 1);
        assert false;
      }
      assert r1[..i] == r1[..i - 1] + [a] && r2[..i] == r2[..i - 1] + [b];
    }
  }

  /** Where two top-k answers first differ, each one's pick ranks above the other's. */
  lemma RanksAboveOther(scores: seq<int>, k: nat, r1: seq<nat>, r2: seq<nat>, i: nat)
    requires IsTopK(scores, k, r1) && IsTopK(scores, k, r2)
    requires i < k && r1[..i] == r2[..i] && r1[i] != r2[i]
    ensures Outranks(scores, r1[i], r2[i])
  {
    var b := r2[i];
    if b in r1 {
      var j :| 0 <= j < k && r1[j] == b;
    }
  }

  /** Top-3 of one image: three distinct classes, best first, and no class left out scores higher than the third. */
  lemma Top3Properties(scores: seq<int>)
    requires |scores| >= 3
    ensures var r := TopK(scores, 3);
      && |r| == 3
      && r[0] < |scores| && r[1] < |scores| && r[2] < |scores|
      && r[0] != r[1] && r[1] != r[2] && r[0] != r[2]
      && scores[r[0]] >= scores[r[1]] >= scores[r[2]]
      && forall c :: 0 <= c < |scores| && c !in r ==> scores[c] <= scores[r[2]]
  {
    var r := TopK(scores, 3);
    assert Outranks(scores, r[0], r[1]) && Outranks(scores, r[1], r[2]) && Outranks(scores, r[0], r[2]);
  }
}
