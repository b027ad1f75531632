/**
 * Ranking of catalog entries by similarity score: the index arithmetic behind
 * `np.argsort(-sims)` and `np.argpartition(-sims, k - 1)[:k]` in
 * knowledge_base.py. Scores are abstract reals, one per stored entry; an
 * index `i` stands for entry `i` of the index's parallel lists.
 */
module Ranking {

  /** The identity arrangement 0, 1, ..., n - 1 that numpy's arg-functions start from. */
  function Iota(n: nat): (r: seq<nat>)
    ensures |r| == n
    ensures forall i :: 0 <= i < n ==> r[i] == i
  {
    if n == 0 then [] else Iota(n - 1) + [n - 1]
  }

  predicate InRange(sims: seq<real>, s: seq<nat>) {
    forall i :: 0 <= i < |s| ==> s[i] < |sims|
  }

  predicate Distinct(s: seq<nat>) {
    forall i, j :: 0 <= i < j < |s| ==> s[i] != s[j]
  }

  /** The scores along `s` never go up. */
  predicate NonIncreasing(sims: seq<real>, s: seq<nat>)
    requires InRange(sims, s)
  {
    forall i, j :: 0 <= i < j < |s| ==> sims[s[i]] >= sims[s[j]]
  }

  /** No entry left out of `s` scores higher than an entry in `s`. */
  predicate NoneOmittedOutscores(sims: seq<real>, s: seq<nat>)
    requires InRange(sims, s)
  {
    forall x, i :: 0 <= x < |sims| && x !in s && 0 <= i < |s| ==> sims[x] <= sims[s[i]]
  }

  /** `s` holds `k` distinct entries, and they are k best ones (in any order). */
  predicate IsTopKSelection(sims: seq<real>, k: nat, s: seq<nat>) {
    |s| == k && InRange(sims, s) && Distinct(s) && NoneOmittedOutscores(sims, s)
  }

  /** A k best selection listed from the highest score down; ties in any order. */
  predicate IsTopKRanking(sims: seq<real>, k: nat, s: seq<nat>) {
    IsTopKSelection(sims, k, s) && NonIncreasing(sims, s)
  }

  /** `s` is an arrangement of all the indices 0 .. n - 1. */
  predicate IsPermutation(s: seq<nat>, n: nat) {
    multiset(s) == multiset(Iota(n))
  }

  // ---------------------------------------------------------------------------
  // Facts about distinct sequences and permutations
  // ---------------------------------------------------------------------------

  lemma {:induction false} DistinctCountsAtMostOne(s: seq<nat>, x: nat)
    requires Distinct(s)
    ensures multiset(s)[x] <= 1
  {
    if s != [] {
      assert s == [s[0]] + s[1..];
      assert x == s[0] ==> x !in s[1..];
      DistinctCountsAtMostOne(s[1..], x);
    }
  }

  lemma RepeatCountsTwice(s: seq<nat>, i: nat, j: nat)
    requires i < j < |s| && s[i] == s[j]
    ensures multiset(s)[s[i]] >= 2
  {
    assert s == s[..j] + s[j..];
    assert s[i] in s[..j];
    assert s[j] in s[j..];
  }

  /** A sequence is distinct exactly when no value occurs twice in its multiset. */
  lemma DistinctIffCountsAtMostOne(s: seq<nat>)
    ensures Distinct(s) <==> forall x: nat :: multiset(s)[x] <= 1
  {
    if Distinct(s) {
      forall x: nat ensures multiset(s)[x] <= 1 {
        DistinctCountsAtMostOne(s, x);
      }
    }
    if forall x: nat :: multiset(s)[x] <= 1 {
      forall i, j | 0 <= i < j < |s| ensures s[i] != s[j] {
        if s[i] == s[j] {
          RepeatCountsTwice(s, i, j);
          assert false;
        }
      }
    }
  }

  /** Rearranging a sequence keeps it distinct. */
  lemma RearrangedDistinct(s: seq<nat>, t: seq<nat>)
    requires multiset(s) == multiset(t) && Distinct(s)
    ensures Distinct(t)
  {
    DistinctIffCountsAtMostOne(s);
    DistinctIffCountsAtMostOne(t);
  }

  /** A permutation of 0 .. n - 1 lists every index below n exactly once. */
  lemma PermutationFacts(s: seq<nat>, n: nat)
    requires IsPermutation(s, n)
    ensures |s| == n
    ensures Distinct(s)
    ensures forall i :: 0 <= i < |s| ==> s[i] < n
    ensures forall x :: 0 <= x < n ==> x in s
  {
    calc {
      |s|;
      |multiset(s)|;
      |multiset(Iota(n))|;
      n;
    }
    RearrangedDistinct(Iota(n), s);
    forall i | 0 <= i < |s| ensures s[i] < n {
      assert s[i] in multiset(Iota(n));
    }
    forall x | 0 <= x < n ensures x in s {
      assert Iota(n)[x] == x;
      assert x in multiset(Iota(n));
    }
  }

  /**
   * The front `k` of a permutation that the selection loop has arranged
   * (sorted front, nothing behind it scoring higher) is a top-k ranking.
   */
  lemma PrefixIsRanking(sims: seq<real>, s: seq<nat>, k: nat)
    requires InRange(sims, s) && IsPermutation(s, |sims|) && SelectedFront(sims, s, k)
    ensures IsTopKRanking(sims, k, s[..k])
  {
    PermutationFacts(s, |sims|);
    var r := s[..k];
    forall x, i | 0 <= x < |sims| && x !in r && 0 <= i < |r| ensures sims[x] <= sims[r[i]] {
      assert x in s;
      var q :| 0 <= q < |s| && s[q] == x;
    }
  }

  /** Ordering a top-k selection by score gives a top-k ranking. */
  lemma SortedSelectionIsRanking(sims: seq<real>, k: nat, s: seq<nat>, t: seq<nat>)
    requires IsTopKSelection(sims, k, s)
    requires multiset(t) == multiset(s)
    requires InRange(sims, t) && NonIncreasing(sims, t)
    ensures IsTopKRanking(sims, k, t)
  {
    assert |t| == |multiset(t)| == |multiset(s)| == |s|;
    RearrangedDistinct(s, t);
    forall x, i | 0 <= x < |sims| && x !in t && 0 <= i < |t| ensures sims[x] <= sims[t[i]] {
      assert x !in multiset(s);
      assert t[i] in multiset(s);
      var j :| 0 <= j < |s| && s[j] == t[i];
    }
  }

  // ---------------------------------------------------------------------------
  // In-place selection on an array of indices
  // ---------------------------------------------------------------------------

  /** Front `i` of `s` is sorted by descending score and no later entry beats it. */
  predicate SelectedFront(sims: seq<real>, s: seq<nat>, i: nat)
    requires InRange(sims, s)
  {
    && i <= |s|
    && (forall p, q :: 0 <= p < q < i ==> sims[s[p]] >= sims[s[q]])
    && (forall p, q :: 0 <= p < i <= q < |s| ==> sims[s[p]] >= sims[s[q]])
  }

  /** Swapping the best of `s[i..]` into position `i` grows the selected front by one. */
  lemma SwapExtendsFront(sims: seq<real>, s: seq<nat>, i: nat, best: nat)
    requires InRange(sims, s) && SelectedFront(sims, s, i)
    requires i <= best < |s|
    requires forall q :: i <= q < |s| ==> sims[s[q]] <= sims[s[best]]
    ensures InRange(sims, s[i := s[best]][best := s[i]])
    ensures SelectedFront(sims, s[i := s[best]][best := s[i]], i + 1)
    ensures multiset(s[i := s[best]][best := s[i]]) == multiset(s)
  {
  }

  /** The position in `a[i..]` of a highest-scoring index. */
  method IndexOfBest(a: array<nat>, sims: seq<real>, i: nat) returns (best: nat)
    requires i < a.Length && InRange(sims, a[..])
    ensures i <= best < a.Length
    ensures forall q :: i <= q < a.Length ==> sims[a[q]] <= sims[a[best]]
  {
    best := i;
    var j := i + 1;
    while j < a.Length
      invariant i <= best < j <= a.Length
      invariant forall q :: i <= q < j ==> sims[a[q]] <= sims[a[best]]
    {
      if sims[a[j]] > sims[a[best]] {
        best := j;
      }
      j := j + 1;
    }
  }

  /**
   * Moves the `k` best-scoring indices to the front of `a`, highest first,
   * by repeatedly swapping the best of the rest into place. With `k == a.Length`
   * this sorts all of `a` by descending score.
   */
  method SelectBest(a: array<nat>, sims: seq<real>, k: nat)
    requires k <= a.Length && InRange(sims, a[..])
    modifies a
    ensures multiset(a[..]) == multiset(old(a[..]))
    ensures InRange(sims, a[..]) && SelectedFront(sims, a[..], k)
  {
    var i := 0;
    while i < k
      invariant 0 <= i <= k
      invariant multiset(a[..]) == multiset(old(a[..]))
      invariant InRange(sims, a[..]) && SelectedFront(sims, a[..], i)
    {
      var best := IndexOfBest(a, sims, i);
      SwapExtendsFront(sims, a[..], i, best);
      a[i], a[best] := a[best], a[i];
      i := i + 1;
    }
  }

  /** `np.argsort(-sims)`: every index, from the highest score down. */
  method ArgSort(sims: seq<real>) returns (order: seq<nat>)
    ensures IsPermutation(order, |sims|)
    ensures IsTopKRanking(sims, |sims|, order)
  {
    var a := new nat[|sims|](i => i);
    assert a[..] == Iota(|sims|);
    SelectBest(a, sims, a.Length);
    order := a[..];
    PrefixIsRanking(sims, order, |sims|);
    assert order[..|sims|] == order;
  }

  /** `np.argpartition(-sims, k - 1)[:k]`: the `k` best indices, in no promised order. */
  method ArgPartition(sims: seq<real>, k: nat) returns (part: seq<nat>)
    requires k <= |sims|
    ensures IsTopKSelection(sims, k, part)
  {
    var a := new nat[|sims|](i => i);
    assert a[..] == Iota(|sims|);
    SelectBest(a, sims, k);
    PrefixIsRanking(sims, a[..], k);
    part := a[..k];
  }

  /** `idx[np.argsort(-sims[idx])]`: the given indices, from the highest score down. */
  method SortByScore(sims: seq<real>, idx: seq<nat>) returns (sorted: seq<nat>)
    requires InRange(sims, idx)
    ensures multiset(sorted) == multiset(idx)
    ensures InRange(sims, sorted) && NonIncreasing(sims, sorted)
  {
    var a := new nat[|idx|](i requires 0 <= i < |idx| => idx[i]);
    assert a[..] == idx;
    SelectBest(a, sims, a.Length);
    sorted := a[..];
  }

  // ---------------------------------------------------------------------------
  // Partial selection agrees with "sort all, take k"
  // ---------------------------------------------------------------------------

  function Elems(s: seq<nat>): set<nat> {
    set x | x in s
  }

  lemma {:induction false} DistinctCard(s: seq<nat>)
    requires Distinct(s)
    ensures |Elems(s)| == |s|
  {
    if s != [] {
      var init := s[..|s| - 1];
      DistinctCard(init);
      assert s == init + [s[|s| - 1]];
      assert Elems(s) == Elems(init) + {s[|s| - 1]};
      assert s[|s| - 1] !in init;
    }
  }

  lemma {:induction false} CardAtMostLength(s: seq<nat>)
    ensures |Elems(s)| <= |s|
  {
    if s != [] {
      var init := s[..|s| - 1];
      CardAtMostLength(init);
      assert s == init + [s[|s| - 1]];
      assert Elems(s) == Elems(init) + {s[|s| - 1]};
    }
  }

  /**
   * If position `i` of `r1` scored above position `i` of `r2`, the entries
   * r1[0..i] (all scoring above r2[i]) would all sit among r2's first `i`.
   */
  lemma AboveWithinFront(sims: seq<real>, k: nat, r1: seq<nat>, r2: seq<nat>, i: nat)
    requires IsTopKRanking(sims, k, r1) && IsTopKRanking(sims, k, r2) && i < k
    requires sims[r2[i]] < sims[r1[i]]
    ensures Elems(r1[..i + 1]) <= Elems(r2[..i])
  {
  }

  /** Position `i` of a top-k ranking never scores above position `i` of another. */
  lemma RankingPositionAtMost(sims: seq<real>, k: nat, r1: seq<nat>, r2: seq<nat>, i: nat)
    requires IsTopKRanking(sims, k, r1) && IsTopKRanking(sims, k, r2) && i < k
    ensures sims[r1[i]] <= sims[r2[i]]
  {
    if sims[r2[i]] < sims[r1[i]] {
      AboveWithinFront(sims, k, r1, r2, i);
      assert Distinct(r1[..i + 1]);
      DistinctCard(r1[..i + 1]);
      CardAtMostLength(r2[..i]);
      SubsetCard(Elems(r1[..i + 1]), Elems(r2[..i]));
      assert false;
    }
  }

  lemma SubsetCard(a: set<nat>, b: set<nat>)
    requires a <= b
    ensures |a| <= |b|
  {
    assert b == a + (b - a);
  }

  /** Any two top-k rankings of the same scores show the same scores, position by position. */
  lemma RankingScoresUnique(sims: seq<real>, k: nat, r1: seq<nat>, r2: seq<nat>)
    requires IsTopKRanking(sims, k, r1) && IsTopKRanking(sims, k, r2)
    ensures forall i :: 0 <= i < k ==> sims[r1[i]] == sims[r2[i]]
  {
    forall i | 0 <= i < k ensures sims[r1[i]] == sims[r2[i]] {
      RankingPositionAtMost(sims, k, r1, r2, i);
      RankingPositionAtMost(sims, k, r2, r1, i);
    }
  }

  /**
   * The partial-selection path agrees with sorting everything and taking the
   * first `k`: the same scores in the same positions.
   */
  lemma PartialAgreesWithFullSort(sims: seq<real>, k: nat, full: seq<nat>, part: seq<nat>)
    requires |full| == |sims| && InRange(sims, full) && IsPermutation(full, |sims|)
    requires NonIncreasing(sims, full)
    requires k <= |sims| && IsTopKRanking(sims, k, part)
    ensures forall i :: 0 <= i < k ==> sims[part[i]] == sims[full[i]]
  {
    PermutationFacts(full, |sims|);
    PrefixIsRanking(sims, full, k);
    RankingScoresUnique(sims, k, part, full[..k]);
  }

  /** Without tied scores the ranking is unique: both paths return the same indices. */
  lemma RankingUniqueWithoutTies(sims: seq<real>, k: nat, r1: seq<nat>, r2: seq<nat>)
    requires forall x, y :: 0 <= x < |sims| && 0 <= y < |sims| && sims[x] == sims[y] ==> x == y
    requires IsTopKRanking(sims, k, r1) && IsTopKRanking(sims, k, r2)
    ensures r1 == r2
  {
    RankingScoresUnique(sims, k, r1, r2);
  }
}
