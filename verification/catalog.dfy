/**
 The sample catalog: the check of the requested round count against the number
 of samples found, and the swap shuffle that reorders the samples once per game.
 The random generator is replaced by the sequence of index pairs it draws.
 */
module Catalog {

  /** The shuffle performs this many swaps per sample. */
  const ShuffleSwapMult: nat := 3

  /** One shuffle step: the two indices drawn from the generator. */
  datatype Swap = Swap(a: int, b: int)

  /** A round count is accepted only when at least one round is asked for and
      there are enough samples to give every round its own. The count is read as
      a signed integer; it is only compared with the unsigned sample count once
      it is known to be positive, so the comparison is the mathematical one. */
  predicate ValidRoundCount(rounds: int, sampleCount: nat)
  {
    1 <= rounds <= sampleCount
  }

  /** Every drawn index lies in `[0, n)`, as the generator's uniform draw promises. */
  predicate DrawsInRange(draws: seq<Swap>, n: nat)
  {
    forall k :: 0 <= k < |draws| ==> 0 <= draws[k].a < n && 0 <= draws[k].b < n
  }

  /** No file name occurs twice (names in one folder are unique). */
  predicate NoDuplicates<T(==)>(s: seq<T>)
  {
    forall i, j :: 0 <= i < j < |s| ==> s[i] != s[j]
  }

  /** Exchanges positions `a` and `b` through a temporary, as the game does. */
  function SwapAt<T>(s: seq<T>, a: int, b: int): (r: seq<T>)
    requires 0 <= a < |s| && 0 <= b < |s|
    ensures |r| == |s|
    ensures r[a] == s[b] && r[b] == s[a]
    ensures forall k :: 0 <= k < |s| && k != a && k != b ==> r[k] == s[k]
    ensures multiset(r) == multiset(s)
  {
    var temp := s[a];
    s[a := s[b]][b := temp]
  }

  /** The list after performing the given swaps in order, first draw first. */
  function ApplySwaps<T>(s: seq<T>, draws: seq<Swap>): (r: seq<T>)
    requires DrawsInRange(draws, |s|)
    ensures |r| == |s|
    ensures multiset(r) == multiset(s)
  {
    if |draws| == 0 then s
    else
      var last := draws[|draws| - 1];
      SwapAt(ApplySwaps(s, draws[..|draws| - 1]), last.a, last.b)
  }

  /** The shuffle loop of the game: `3·N` swaps of two drawn indices. The result
      is a permutation of the input, and it is the list `ApplySwaps` describes. */
  method Shuffle(samples: seq<string>, draws: seq<Swap>) returns (shuffled: seq<string>)
    requires |draws| == ShuffleSwapMult * |samples|
    requires DrawsInRange(draws, |samples|)
    ensures shuffled == ApplySwaps(samples, draws)
    ensures |shuffled| == |samples|
    ensures multiset(shuffled) == multiset(samples)
  {
    shuffled := samples;
    var swapCount := |samples| * ShuffleSwapMult;
    var i := 0;
    while i < swapCount
      invariant 0 <= i <= |draws| == swapCount
      invariant shuffled == ApplySwaps(samples, draws[..i])
    {
      var a := draws[i].a;
      var b := draws[i].b;
      ApplySwapsStep(samples, draws, i);
      var temp := shuffled[a];
      shuffled := shuffled[a := shuffled[b]];
      shuffled := shuffled[b := temp];
      i := i + 1;
    }
    assert draws[..i] == draws;
  }

  /** Performing one more draw is one more swap on the list so far. */
  lemma {:induction false} ApplySwapsStep<T>(s: seq<T>, draws: seq<Swap>, i: nat)
    requires DrawsInRange(draws, |s|) && i < |draws|
    ensures DrawsInRange(draws[..i], |s|) && DrawsInRange(draws[..i + 1], |s|)
    ensures ApplySwaps(s, draws[..i + 1]) == SwapAt(ApplySwaps(s, draws[..i]), draws[i].a, draws[i].b)
  {
    var prefix := draws[..i + 1];
    assert prefix[..|prefix| - 1] == draws[..i];
    assert prefix[|prefix| - 1] == draws[i];
  }

  /** A list without duplicates holds each value at most once. */
  lemma {:induction false} NoDuplicatesMultiplicity<T>(s: seq<T>, x: T)
    requires NoDuplicates(s)
    ensures multiset(s)[x] <= 1
  {
    if |s| > 0 {
      assert s == [s[0]] + s[1..];
      NoDuplicatesMultiplicity(s[1..], x);
      if s[0] == x {
        assert x !in s[1..];
      }
    }
  }

  /** A value at two distinct positions occurs at least twice. */
  lemma TwoPositionsMultiplicity<T>(s: seq<T>, i: int, j: int)
    requires 0 <= i < j < |s| && s[i] == s[j]
    ensures multiset(s)[s[i]] >= 2
  {
    assert s == s[..i] + [s[i]] + s[i + 1..j] + [s[j]] + s[j + 1..];
  }

  /** Reordering without loss or duplication keeps a list free of duplicates. */
  lemma PermutationKeepsNoDuplicates<T>(s: seq<T>, r: seq<T>)
    requires NoDuplicates(s) && multiset(r) == multiset(s)
    ensures NoDuplicates(r)
  {
    forall i, j | 0 <= i < j < |r|
      ensures r[i] != r[j]
    {
      if r[i] == r[j] {
        TwoPositionsMultiplicity(r, i, j);
        NoDuplicatesMultiplicity(s, r[i]);
      }
    }
  }

  /** The shuffled catalog holds exactly the samples found: same length, every
      sample at least once, and no sample twice when the names were distinct. */
  lemma {:induction false} ShuffleIsPermutation(samples: seq<string>, draws: seq<Swap>)
    requires DrawsInRange(draws, |samples|)
    ensures |ApplySwaps(samples, draws)| == |samples|
    ensures forall x :: x in samples <==> x in ApplySwaps(samples, draws)
    ensures NoDuplicates(samples) ==> NoDuplicates(ApplySwaps(samples, draws))
  {
    var r := ApplySwaps(samples, draws);
    forall x
      ensures x in samples <==> x in r
    {
      assert x in samples <==> x in multiset(samples);
      assert x in r <==> x in multiset(r);
    }
    if NoDuplicates(samples) {
      PermutationKeepsNoDuplicates(samples, r);
    }
  }
}
