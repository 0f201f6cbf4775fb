/** The Fisher-Yates shuffle, with the random draws passed in. */
module Shuffle {
  import opened Cards

  /** Math.floor(draw * n): the index a draw in [0, 1) picks among n entries. */
  function Pick(draw: real, n: nat): (j: nat)
    requires 0.0 <= draw < 1.0 && n > 0
    ensures j < n
  {
    assert 0.0 <= draw * n as real < n as real by {
      assert (1.0 - draw) * n as real > 0.0;
    }
    (draw * n as real).Floor
  }

  /** Entries i and j of s exchanged. */
  function Swap(s: seq<Card>, i: nat, j: nat): (r: seq<Card>)
    requires i < |s| && j < |s|
    ensures |r| == |s|
  {
    s[i := s[j]][j := s[i]]
  }

  /** The shuffle's passes from index i down to 1: pass i swaps entry i with entry
      floor(draws[i] * (i + 1)). */
  function ShuffleFrom(s: seq<Card>, draws: seq<real>, i: int): (r: seq<Card>)
    requires i < |s| && |draws| == |s|
    requires forall k :: 0 <= k < |draws| ==> 0.0 <= draws[k] < 1.0
    decreases i
  {
    if i <= 0 then s else ShuffleFrom(Swap(s, i, Pick(draws[i], i + 1)), draws, i - 1)
  }

  lemma SwapKeepsCards(s: seq<Card>, i: nat, j: nat)
    requires i < |s| && j < |s|
    ensures multiset(Swap(s, i, j)) == multiset(s)
  {
    if i != j {
      var t := s[i := s[j]];
      assert multiset(t) == multiset(s) - multiset{s[i]} + multiset{s[j]};
      assert multiset(t[j := s[i]]) == multiset(t) - multiset{t[j]} + multiset{s[i]};
    }
  }

  /** Every pass is a swap, so the shuffle is a permutation of the deck. */
  lemma {:induction false} ShufflePermutes(s: seq<Card>, draws: seq<real>, i: int)
    requires i < |s| && |draws| == |s|
    requires forall k :: 0 <= k < |draws| ==> 0.0 <= draws[k] < 1.0
    ensures |ShuffleFrom(s, draws, i)| == |s|
    ensures multiset(ShuffleFrom(s, draws, i)) == multiset(s)
    decreases i
  {
    if i > 0 {
      var j := Pick(draws[i], i + 1);
      SwapKeepsCards(s, i, j);
      ShufflePermutes(Swap(s, i, j), draws, i - 1);
    }
  }

  /** fisherYatesShuffle: walks i from the last index down to 1 and swaps entry i with
      entry floor(draws[i] * (i + 1)), in place on a copy of the deck. */
  method FisherYatesShuffle(deck: seq<Card>, draws: seq<real>) returns (shuffled: seq<Card>)
    requires |draws| == |deck|
    requires forall i :: 0 <= i < |draws| ==> 0.0 <= draws[i] < 1.0
    ensures shuffled == ShuffleFrom(deck, draws, |deck| - 1)
    ensures multiset(shuffled) == multiset(deck)
  {
    var a := new Card[|deck|](k requires 0 <= k < |deck| => deck[k]);
    assert a[..] == deck;
    var i := |deck| - 1;
    while i > 0
      invariant -1 <= i < |deck| && a.Length == |deck|
      invariant ShuffleFrom(a[..], draws, i) == ShuffleFrom(deck, draws, |deck| - 1)
    {
      var j := Pick(draws[i], i + 1);
      ghost var before := a[..];
      a[i], a[j] := a[j], a[i];
      assert a[..] == Swap(before, i, j);
      i := i - 1;
    }
    shuffled := a[..];
    ShufflePermutes(deck, draws, |deck| - 1);
  }
}
