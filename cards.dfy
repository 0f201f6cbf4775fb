/** Cards, the order hands are sorted in, and the 52-card deck. */
module Cards {

  datatype Suit = Spades | Hearts | Clubs | Diamonds

  /** The suits in the order the deck is built. */
  const Suits: seq<Suit> := [Spades, Hearts, Clubs, Diamonds]

  /** Rank of the lowest value, '2', and of the highest, 'A'. */
  const LowRank: int := 2
  const AceRank: int := 14
  const KingRank: int := 13

  /** Sorting key of a suit: spades first, then hearts, clubs, diamonds. */
  function SuitOrder(s: Suit): (k: nat)
    ensures k < 4 && Suits[k] == s
  {
    match s
    case Spades => 0
    case Hearts => 1
    case Clubs => 2
    case Diamonds => 3
  }

  /** A card is identified by its suit and rank (2..10, J = 11, Q = 12, K = 13, A = 14). */
  datatype Card = Card(suit: Suit, rank: int)

  predicate IsCard(c: Card) {
    LowRank <= c.rank <= AceRank
  }

  /** The comparator hands are sorted with: suit order first, then rank descending. */
  function Compare(a: Card, b: Card): int {
    if a.suit != b.suit then SuitOrder(a.suit) - SuitOrder(b.suit) else b.rank - a.rank
  }

  /** The comparator is a total order on cards: antisymmetric, transitive and total. */
  lemma CompareIsTotalOrder(a: Card, b: Card, c: Card)
    ensures Compare(a, b) <= 0 && Compare(b, a) <= 0 ==> a == b
    ensures Compare(a, b) <= 0 || Compare(b, a) <= 0
    ensures Compare(a, b) <= 0 && Compare(b, c) <= 0 ==> Compare(a, c) <= 0
  {
    var _ := SuitOrder(a.suit);
    var _ := SuitOrder(b.suit);
    var _ := SuitOrder(c.suit);
  }

  predicate Sorted(h: seq<Card>) {
    forall i, j :: 0 <= i < j < |h| ==> Compare(h[i], h[j]) <= 0
  }

  predicate NoDup(s: seq<Card>) {
    forall i, j :: 0 <= i < j < |s| ==> s[i] != s[j]
  }

  /** A card no greater than the head of a sorted hand can go in front of it. */
  lemma SortedCons(c: Card, h: seq<Card>)
    requires Sorted(h) && forall x :: x in h ==> Compare(c, x) <= 0
    ensures Sorted([c] + h)
  {
    var r := [c] + h;
    forall i, j | 0 <= i < j < |r| ensures Compare(r[i], r[j]) <= 0 {
      if i == 0 {
        assert r[j] == h[j - 1];
      } else {
        assert r[i] == h[i - 1] && r[j] == h[j - 1];
      }
    }
  }

  /** A card no less than every card of a sorted hand can go behind it. */
  lemma SortedSnoc(h: seq<Card>, c: Card)
    requires Sorted(h) && forall x :: x in h ==> Compare(x, c) <= 0
    ensures Sorted(h + [c])
  {
    var r := h + [c];
    forall i, j | 0 <= i < j < |r| ensures Compare(r[i], r[j]) <= 0 {
      assert r[i] == h[i];
      if j < |h| {
        assert r[j] == h[j];
      }
    }
  }

  /** Inserting in front: a card no greater than the head of a sorted hand starts it. */
  lemma InsertFront(c: Card, h: seq<Card>)
    requires Sorted(h) && h != [] && Compare(c, h[0]) <= 0
    ensures Sorted([c] + h)
  {
    forall x | x in h ensures Compare(c, x) <= 0 {
      CompareIsTotalOrder(c, h[0], x);
    }
    SortedCons(c, h);
  }

  /** Inserting further on: the head stays in front of the sorted rest that received c. */
  lemma InsertBehind(c: Card, h: seq<Card>, rest: seq<Card>)
    requires Sorted(h) && h != [] && Compare(c, h[0]) > 0
    requires Sorted(rest) && multiset(rest) == multiset(h[1..]) + multiset{c}
    ensures Sorted([h[0]] + rest) && multiset([h[0]] + rest) == multiset(h) + multiset{c}
  {
    assert h == [h[0]] + h[1..];
    forall x | x in rest ensures Compare(h[0], x) <= 0 {
      assert x in multiset(rest);
      CompareIsTotalOrder(c, h[0], x);
    }
    SortedCons(h[0], rest);
  }

  /** Inserts c into a sorted hand. */
  function Insert(c: Card, h: seq<Card>): (r: seq<Card>)
    requires Sorted(h)
    ensures Sorted(r) && multiset(r) == multiset(h) + multiset{c}
  {
    if h == [] then [c]
    else if Compare(c, h[0]) <= 0 then
      InsertFront(c, h);
      [c] + h
    else
      var rest := Insert(c, h[1..]);
      InsertBehind(c, h, rest);
      [h[0]] + rest
  }

  /** The hand sort: a sorted permutation of its input. */
  function SortHand(h: seq<Card>): (r: seq<Card>)
    ensures Sorted(r) && multiset(r) == multiset(h)
  {
    if h == [] then []
    else
      assert h == h[..|h| - 1] + [h[|h| - 1]];
      Insert(h[|h| - 1], SortHand(h[..|h| - 1]))
  }

  /** A sorted permutation is unique, so any sort with this comparator, the library's
      included, returns SortHand's result. */
  lemma {:induction false} SortedPermutationUnique(a: seq<Card>, b: seq<Card>)
    requires Sorted(a) && Sorted(b) && multiset(a) == multiset(b)
    ensures a == b
  {
    assert |a| == |multiset(a)| == |multiset(b)| == |b|;
    if a != [] {
      assert a[0] in multiset(b) && b[0] in multiset(a);
      SortedHeadIsLeast(a, b[0]);
      SortedHeadIsLeast(b, a[0]);
      CompareIsTotalOrder(a[0], b[0], a[0]);
      SplitHead(a);
      SplitHead(b);
      SortedPermutationUnique(a[1..], b[1..]);
    }
  }

  lemma SplitHead(s: seq<Card>)
    requires s != []
    ensures s == [s[0]] + s[1..]
    ensures multiset(s[1..]) == multiset(s) - multiset{s[0]}
    ensures Sorted(s) ==> Sorted(s[1..])
  {
    assert s == [s[0]] + s[1..];
  }

  lemma SortedHeadIsLeast(s: seq<Card>, x: Card)
    requires Sorted(s) && x in s
    ensures Compare(s[0], x) <= 0
  {
    var k :| 0 <= k < |s| && s[k] == x;
    if k == 0 { CompareIsTotalOrder(x, x, x); }
  }

  /** The hand without every copy of c, the rest in order (Array.prototype.filter). */
  function Remove(h: seq<Card>, c: Card): (r: seq<Card>)
    ensures multiset(r) == multiset(h)[c := 0]
  {
    if h == [] then []
    else
      assert h == [h[0]] + h[1..];
      (if h[0] == c then [] else [h[0]]) + Remove(h[1..], c)
  }

  lemma {:induction false} RemoveKeepsSorted(h: seq<Card>, c: Card)
    requires Sorted(h)
    ensures Sorted(Remove(h, c))
  {
    if h != [] {
      RemoveKeepsSorted(h[1..], c);
      var rest := Remove(h[1..], c);
      forall x | x in rest ensures Compare(h[0], x) <= 0 {
        assert x in multiset(rest);
        assert x in multiset(h[1..]);
      }
    }
  }

  /** The deck as createDeck builds it: suit by suit, ranks 2 up to A. */
  function FullDeck(): seq<Card> {
    seq(52, i requires 0 <= i < 52 => Card(Suits[i / 13], i % 13 + 2))
  }

  /** The deck holds each of the 52 cards exactly once. */
  lemma FullDeckIsDeck()
    ensures |FullDeck()| == 52 && NoDup(FullDeck())
    ensures forall c :: c in FullDeck() <==> IsCard(c)
  {
    var d := FullDeck();
    forall c | IsCard(c) ensures c in d {
      var i := SuitOrder(c.suit) * 13 + c.rank - 2;
      assert i / 13 == SuitOrder(c.suit) && i % 13 == c.rank - 2;
      assert d[i] == c;
    }
    forall i, j | 0 <= i < j < 52 ensures d[i] != d[j] {
      if i / 13 == j / 13 {
        assert i % 13 != j % 13;
      } else {
        assert Suits[i / 13] != Suits[j / 13];
      }
    }
  }

  /** A multiset drawn from the deck holds each card at most once. */
  lemma DeckMultiplicity(c: Card)
    ensures multiset(FullDeck())[c] <= 1
    ensures multiset(FullDeck())[c] == 1 <==> IsCard(c)
  {
    FullDeckIsDeck();
    NoDupMultiplicity(FullDeck(), c);
  }

  lemma {:induction false} NoDupMultiplicity(s: seq<Card>, c: Card)
    requires NoDup(s)
    ensures multiset(s)[c] == if c in s then 1 else 0
  {
    if s != [] {
      assert s == [s[0]] + s[1..];
      NoDupMultiplicity(s[1..], c);
    }
  }

  /** createDeck: nested loops over SUITS and VALUES pushing one card each. */
  method CreateDeck() returns (deck: seq<Card>)
    ensures deck == FullDeck()
  {
    deck := [];
    for s := 0 to 4
      invariant deck == FullDeck()[..13 * s]
    {
      for v := 0 to 13
        invariant deck == FullDeck()[..13 * s + v]
      {
        assert (13 * s + v) / 13 == s && (13 * s + v) % 13 == v;
        assert FullDeck()[..13 * s + v + 1] == FullDeck()[..13 * s + v] + [FullDeck()[13 * s + v]];
        deck := deck + [Card(Suits[s], v + 2)];
      }
    }
  }
}
