/** The bots' policy: which card botTurn plays, and the move itself. */
module Bot {
  import opened Cards
  import opened Shuffle
  import opened State
  import opened Rules
  import opened Properties
  import opened Engine

  /** The suits of a hand in order of first appearance: the keys of suitsInHand. */
  function SuitsOf(hand: seq<Card>): (r: seq<Suit>)
    ensures forall s :: s in r <==> exists i :: 0 <= i < |hand| && hand[i].suit == s
    ensures forall a, b :: 0 <= a < b < |r| ==> r[a] != r[b]
  {
    if hand == [] then []
    else
      var front := hand[..|hand| - 1];
      assert forall i :: 0 <= i < |front| ==> front[i] == hand[i];
      var r := SuitsOf(front);
      var s := hand[|hand| - 1].suit;
      if s in r then r else r + [s]
  }

  /** The cards of one suit in hand order: suitsInHand[s], and the filter on the lead suit. */
  function OfSuit(hand: seq<Card>, s: Suit): (r: seq<Card>)
    ensures forall c :: c in r <==> c in hand && c.suit == s
    ensures forall j :: 0 <= j < |r| ==> r[j].suit == s
  {
    if hand == [] then []
    else
      var last := hand[|hand| - 1];
      assert hand == hand[..|hand| - 1] + [last];
      OfSuit(hand[..|hand| - 1], s) + if last.suit == s then [last] else []
  }

  /** The cards of a suit picked out of a sorted hand come in the same order. */
  lemma {:induction false} OfSuitSorted(hand: seq<Card>, s: Suit)
    requires Sorted(hand)
    ensures Sorted(OfSuit(hand, s))
  {
    if hand != [] {
      var front := hand[..|hand| - 1];
      var last := hand[|hand| - 1];
      assert Sorted(front);
      OfSuitSorted(front, s);
      var f := OfSuit(front, s);
      assert OfSuit(hand, s) == f + if last.suit == s then [last] else [];
      if last.suit == s {
        forall x | x in f ensures Compare(x, last) <= 0 {
          var i :| 0 <= i < |front| && front[i] == x;
          assert hand[i] == x;
        }
        SortedSnoc(f, last);
      } else {
        assert OfSuit(hand, s) == f;
      }
    }
  }

  /** A suit is held exactly when its cards are not empty. */
  lemma OfSuitEmpty(hand: seq<Card>, s: Suit)
    ensures OfSuit(hand, s) == [] <==> s !in SuitsOf(hand)
  {
    var r := OfSuit(hand, s);
    if r != [] {
      assert r[0] in r;
    }
    if s in SuitsOf(hand) {
      var i :| 0 <= i < |hand| && hand[i].suit == s;
      assert hand[i] in r;
    }
  }

  /** The suits not in `avoid`, in order: validSuits. */
  function Allowed(suits: seq<Suit>, avoid: seq<Suit>): (r: seq<Suit>)
    ensures forall s :: s in r <==> s in suits && s !in avoid
  {
    if suits == [] then []
    else (if suits[0] in avoid then [] else [suits[0]]) + Allowed(suits[1..], avoid)
  }

  /** validSuits is non-empty exactly when some held suit is not avoided. */
  lemma AllowedWhenSomeFree(hand: seq<Card>, avoid: seq<Suit>)
    ensures |Allowed(SuitsOf(hand), avoid)| > 0 <==> exists i :: 0 <= i < |hand| && hand[i].suit !in avoid
  {
    var valid := Allowed(SuitsOf(hand), avoid);
    if exists i :: 0 <= i < |hand| && hand[i].suit !in avoid {
      var i :| 0 <= i < |hand| && hand[i].suit !in avoid;
      assert hand[i].suit in valid;
    }
    if |valid| > 0 {
      assert valid[0] in valid;
    }
  }

  /** suitsToChooseFrom: the held suits the bot does not avoid, or every held suit when it
      avoids them all. */
  function LeadSuits(hand: seq<Card>, avoid: seq<Suit>): (r: seq<Suit>)
    ensures |hand| > 0 ==> |r| > 0
    ensures forall s :: s in r ==> s in SuitsOf(hand)
    ensures (exists i :: 0 <= i < |hand| && hand[i].suit !in avoid) ==> forall s :: s in r ==> s !in avoid
    ensures forall s :: s in r <==>
              s in SuitsOf(hand) && (s !in avoid || forall i :: 0 <= i < |hand| ==> hand[i].suit in avoid)
  {
    assert |hand| > 0 ==> hand[0].suit in SuitsOf(hand);
    AllowedWhenSomeFree(hand, avoid);
    var valid := Allowed(SuitsOf(hand), avoid);
    if |valid| > 0 then valid else SuitsOf(hand)
  }

  /** The suit the smart lead draws among suitsToChooseFrom. It is held, and it is not
      avoided whenever the hand holds a suit that is not avoided. */
  function ChosenSuit(hand: seq<Card>, avoid: seq<Suit>, suitDraw: real): (s: Suit)
    requires |hand| > 0 && 0.0 <= suitDraw < 1.0
    ensures s in SuitsOf(hand)
    ensures (exists i :: 0 <= i < |hand| && hand[i].suit !in avoid) ==> s !in avoid
  {
    var choices := LeadSuits(hand, avoid);
    choices[Pick(suitDraw, |choices|)]
  }

  /** hasPowerCard: the cards hold a king or an ace. */
  predicate HasPowerCard(cards: seq<Card>) {
    exists j :: 0 <= j < |cards| && cards[j].rank >= KingRank
  }

  /** The card the smart lead takes from the chosen suit's cards: the first when they hold a
      king or an ace, otherwise the first when the coin draw exceeds 0.3 and the last when not. */
  function PlayFromSuit(cards: seq<Card>, coinDraw: real): (c: Card)
    requires |cards| > 0
    ensures c == cards[0] || c == cards[|cards| - 1]
    ensures HasPowerCard(cards) || coinDraw > 0.3 ==> c == cards[0]
    ensures !HasPowerCard(cards) && coinDraw <= 0.3 ==> c == cards[|cards| - 1]
  {
    if HasPowerCard(cards) then cards[0]
    else if coinDraw > 0.3 then cards[0]
    else cards[|cards| - 1]
  }

  /** The smart lead: the chosen suit's cards, and from them the card PlayFromSuit takes. */
  function LeadCard(hand: seq<Card>, avoid: seq<Suit>, suitDraw: real, coinDraw: real): (c: Card)
    requires |hand| > 0 && 0.0 <= suitDraw < 1.0
    ensures c in hand
  {
    var chosen := ChosenSuit(hand, avoid, suitDraw);
    var cards := OfSuit(hand, chosen);
    OfSuitEmpty(hand, chosen);
    assert cards[0] in cards && cards[|cards| - 1] in cards;
    PlayFromSuit(cards, coinDraw)
  }

  /** The smart follow: the first card of the lead suit, or the last card of the hand. */
  function FollowCard(hand: seq<Card>, lead: Suit): (c: Card)
    requires |hand| > 0
    ensures c in hand
  {
    var hasSuit := OfSuit(hand, lead);
    if |hasSuit| > 0 then (assert hasSuit[0] in hasSuit; hasSuit[0]) else hand[|hand| - 1]
  }

  /** The card botTurn plays for the seat to move: the mandatory card when it holds it, then
      a lead on an empty pile, otherwise a follow. */
  function BotChoice(t: Table, suitDraw: real, coinDraw: real): (c: Card)
    requires WellFormed(t) && |t.players[t.currentTurn].hand| > 0 && 0.0 <= suitDraw < 1.0
    ensures c in t.players[t.currentTurn].hand
  {
    var hand := t.players[t.currentTurn].hand;
    if t.mandatoryCard.Some? && t.mandatoryCard.value in hand then t.mandatoryCard.value
    else if t.centerPile == [] then LeadCard(hand, t.avoidSuits, suitDraw, coinDraw)
    else FollowCard(hand, t.leadSuit.value)
  }

  /** A bot's move always passes the checks a human move must pass: it plays the mandatory
      card while that is due, and it follows the lead suit whenever it holds it. */
  lemma BotChoiceIsLegal(t: Table, suitDraw: real, coinDraw: real)
    requires Valid(t) && |t.players[t.currentTurn].hand| > 0 && 0.0 <= suitDraw < 1.0
    ensures var c := BotChoice(t, suitDraw, coinDraw);
      c in t.players[t.currentTurn].hand && SuitCheck(t, t.currentTurn, c) == None
  {
    var hand := t.players[t.currentTurn].hand;
    if t.mandatoryCard == None && t.centerPile != [] {
      var lead := t.leadSuit.value;
      var hasSuit := OfSuit(hand, lead);
      if HoldsSuit(hand, t.leadSuit) {
        var i :| 0 <= i < |hand| && Some(hand[i].suit) == t.leadSuit;
        assert hand[i] in hasSuit;
        assert hasSuit[0].suit == lead;
      }
    }
  }

  /** The last card of a sorted hand is in the last suit the hand holds, and is the lowest
      card of that suit. */
  lemma LastCardIsLowest(hand: seq<Card>)
    requires Sorted(hand) && |hand| > 0
    ensures var c := hand[|hand| - 1];
      forall d :: d in hand ==> SuitOrder(d.suit) <= SuitOrder(c.suit) && (d.suit == c.suit ==> c.rank <= d.rank)
  {
    var c := hand[|hand| - 1];
    forall d | d in hand ensures SuitOrder(d.suit) <= SuitOrder(c.suit) && (d.suit == c.suit ==> c.rank <= d.rank) {
      var i :| 0 <= i < |hand| && hand[i] == d;
      if i < |hand| - 1 {
        assert Compare(hand[i], c) <= 0;
      }
    }
  }

  /** The first card of a sorted single-suit run is its highest and the last its lowest. */
  lemma SuitRunEnds(cards: seq<Card>, s: Suit)
    requires Sorted(cards) && |cards| > 0 && forall j :: 0 <= j < |cards| ==> cards[j].suit == s
    ensures forall d :: d in cards ==> d.rank <= cards[0].rank && cards[|cards| - 1].rank <= d.rank
  {
    forall d | d in cards ensures d.rank <= cards[0].rank && cards[|cards| - 1].rank <= d.rank {
      var i :| 0 <= i < |cards| && cards[i] == d;
      if i > 0 { assert Compare(cards[0], cards[i]) <= 0; }
      if i < |cards| - 1 { assert Compare(cards[i], cards[|cards| - 1]) <= 0; }
    }
  }

  /** A lead never draws an avoided suit while the hand holds a suit that is not avoided. */
  lemma LeadAvoids(hand: seq<Card>, avoid: seq<Suit>, suitDraw: real, coinDraw: real)
    requires |hand| > 0 && 0.0 <= suitDraw < 1.0
    requires exists i :: 0 <= i < |hand| && hand[i].suit !in avoid
    ensures LeadCard(hand, avoid, suitDraw, coinDraw).suit !in avoid
  {
    var chosen := ChosenSuit(hand, avoid, suitDraw);
    OfSuitEmpty(hand, chosen);
    assert LeadCard(hand, avoid, suitDraw, coinDraw).suit == chosen;
  }

  /** From sorted cards of one suit, PlayFromSuit takes the highest or the lowest: the
      highest when they hold a king or an ace, or when the coin draw exceeds 0.3, and the
      lowest otherwise. */
  lemma FromSuitEnds(cards: seq<Card>, s: Suit, coinDraw: real)
    requires Sorted(cards) && |cards| > 0 && forall j :: 0 <= j < |cards| ==> cards[j].suit == s
    ensures var c := PlayFromSuit(cards, coinDraw);
      var highest := forall d :: d in cards ==> d.rank <= c.rank;
      var lowest := forall d :: d in cards ==> c.rank <= d.rank;
      && (highest || lowest)
      && ((exists d :: d in cards && d.rank >= KingRank) ==> highest)
      && (coinDraw > 0.3 ==> highest)
      && (!(exists d :: d in cards && d.rank >= KingRank) && coinDraw <= 0.3 ==> lowest)
  {
    SuitRunEnds(cards, s);
    if exists d :: d in cards && d.rank >= KingRank {
      var d :| d in cards && d.rank >= KingRank;
      var j :| 0 <= j < |cards| && cards[j] == d;
    }
  }

  /** A lead from a sorted hand plays the highest or the lowest card of its suit: the
      highest when the suit holds a king or an ace, or when the coin draw exceeds 0.3, and
      the lowest otherwise. */
  lemma LeadHighOrLow(hand: seq<Card>, avoid: seq<Suit>, suitDraw: real, coinDraw: real)
    requires Sorted(hand) && |hand| > 0 && 0.0 <= suitDraw < 1.0
    ensures var c := LeadCard(hand, avoid, suitDraw, coinDraw);
      var highest := forall d :: d in hand && d.suit == c.suit ==> d.rank <= c.rank;
      var lowest := forall d :: d in hand && d.suit == c.suit ==> c.rank <= d.rank;
      && (highest || lowest)
      && ((exists d :: d in hand && d.suit == c.suit && d.rank >= KingRank) ==> highest)
      && (coinDraw > 0.3 ==> highest)
      && (!(exists d :: d in hand && d.suit == c.suit && d.rank >= KingRank) && coinDraw <= 0.3 ==> lowest)
  {
    var chosen := ChosenSuit(hand, avoid, suitDraw);
    var cards := OfSuit(hand, chosen);
    OfSuitEmpty(hand, chosen);
    OfSuitSorted(hand, chosen);
    FromSuitEnds(cards, chosen, coinDraw);
    var c := LeadCard(hand, avoid, suitDraw, coinDraw);
    assert c == PlayFromSuit(cards, coinDraw);
    assert c.suit == chosen;
  }

  /** A follow from a sorted hand that holds the lead suit plays its highest card of that suit. */
  lemma FollowsHighest(hand: seq<Card>, lead: Suit)
    requires Sorted(hand) && |hand| > 0
    requires exists d :: d in hand && d.suit == lead
    ensures var c := FollowCard(hand, lead);
      c.suit == lead && forall d :: d in hand && d.suit == lead ==> d.rank <= c.rank
  {
    var hasSuit := OfSuit(hand, lead);
    OfSuitSorted(hand, lead);
    var d :| d in hand && d.suit == lead;
    assert d in hasSuit;
    SuitRunEnds(hasSuit, lead);
  }

  /** A follow from a hand without the lead suit cuts with the last card of the hand: in a
      sorted hand, the lowest card of the last suit held. */
  lemma CutsWithLastCard(hand: seq<Card>, lead: Suit)
    requires Sorted(hand) && |hand| > 0
    requires forall d :: d in hand ==> d.suit != lead
    ensures var c := FollowCard(hand, lead);
      c == hand[|hand| - 1]
      && forall d :: d in hand ==> SuitOrder(d.suit) <= SuitOrder(c.suit) && (d.suit == c.suit ==> c.rank <= d.rank)
  {
    OfSuitEmpty(hand, lead);
    LastCardIsLowest(hand);
  }

  /** The suitsInHand loop of botTurn: group the hand's cards by suit, keeping the suits in
      order of first appearance and each suit's cards in hand order. */
  method GroupBySuit(hand: seq<Card>) returns (keys: seq<Suit>, groups: map<Suit, seq<Card>>)
    ensures keys == SuitsOf(hand)
    ensures forall s :: s in groups <==> s in keys
    ensures forall s :: s in groups ==> groups[s] == OfSuit(hand, s)
  {
    keys, groups := [], map[];
    for i := 0 to |hand|
      invariant keys == SuitsOf(hand[..i])
      invariant forall s :: s in groups <==> s in keys
      invariant forall s :: s in groups ==> groups[s] == OfSuit(hand[..i], s)
    {
      var c := hand[i];
      assert hand[..i + 1][..i] == hand[..i];
      assert hand[..i + 1][i] == c;
      if c.suit !in groups {
        OfSuitEmpty(hand[..i], c.suit);
        groups := groups[c.suit := [c]];
        keys := keys + [c.suit];
      } else {
        groups := groups[c.suit := groups[c.suit] + [c]];
      }
    }
    assert hand[..|hand|] == hand;
  }

  /** LeadCard plays PlayFromSuit on the cards of the chosen suit. */
  lemma LeadCardFromSuit(hand: seq<Card>, avoid: seq<Suit>, suitDraw: real, coinDraw: real)
    requires |hand| > 0 && 0.0 <= suitDraw < 1.0
    ensures OfSuit(hand, ChosenSuit(hand, avoid, suitDraw)) != []
    ensures LeadCard(hand, avoid, suitDraw, coinDraw) == PlayFromSuit(OfSuit(hand, ChosenSuit(hand, avoid, suitDraw)), coinDraw)
  {
    OfSuitEmpty(hand, ChosenSuit(hand, avoid, suitDraw));
  }

  /** The lead branch of botTurn: group the hand by suit, draw a suit that is not avoided
      when there is one, and play high or low from it. */
  method ChooseLead(hand: seq<Card>, avoid: seq<Suit>, suitDraw: real, coinDraw: real) returns (card: Card)
    requires |hand| > 0 && 0.0 <= suitDraw < 1.0
    ensures card == LeadCard(hand, avoid, suitDraw, coinDraw)
  {
    var keys, groups := GroupBySuit(hand);
    var validSuits := Allowed(keys, avoid);
    var suitsToChooseFrom := if |validSuits| > 0 then validSuits else keys;
    assert suitsToChooseFrom == LeadSuits(hand, avoid);
    var chosenSuit := suitsToChooseFrom[Pick(suitDraw, |suitsToChooseFrom|)];
    assert chosenSuit == ChosenSuit(hand, avoid, suitDraw);
    var cardsOfSuit := groups[chosenSuit];
    OfSuitEmpty(hand, chosenSuit);
    card := PlayFromSuit(cardsOfSuit, coinDraw);
    LeadCardFromSuit(hand, avoid, suitDraw, coinDraw);
  }

  /** The card botTurn's code settles on, computed as it does with the suitsInHand map. */
  method ChooseCard(t: Table, suitDraw: real, coinDraw: real) returns (card: Card)
    requires WellFormed(t) && |t.players[t.currentTurn].hand| > 0 && 0.0 <= suitDraw < 1.0
    ensures card == BotChoice(t, suitDraw, coinDraw)
  {
    var bot := t.players[t.currentTurn];
    if t.mandatoryCard.Some? && t.mandatoryCard.value in bot.hand {
      card := t.mandatoryCard.value;
    } else if |t.centerPile| == 0 {
      card := ChooseLead(bot.hand, t.avoidSuits, suitDraw, coinDraw);
    } else {
      var hasSuit := OfSuit(bot.hand, t.leadSuit.value);
      card := if |hasSuit| > 0 then hasSuit[0] else bot.hand[|bot.hand| - 1];
    }
  }

  /** botTurn: choose the card as BotChoice does and play it for the seat to move. */
  method BotTurn(t: Table, suitDraw: real, coinDraw: real) returns (r: Table, card: Card)
    requires Valid(t) && |t.players[t.currentTurn].hand| > 0 && 0.0 <= suitDraw < 1.0
    ensures card == BotChoice(t, suitDraw, coinDraw)
    ensures r == PlayCard(t, t.currentTurn, card)
    ensures Valid(r)
  {
    card := ChooseCard(t, suitDraw, coinDraw);
    HeldOnce(t, t.currentTurn, card);
    PileCardsAreCards(t);
    r := PlayCardLogic(t, t.currentTurn, card);
    PlayKeepsValid(t, t.currentTurn, card);
  }
}
