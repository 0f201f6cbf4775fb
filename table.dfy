/** The game's state record and the invariants every reachable state keeps. */
module State {
  import opened Cards

  datatype Option<T> = None | Some(value: T)

  datatype Status = Playing | Safe

  /** A seat: its hand, whether it is still playing or safe, and whether a bot plays it. */
  datatype Player = Player(hand: seq<Card>, status: Status, isBot: bool)

  /** One entry of the center pile: who played which card. */
  datatype Play = Play(seat: nat, card: Card)

  datatype Phase = Setup | InPlay | Finished

  /** The component's state. Seat i is players[i]; scores[i] is the score of seat i's
      name ("You" for seat 0, "Bot i" otherwise). `discard` holds the cards a clear
      took out of play; the component drops them, the model keeps them to account
      for every card. */
  datatype Table = Table(
    players: seq<Player>,
    centerPile: seq<Play>,
    leadSuit: Option<Suit>,
    mandatoryCard: Option<Card>,
    burntCards: seq<Card>,
    currentTurn: nat,
    phase: Phase,
    scores: seq<nat>,
    avoidSuits: seq<Suit>,
    discard: seq<Card>)

  /** The five score entries before any round: "You" and "Bot 1" to "Bot 4". */
  const StartScores: seq<nat> := [0, 0, 0, 0, 0]

  /** The state before the first deal. */
  function InitialTable(): Table {
    Table([], [], None, None, [], 0, Setup, StartScores, [], [])
  }

  function PileCards(pile: seq<Play>): (cs: seq<Card>)
    ensures |cs| == |pile| && forall j :: 0 <= j < |pile| ==> cs[j] == pile[j].card
  {
    if pile == [] then [] else PileCards(pile[..|pile| - 1]) + [pile[|pile| - 1].card]
  }

  /** All cards held in the hands, counted with multiplicity. */
  function HandsBag(ps: seq<Player>): multiset<Card> {
    if ps == [] then multiset{} else HandsBag(ps[..|ps| - 1]) + multiset(ps[|ps| - 1].hand)
  }

  /** All cards of the round: hands, pile, burnt cards and cleared cards. */
  function CardsInPlay(t: Table): multiset<Card> {
    HandsBag(t.players) + multiset(PileCards(t.centerPile)) + multiset(t.burntCards) + multiset(t.discard)
  }

  /** Card conservation: the round's cards are the deck, each card once. */
  predicate Conserved(t: Table) {
    CardsInPlay(t) == multiset(FullDeck())
  }

  /** Shape facts the rule functions rely on: the pile's seats exist and the lead suit is
      the suit of the pile's first card, set exactly when the pile is non-empty. */
  predicate WellFormed(t: Table) {
    && t.currentTurn < |t.players|
    && (t.centerPile == [] <==> t.leadSuit == None)
    && (t.centerPile != [] ==> t.leadSuit == Some(t.centerPile[0].card.suit))
    && (forall j :: 0 <= j < |t.centerPile| ==> t.centerPile[j].seat < |t.players|)
  }

  /** What holds of the state between two plays, also while a cut or clear is pending. */
  predicate Sound(t: Table) {
    && WellFormed(t)
    && (|t.players| == 4 || |t.players| == 5)
    && |t.scores| == 5
    && Conserved(t)
    && (forall i :: 0 <= i < |t.players| ==> Sorted(t.players[i].hand))
  }

  /** The invariant of every state a round passes through: Sound, every card on the pile
      follows the lead suit (an off-suit card is resolved at once), and the mandatory card,
      while set, is the opening card of the round, held by the seat to move, which is playing. */
  predicate Valid(t: Table) {
    && Sound(t)
    && (forall j :: 0 <= j < |t.centerPile| ==> t.centerPile[j].card.suit == t.leadSuit.value)
    && (t.mandatoryCard.Some? ==>
          && t.centerPile == []
          && t.mandatoryCard.value in t.players[t.currentTurn].hand
          && t.players[t.currentTurn].status == Playing)
  }

  /** Replacing one hand changes the hands' cards by exactly that hand. */
  lemma {:induction false} HandsBagUpdate(ps: seq<Player>, i: nat, p: Player)
    requires i < |ps|
    ensures HandsBag(ps[i := p]) + multiset(ps[i].hand) == HandsBag(ps) + multiset(p.hand)
  {
    var n := |ps|;
    var qs := ps[i := p];
    if i == n - 1 {
      assert qs[..n - 1] == ps[..n - 1];
    } else {
      assert qs[..n - 1] == ps[..n - 1][i := p];
      HandsBagUpdate(ps[..n - 1], i, p);
      var old1 := HandsBag(ps[..n - 1]);
      var new1 := HandsBag(qs[..n - 1]);
      assert ps[..n - 1][i] == ps[i];
      assert HandsBag(qs) == new1 + multiset(ps[n - 1].hand);
      assert HandsBag(ps) == old1 + multiset(ps[n - 1].hand);
      calc {
        HandsBag(qs) + multiset(ps[i].hand);
        new1 + multiset(ps[n - 1].hand) + multiset(ps[i].hand);
        new1 + multiset(ps[i].hand) + multiset(ps[n - 1].hand);
        old1 + multiset(p.hand) + multiset(ps[n - 1].hand);
        HandsBag(ps) + multiset(p.hand);
      }
    }
  }

  /** A hand that gains `extra` adds `extra` to the hands' cards. */
  lemma HandsBagGrow(ps: seq<Player>, i: nat, p: Player, extra: multiset<Card>)
    requires i < |ps| && multiset(p.hand) == multiset(ps[i].hand) + extra
    ensures HandsBag(ps[i := p]) == HandsBag(ps) + extra
  {
    HandsBagUpdate(ps, i, p);
    var before, after, held := HandsBag(ps), HandsBag(ps[i := p]), multiset(ps[i].hand);
    forall c ensures after[c] == (before + extra)[c] {
      assert (after + held)[c] == (before + held + extra)[c];
    }
  }

  /** A hand that loses `extra` takes `extra` out of the hands' cards. */
  lemma HandsBagShrink(ps: seq<Player>, i: nat, p: Player, extra: multiset<Card>)
    requires i < |ps| && multiset(p.hand) + extra == multiset(ps[i].hand)
    ensures HandsBag(ps[i := p]) + extra == HandsBag(ps)
  {
    var qs := ps[i := p];
    HandsBagGrow(qs, i, ps[i], extra);
    assert qs[i := ps[i]] == ps;
  }

  /** A seat added at the end adds its hand to the hands' cards. */
  lemma HandsBagAppend(ps: seq<Player>, p: Player)
    ensures HandsBag(ps + [p]) == HandsBag(ps) + multiset(p.hand)
  {
    assert (ps + [p])[..|ps|] == ps;
  }

  /** Changing statuses only leaves the hands' cards alone. */
  lemma {:induction false} HandsBagSameHands(ps: seq<Player>, qs: seq<Player>)
    requires |ps| == |qs| && forall i :: 0 <= i < |ps| ==> ps[i].hand == qs[i].hand
    ensures HandsBag(ps) == HandsBag(qs)
  {
    if ps != [] {
      HandsBagSameHands(ps[..|ps| - 1], qs[..|qs| - 1]);
    }
  }

  /** Each hand is part of the hands' cards. */
  lemma {:induction false} HandInBag(ps: seq<Player>, i: nat)
    requires i < |ps|
    ensures multiset(ps[i].hand) <= HandsBag(ps)
  {
    if i < |ps| - 1 {
      HandInBag(ps[..|ps| - 1], i);
    }
  }

  /** A card among the hands' cards is in some hand. */
  lemma {:induction false} BagHasHand(ps: seq<Player>, c: Card) returns (i: nat)
    requires c in HandsBag(ps)
    ensures i < |ps| && c in ps[i].hand
  {
    var n := |ps|;
    if c in multiset(ps[n - 1].hand) {
      i := n - 1;
    } else {
      i := BagHasHand(ps[..n - 1], c);
    }
  }

  /** In a conserved state a held card is a real card, held once. */
  lemma HeldOnce(t: Table, i: nat, c: Card)
    requires Conserved(t) && i < |t.players| && c in t.players[i].hand
    ensures multiset(t.players[i].hand)[c] == 1 && IsCard(c)
  {
    HandInBag(t.players, i);
    DeckMultiplicity(c);
  }

  /** In a conserved state every pile card is a real card. */
  lemma PileCardsAreCards(t: Table)
    requires Conserved(t)
    ensures forall j :: 0 <= j < |t.centerPile| ==> IsCard(t.centerPile[j].card)
  {
    forall j | 0 <= j < |t.centerPile| ensures IsCard(t.centerPile[j].card) {
      var c := t.centerPile[j].card;
      assert PileCards(t.centerPile)[j] == c;
      assert c in multiset(PileCards(t.centerPile));
      DeckMultiplicity(c);
    }
  }
}
