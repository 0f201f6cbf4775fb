/** The game component's handlers as step-by-step code, each proved to compute the rule
    function it implements, so that everything proved of the rules holds of them. */
module Engine {
  import opened Cards
  import opened Shuffle
  import opened State
  import opened Seats
  import opened Rules
  import opened Properties

  /** The forEach of resolveCut and resolveClear: keep the seat of the first play of `suit`
      that beats the highest rank seen so far, starting from rank -1 and seat -1. */
  method ScanHighest(pile: seq<Play>, suit: Suit) returns (seat: int)
    requires forall j :: 0 <= j < |pile| ==> pile[j].card.rank >= 0
    ensures seat == if Leader(pile, suit) == -1 then -1 else pile[Leader(pile, suit)].seat
  {
    var highestRank := -1;
    seat := -1;
    var k := 0;
    while k < |pile|
      invariant 0 <= k <= |pile|
      invariant var l := Leader(pile[..k], suit);
        if l == -1 then seat == -1 && highestRank == -1
        else seat == pile[l].seat && highestRank == pile[l].card.rank
    {
      LeaderStep(pile, suit, k);
      var play := pile[k];
      if play.card.suit == suit && play.card.rank > highestRank {
        highestRank := play.card.rank;
        seat := play.seat;
      }
      k := k + 1;
    }
    assert pile[..|pile|] == pile;
  }

  /** checkSafePlayers: mark every empty-handed playing seat safe, then end the round when
      at most one seat is still playing. */
  method CheckSafePlayers(t: Table) returns (r: Table)
    ensures r == CheckSafe(t)
  {
    var ps := t.players;
    for i := 0 to |ps|
      invariant |ps| == |t.players|
      invariant forall j :: 0 <= j < i ==> ps[j] == MarkSafe(t.players)[j]
      invariant forall j :: i <= j < |ps| ==> ps[j] == t.players[j]
    {
      if |ps[i].hand| == 0 && ps[i].status == Playing {
        ps := ps[i := ps[i].(status := Safe)];
      }
    }
    assert ps == MarkSafe(t.players);
    var remaining := PlayingSeats(ps);
    r := t.(players := ps);
    if |remaining| <= 1 {
      r := EndRound(r, if remaining == [] then None else Some(remaining[0]));
    }
  }

  /** resolveCut: the owner of the highest lead-suit card picks the pile up and leads. */
  method ResolveCut(t: Table, suit: Suit) returns (r: Table)
    requires WellFormed(t) && Leader(t.centerPile, suit) >= 0
    requires forall j :: 0 <= j < |t.centerPile| ==> IsCard(t.centerPile[j].card)
    ensures r == CutOutcome(t, suit)
  {
    var victimId := ScanHighest(t.centerPile, suit);
    var victim := t.players[victimId];
    var avoid := if victim.isBot then t.avoidSuits + [suit] else t.avoidSuits;
    var pickupCards := PileCards(t.centerPile);
    var ps := t.players[victimId := victim.(hand := SortHand(victim.hand + pickupCards))];
    r := CheckSafePlayers(t.(players := ps, centerPile := [], leadSuit := None, avoidSuits := avoid));
    r := r.(currentTurn := victimId);
  }

  /** resolveClear: the trick leaves play; its winner leads, or when the winner has no cards
      the lead passes on. */
  method ResolveClear(t: Table, suit: Suit) returns (r: Table)
    requires WellFormed(t) && Leader(t.centerPile, suit) >= 0
    requires forall j :: 0 <= j < |t.centerPile| ==> IsCard(t.centerPile[j].card)
    ensures r == ClearOutcome(t, suit)
  {
    var winnerId := ScanHighest(t.centerPile, suit);
    var nextTurn := winnerId;
    if |t.players[winnerId].hand| == 0 {
      nextTurn := PassLead(t.players, winnerId);
    }
    var cleared := t.(centerPile := [], leadSuit := None, avoidSuits := Without(t.avoidSuits, suit),
                      discard := t.discard + PileCards(t.centerPile));
    r := CheckSafePlayers(cleared);
    r := r.(currentTurn := nextTurn);
  }

  /** playCardLogic: the card moves to the pile, then the trick is cut, cleared or passed on. */
  method PlayCardLogic(t: Table, seat: nat, card: Card) returns (r: Table)
    requires WellFormed(t) && seat < |t.players| && IsCard(card)
    requires forall j :: 0 <= j < |t.centerPile| ==> IsCard(t.centerPile[j].card)
    ensures r == PlayCard(t, seat, card)
  {
    var player := t.players[seat];
    var ps := t.players[seat := player.(hand := Remove(player.hand, card))];
    var newPile := t.centerPile + [Play(seat, card)];
    var currentLeadSuit := if |newPile| == 1 then Some(card.suit) else t.leadSuit;
    var t1 := t.(players := ps, centerPile := newPile, mandatoryCard := None, leadSuit := currentLeadSuit);
    assert t1 == Placed(t, seat, card);
    PlacedWellFormed(t, seat, card);
    assert forall j :: 0 <= j < |newPile| ==> IsCard(newPile[j].card);
    if Some(card.suit) != currentLeadSuit && |t.centerPile| > 0 {
      r := ResolveCut(t1, currentLeadSuit.value);
      return;
    }
    var activeCount := ActiveCount(t.players);
    if |newPile| == activeCount {
      r := ResolveClear(t1, currentLeadSuit.value);
    } else {
      var next := AdvanceTurn(ps, seat);
      r := t1.(currentTurn := next);
    }
  }

  /** handlePlayerClick: the human's move is refused outside a round, out of turn, when the
      mandatory opening card is due and another is clicked, or when it does not follow a suit
      the hand holds; a refused move changes nothing, an accepted one is played for seat 0. */
  method HandlePlayerClick(t: Table, card: Card) returns (r: Table, refusal: Option<Refusal>)
    requires t.phase == InPlay ==>
      WellFormed(t) && IsCard(card) && forall j :: 0 <= j < |t.centerPile| ==> IsCard(t.centerPile[j].card)
    ensures refusal == HumanCheck(t, card)
    ensures refusal.Some? ==> r == t
    ensures refusal == None ==> t.players != [] && r == PlayCard(t, 0, card)
    ensures Valid(t) && card in t.players[0].hand ==> Valid(r)
  {
    if t.phase != InPlay || t.currentTurn != 0 {
      r := t;
      refusal := if t.phase != InPlay then Some(RoundNotInPlay) else Some(NotYourTurn);
      return;
    }
    if t.mandatoryCard.Some? {
      if card == t.mandatoryCard.value {
        r := PlayCardLogic(t, 0, card);
        refusal := None;
      } else {
        r := t;
        refusal := Some(MustPlayMandatory);
      }
    } else if |t.centerPile| > 0 && HoldsSuit(t.players[0].hand, t.leadSuit) && Some(card.suit) != t.leadSuit {
      r := t;
      refusal := Some(MustFollowSuit);
    } else {
      r := PlayCardLogic(t, 0, card);
      refusal := None;
    }
    if Valid(t) && card in t.players[0].hand && refusal == None {
      PlayKeepsValid(t, 0, card);
    }
  }

  /** The bot effect's first branch: a safe seat to move is passed over while the round is on. */
  method SkipSafeSeat(t: Table) returns (r: Table)
    requires WellFormed(t)
    ensures r == SkipSafe(t)
    ensures Valid(t) ==> Valid(r)
  {
    if Valid(t) {
      SkipSafeKeepsValid(t);
    }
    r := t;
    if t.phase == InPlay && t.players[t.currentTurn].status == Safe {
      var next := AdvanceTurn(t.players, t.currentTurn);
      r := t.(currentTurn := next);
    }
  }

  /** findFirstPlayer: search the spades from the ace down, and for each rank the seats in
      order; the first holder found moves first and must play that card. */
  method FindFirstPlayer(players: seq<Player>) returns (starter: int, card: Option<Card>)
    ensures starter == -1 <==> card == None
    ensures card == None ==> forall i, c :: 0 <= i < |players| && c in players[i].hand && c.suit == Spades ==>
              !(LowRank <= c.rank <= AceRank)
    ensures card.Some? ==>
              && 0 <= starter < |players| && card.value in players[starter].hand
              && card.value.suit == Spades && LowRank <= card.value.rank <= AceRank
              && (forall i :: 0 <= i < starter ==> card.value !in players[i].hand)
              && (forall i, c :: 0 <= i < |players| && c in players[i].hand && c.suit == Spades && c.rank <= AceRank ==>
                    c.rank <= card.value.rank)
  {
    starter, card := -1, None;
    var v := AceRank;
    while v >= LowRank
      invariant LowRank - 1 <= v <= AceRank
      invariant forall i, c :: 0 <= i < |players| && c in players[i].hand && c.suit == Spades ==>
                  !(v < c.rank <= AceRank)
    {
      var p := 0;
      while p < |players|
        invariant 0 <= p <= |players|
        invariant forall i :: 0 <= i < p ==> Card(Spades, v) !in players[i].hand
      {
        if Card(Spades, v) in players[p].hand {
          starter, card := p, Some(Card(Spades, v));
          return;
        }
        p := p + 1;
      }
      v := v - 1;
    }
  }

  /** cardsPerPlayer: 13 cards for four seats, 10 for five. */
  function CardsPerPlayer(count: nat): nat
    requires count == 4 || count == 5
  {
    if count == 4 then 13 else 10
  }

  /** Seat i as the deal creates it: a sorted hand of cardsPerPlayer cards, playing, and a
      bot unless it is seat 0. */
  predicate DealtSeat(p: Player, count: nat, i: nat)
    requires count == 4 || count == 5
  {
    Sorted(p.hand) && |p.hand| == CardsPerPlayer(count) && p.status == Playing && p.isBot == (i != 0)
  }

  /** deck.splice(0, k): the first k cards, sorted, and the cards below them share out the deck. */
  lemma SpliceTop(rest: seq<Card>, k: nat)
    requires k <= |rest|
    ensures |SortHand(rest[..k])| == k
    ensures multiset(rest) == multiset(SortHand(rest[..k])) + multiset(rest[k..])
  {
    var hand := SortHand(rest[..k]);
    assert rest == rest[..k] + rest[k..];
    assert |hand| == |multiset(hand)| == k;
  }

  /** One turn of the deal loop: the next seat takes the top cardsPerPlayer cards, sorted,
      and is playing, and a bot unless it is seat 0. */
  lemma DealKeepsSeats(count: nat, ps: seq<Player>, rest: seq<Card>)
    requires (count == 4 || count == 5) && CardsPerPlayer(count) <= |rest|
    requires forall j :: 0 <= j < |ps| ==> DealtSeat(ps[j], count, j)
    ensures var qs := ps + [Player(SortHand(rest[..CardsPerPlayer(count)]), Playing, |ps| != 0)];
      forall j :: 0 <= j < |qs| ==> DealtSeat(qs[j], count, j)
  {
    SpliceTop(rest, CardsPerPlayer(count));
  }

  /** One turn of the deal loop loses no card: the hands and the rest of the deck still
      share out the deck. */
  lemma DealKeepsCards(deck: seq<Card>, k: nat, ps: seq<Player>, rest: seq<Card>, isBot: bool)
    requires k <= |rest|
    requires HandsBag(ps) + multiset(rest) == multiset(deck)
    ensures HandsBag(ps + [Player(SortHand(rest[..k]), Playing, isBot)]) + multiset(rest[k..]) == multiset(deck)
  {
    SpliceTop(rest, k);
    HandsBagAppend(ps, Player(SortHand(rest[..k]), Playing, isBot));
  }

  /** The deal loop of startGame: deck.splice gives each seat in turn the next
      cardsPerPlayer cards, sorted; what is left of the deck is returned. */
  method DealHands(deck: seq<Card>, count: nat) returns (ps: seq<Player>, rest: seq<Card>)
    requires |deck| == 52 && (count == 4 || count == 5)
    ensures |ps| == count && forall j :: 0 <= j < count ==> DealtSeat(ps[j], count, j)
    ensures |rest| == if count == 5 then 2 else 0
    ensures HandsBag(ps) + multiset(rest) == multiset(deck)
  {
    var k := CardsPerPlayer(count);
    ps := [];
    rest := deck;
    for i := 0 to count
      invariant |ps| == i && forall j :: 0 <= j < i ==> DealtSeat(ps[j], count, j)
      invariant count == 4 ==> |rest| == 52 - 13 * i
      invariant count == 5 ==> |rest| == 52 - 10 * i
      invariant HandsBag(ps) + multiset(rest) == multiset(deck)
    {
      DealKeepsSeats(count, ps, rest);
      DealKeepsCards(deck, k, ps, rest, i != 0);
      ps, rest := ps + [Player(SortHand(rest[..k]), Playing, i != 0)], rest[k..];
    }
  }

  /** startGame: shuffle a fresh deck, deal 13 cards to each of four seats or 10 to each of
      five (burning the two left over), sort each hand, reset the round, and give the first
      move to the holder of the highest spade, who must play it. */
  method StartGame(count: nat, draws: seq<real>, scores: seq<nat>) returns (t: Table)
    requires count == 4 || count == 5
    requires |draws| == 52 && forall i :: 0 <= i < |draws| ==> 0.0 <= draws[i] < 1.0
    requires |scores| == 5
    ensures Valid(t) && t.phase == InPlay && t.scores == scores
    ensures |t.players| == count && forall i :: 0 <= i < count ==> DealtSeat(t.players[i], count, i)
    ensures |t.burntCards| == if count == 5 then 2 else 0
    ensures t.centerPile == [] && t.leadSuit == None && t.avoidSuits == [] && t.discard == []
    ensures t.mandatoryCard.Some? && t.mandatoryCard.value.suit == Spades
    ensures t.mandatoryCard.value in t.players[t.currentTurn].hand
    ensures forall i :: 0 <= i < t.currentTurn ==> t.mandatoryCard.value !in t.players[i].hand
    ensures forall i, c :: 0 <= i < count && c in t.players[i].hand && c.suit == Spades ==>
              c.rank <= t.mandatoryCard.value.rank
  {
    var deck := CreateDeck();
    FullDeckIsDeck();
    deck := FisherYatesShuffle(deck, draws);
    assert |deck| == |multiset(deck)| == 52;
    var ps, rest := DealHands(deck, count);
    var burnt := if count == 5 then rest else [];
    assert burnt == rest;
    var starter, card := FindFirstPlayer(ps);
    var dealtTable := Table(ps, [], None, None, burnt, 0, InPlay, scores, [], []);
    assert CardsInPlay(dealtTable) == multiset(FullDeck());
    SomeSpadeHeld(dealtTable);
    t := dealtTable.(mandatoryCard := card, currentTurn := starter);
    forall i, c | 0 <= i < count && c in t.players[i].hand && c.suit == Spades
      ensures c.rank <= t.mandatoryCard.value.rank
    {
      HeldOnce(dealtTable, i, c);
    }
  }
}
