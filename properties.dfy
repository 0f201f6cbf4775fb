/** What the rules guarantee: card conservation and the other invariants of a round,
    the effect of each branch of a play, and the agreement of the move checks. */
module Properties {
  import opened Cards
  import opened State
  import opened Seats
  import opened Rules

  lemma PileCardsAppend(pile: seq<Play>, p: Play)
    ensures PileCards(pile + [p]) == PileCards(pile) + [p.card]
  {
    assert (pile + [p])[..|pile|] == pile;
  }

  /** Placing a card moves exactly that card from the mover's hand to the end of the pile. */
  lemma PlacedMovesOneCard(t: Table, seat: nat, card: Card)
    requires Conserved(t) && seat < |t.players| && card in t.players[seat].hand
    ensures var t1 := Placed(t, seat, card);
      && multiset(t1.players[seat].hand) + multiset{card} == multiset(t.players[seat].hand)
      && |t1.players[seat].hand| + 1 == |t.players[seat].hand|
      && (forall i :: 0 <= i < |t.players| && i != seat ==> t1.players[i] == t.players[i])
      && t1.players[seat].status == t.players[seat].status
      && t1.centerPile == t.centerPile + [Play(seat, card)]
      && t1.mandatoryCard == None
      && t1.leadSuit == (if t.centerPile == [] then Some(card.suit) else t.leadSuit)
  {
    var h := t.players[seat].hand;
    var h1 := Remove(h, card);
    HeldOnce(t, seat, card);
    assert multiset(h1) == multiset(h)[card := 0];
    assert multiset(h1) + multiset{card} == multiset(h);
    assert |multiset(h1)| + 1 == |multiset(h)|;
  }

  /** Placing a held card keeps every card accounted for and every hand sorted. */
  lemma PlacedKeepsSound(t: Table, seat: nat, card: Card)
    requires Sound(t) && seat < |t.players| && card in t.players[seat].hand
    ensures Sound(Placed(t, seat, card))
  {
    var t1 := Placed(t, seat, card);
    var h := t.players[seat].hand;
    PlacedMovesOneCard(t, seat, card);
    assert t1.players == t.players[seat := t1.players[seat]];
    HandsBagShrink(t.players, seat, t1.players[seat], multiset{card});
    PileCardsAppend(t.centerPile, Play(seat, card));
    assert PileCards(t1.centerPile) == PileCards(t.centerPile) + [card];
    assert multiset(PileCards(t1.centerPile)) == multiset(PileCards(t.centerPile)) + multiset{card};
    calc {
      CardsInPlay(t1);
      HandsBag(t1.players) + multiset(PileCards(t1.centerPile)) + multiset(t.burntCards) + multiset(t.discard);
      HandsBag(t1.players) + multiset{card} + multiset(PileCards(t.centerPile)) + multiset(t.burntCards) + multiset(t.discard);
      CardsInPlay(t);
    }
    PlacedWellFormed(t, seat, card);
    RemoveKeepsSorted(h, card);
    forall i | 0 <= i < |t1.players| ensures Sorted(t1.players[i].hand) {
      if i != seat {
        assert t1.players[i] == t.players[i];
      }
    }
  }

  /** checkSafePlayers changes only the statuses, the phase and the scores. */
  lemma CheckSafeFrame(t: Table)
    ensures var r := CheckSafe(t);
      r == t.(players := MarkSafe(t.players), phase := r.phase, scores := r.scores)
  {
  }

  /** The marking step changes only statuses, only from playing to safe, and only for an
      empty hand: afterwards a seat is safe exactly when it was safe or its hand is empty. */
  lemma MarkSafeFacts(ps: seq<Player>)
    ensures |MarkSafe(ps)| == |ps|
    ensures forall i :: 0 <= i < |ps| ==>
      MarkSafe(ps)[i].hand == ps[i].hand && MarkSafe(ps)[i].isBot == ps[i].isBot
      && (MarkSafe(ps)[i].status == Safe <==> ps[i].status == Safe || |ps[i].hand| == 0)
    ensures HandsBag(MarkSafe(ps)) == HandsBag(ps)
  {
    HandsBagSameHands(MarkSafe(ps), ps);
  }

  /** checkSafePlayers ends the round exactly when at most one seat plays on: the one
      playing seat, if any, scores one more and no other score changes. */
  lemma CheckSafeRoundEnd(t: Table)
    ensures var r := CheckSafe(t);
      && (ActiveCount(r.players) <= 1 ==> r.phase == Finished)
      && (ActiveCount(r.players) > 1 ==> r.phase == t.phase && r.scores == t.scores)
      && (ActiveCount(r.players) == 0 ==> r.scores == t.scores)
      && (ActiveCount(r.players) == 1 ==>
            exists s :: 0 <= s < |r.players| && r.players[s].status == Playing
              && (forall i :: 0 <= i < |r.players| && i != s ==> r.players[i].status == Safe)
              && r.scores == if s < |t.scores| then t.scores[s := t.scores[s] + 1] else t.scores)
  {
    var ps := MarkSafe(t.players);
    var rem := PlayingSeats(ps);
    if |rem| == 1 {
      var s := rem[0];
      assert s in rem;
      assert forall i: nat :: i in rem ==> i == s;
    }
  }

  /** checkSafePlayers keeps the seats and never returns a safe seat to play. */
  lemma CheckSafeKeepsSafe(t: Table, i: nat)
    requires i < |t.players| && t.players[i].status == Safe
    ensures |CheckSafe(t).players| == |t.players| && CheckSafe(t).players[i].status == Safe
  {
    CheckSafeFrame(t);
    MarkSafeFacts(t.players);
  }

  /** Once safe, always safe: no rule step returns a safe seat to play. */
  lemma SafeNeverReverts(t: Table, seat: nat, card: Card, i: nat)
    requires WellFormed(t) && seat < |t.players| && i < |t.players| && t.players[i].status == Safe
    ensures |PlayCard(t, seat, card).players| == |t.players|
    ensures PlayCard(t, seat, card).players[i].status == Safe
  {
    var t1 := Placed(t, seat, card);
    PlacedWellFormed(t, seat, card);
    var lead := t1.leadSuit.value;
    assert t1.players[i].status == Safe;
    if IsCut(t, card) {
      assert PlayCard(t, seat, card) == CutOutcome(t1, lead);
      var t2 := PickUp(t1, lead);
      assert t2.players[i].status == Safe;
      CheckSafeKeepsSafe(t2, i);
    } else if |t1.centerPile| == ActiveCount(t.players) {
      assert PlayCard(t, seat, card) == ClearOutcome(t1, lead);
      CheckSafeKeepsSafe(Cleared(t1, lead), i);
    } else {
      assert PlayCard(t, seat, card) == t1.(currentTurn := NextSeat(t1.players, seat));
    }
  }

  /** A cut: the victim, who leads next, is a seat that played the highest card of the lead
      suit on the pile. */
  lemma CutVictim(t: Table, suit: Suit)
    requires WellFormed(t) && Leader(t.centerPile, suit) >= 0
    ensures var v := CutOutcome(t, suit).currentTurn;
      && v < |t.players| && |CutOutcome(t, suit).players| == |t.players|
      && exists i :: 0 <= i < |t.centerPile| && t.centerPile[i].seat == v && t.centerPile[i].card.suit == suit
           && forall j :: 0 <= j < |t.centerPile| && t.centerPile[j].card.suit == suit ==>
                t.centerPile[j].card.rank <= t.centerPile[i].card.rank
  {
    var i := Leader(t.centerPile, suit);
    CheckSafeFrame(PickUp(t, suit));
    assert t.centerPile[i].seat == CutOutcome(t, suit).currentTurn;
  }

  /** A cut: the victim takes the whole pile into its hand, re-sorted; no other hand changes. */
  lemma CutPickUp(t: Table, suit: Suit)
    requires WellFormed(t) && Leader(t.centerPile, suit) >= 0
    ensures var r := CutOutcome(t, suit); var v := Holder(t, suit);
      && |r.players| == |t.players|
      && multiset(r.players[v].hand) == multiset(t.players[v].hand) + multiset(PileCards(t.centerPile))
      && Sorted(r.players[v].hand)
      && forall i :: 0 <= i < |t.players| && i != v ==> r.players[i].hand == t.players[i].hand
  {
    var v := Holder(t, suit);
    var t2 := PickUp(t, suit);
    CheckSafeFrame(t2);
    MarkSafeFacts(t2.players);
    var taken := SortHand(t.players[v].hand + PileCards(t.centerPile));
    assert t2.players[v].hand == taken;
  }

  /** A cut: the pile and the lead suit are reset, and a bot victim's lead suit joins the
      suits to avoid. */
  lemma CutResets(t: Table, suit: Suit)
    requires WellFormed(t) && Leader(t.centerPile, suit) >= 0
    ensures var r := CutOutcome(t, suit);
      && r.centerPile == [] && r.leadSuit == None && r.discard == t.discard
      && r.avoidSuits == (if t.players[Holder(t, suit)].isBot then t.avoidSuits + [suit] else t.avoidSuits)
  {
    CheckSafeFrame(PickUp(t, suit));
  }

  /** A clear: the winner holds the highest card of the lead suit; the winner leads if it
      still has cards, otherwise the lead passes on; the pile's cards leave play; no hand
      changes. */
  lemma ClearFacts(t: Table, suit: Suit)
    requires WellFormed(t) && Leader(t.centerPile, suit) >= 0
    ensures var r := ClearOutcome(t, suit); var w := t.centerPile[Leader(t.centerPile, suit)].seat;
      && w < |t.players| && |r.players| == |t.players|
      && t.centerPile[Leader(t.centerPile, suit)].card.suit == suit
      && (forall j :: 0 <= j < |t.centerPile| && t.centerPile[j].card.suit == suit ==>
            t.centerPile[j].card.rank <= t.centerPile[Leader(t.centerPile, suit)].card.rank)
      && (|t.players[w].hand| > 0 ==> r.currentTurn == w)
      && (|t.players[w].hand| == 0 ==> r.currentTurn == LeadPassSeat(t.players, w))
      && (forall i :: 0 <= i < |t.players| ==> r.players[i].hand == t.players[i].hand)
      && r.centerPile == [] && r.leadSuit == None
      && r.discard == t.discard + PileCards(t.centerPile)
      && (forall s :: s in r.avoidSuits <==> s in t.avoidSuits && s != suit)
  {
    CheckSafeFrame(Cleared(t, suit)); MarkSafeFacts(Cleared(t, suit).players);
  }

  /** playCardLogic takes exactly one of three branches: a cut when the pile was non-empty and
      the card is off the lead suit (the pile is handed over, nothing is discarded); else a clear
      when the pile now holds one card per playing seat (the pile is discarded); else the turn
      passes to the next seat that is not safe with the pile kept. */
  lemma PlayCardBranches(t: Table, seat: nat, card: Card)
    requires WellFormed(t) && seat < |t.players|
    ensures var r := PlayCard(t, seat, card);
      && (r.centerPile == [] && r.discard == t.discard <==> IsCut(t, card))
      && (r.centerPile == [] && r.discard != t.discard <==>
            !IsCut(t, card) && |t.centerPile| + 1 == ActiveCount(t.players))
      && (r.centerPile != [] <==> !IsCut(t, card) && |t.centerPile| + 1 != ActiveCount(t.players))
      && (r.centerPile != [] ==>
            r.centerPile == t.centerPile + [Play(seat, card)] && r.currentTurn == NextSeat(r.players, seat))
  {
    var t1 := Placed(t, seat, card);
    PlacedWellFormed(t, seat, card);
    var lead := t1.leadSuit.value;
    if IsCut(t, card) {
      CutResets(t1, lead);
      CheckSafeFrame(PickUp(t1, lead));
    } else if |t1.centerPile| == ActiveCount(t.players) {
      ClearFacts(t1, lead);
      assert |PileCards(t1.centerPile)| > 0;
      assert |PlayCard(t, seat, card).discard| > |t.discard|;
    }
  }

  /** Ending a trick from a sound state with an empty pile: checkSafePlayers and the new
      seat to move leave a valid state. */
  lemma TrickEndKeepsValid(t: Table, next: nat)
    requires Sound(t) && t.centerPile == [] && t.leadSuit == None && t.mandatoryCard == None
    requires next < |t.players|
    ensures Valid(CheckSafe(t).(currentTurn := next))
  {
    var r := CheckSafe(t).(currentTurn := next);
    CheckSafeFrame(t);
    MarkSafeFacts(t.players);
    assert CardsInPlay(r) == CardsInPlay(t);
    forall i | 0 <= i < |r.players| ensures Sorted(r.players[i].hand) {
      assert r.players[i].hand == t.players[i].hand;
    }
  }

  /** The pick-up of a cut moves the pile's cards into the victim's hand and loses none. */
  lemma PickUpConserves(t: Table, suit: Suit)
    requires WellFormed(t) && Leader(t.centerPile, suit) >= 0
    ensures CardsInPlay(PickUp(t, suit)) == CardsInPlay(t)
  {
    var v := Holder(t, suit);
    var pile := PileCards(t.centerPile);
    var t2 := PickUp(t, suit);
    assert multiset(t2.players[v].hand) == multiset(t.players[v].hand) + multiset(pile);
    HandsBagGrow(t.players, v, t2.players[v], multiset(pile));
    assert HandsBag(t2.players) == HandsBag(t.players) + multiset(pile);
  }

  /** A cut from a sound state with the mandatory card released is a valid state. */
  lemma CutKeepsValid(t: Table, suit: Suit)
    requires Sound(t) && t.mandatoryCard == None && Leader(t.centerPile, suit) >= 0
    ensures Valid(CutOutcome(t, suit))
  {
    var v := Holder(t, suit);
    var t2 := PickUp(t, suit);
    PickUpConserves(t, suit);
    forall i | 0 <= i < |t2.players| ensures Sorted(t2.players[i].hand) {
      if i != v {
        assert t2.players[i] == t.players[i];
      }
    }
    assert Sound(t2);
    TrickEndKeepsValid(t2, v);
  }

  /** A clear from a sound state with the mandatory card released is a valid state. */
  lemma ClearKeepsValid(t: Table, suit: Suit)
    requires Sound(t) && t.mandatoryCard == None && Leader(t.centerPile, suit) >= 0
    ensures Valid(ClearOutcome(t, suit))
  {
    var w := Holder(t, suit);
    var next := if |t.players[w].hand| == 0 then LeadPassSeat(t.players, w) else w;
    var t2 := Cleared(t, suit);
    assert CardsInPlay(t2) == CardsInPlay(t);
    assert Sound(t2);
    TrickEndKeepsValid(t2, next);
  }

  /** Passing the turn on after a card that follows the lead suit keeps a valid state. */
  lemma AdvanceKeepsValid(t: Table, seat: nat, card: Card)
    requires Valid(t) && seat < |t.players| && card in t.players[seat].hand && !IsCut(t, card)
    ensures var t1 := Placed(t, seat, card); Valid(t1.(currentTurn := NextSeat(t1.players, seat)))
  {
    var t1 := Placed(t, seat, card);
    PlacedKeepsSound(t, seat, card);
    var r := t1.(currentTurn := NextSeat(t1.players, seat));
    forall j | 0 <= j < |r.centerPile| ensures r.centerPile[j].card.suit == r.leadSuit.value {
      if j < |t.centerPile| {
        assert r.centerPile[j] == t.centerPile[j];
      }
    }
  }

  /** Card conservation and the other invariants survive every play of a held card:
      hands, pile, burnt and cleared cards always make up the deck, each card once. */
  lemma PlayKeepsValid(t: Table, seat: nat, card: Card)
    requires Valid(t) && seat < |t.players| && card in t.players[seat].hand
    ensures Valid(PlayCard(t, seat, card))
  {
    var t1 := Placed(t, seat, card);
    PlacedWellFormed(t, seat, card);
    var lead := t1.leadSuit.value;
    if IsCut(t, card) {
      PlacedKeepsSound(t, seat, card);
      CutKeepsValid(t1, lead);
      assert PlayCard(t, seat, card) == CutOutcome(t1, lead);
    } else if |t1.centerPile| == ActiveCount(t.players) {
      PlacedKeepsSound(t, seat, card);
      ClearKeepsValid(t1, lead);
      assert PlayCard(t, seat, card) == ClearOutcome(t1, lead);
    } else {
      AdvanceKeepsValid(t, seat, card);
      assert PlayCard(t, seat, card) == t1.(currentTurn := NextSeat(t1.players, seat));
    }
  }

  /** After the deal, with at most two cards burnt and nothing played, some seat holds a
      spade: of the ace, king and queen of spades at least one is not burnt. */
  lemma SomeSpadeHeld(t: Table)
    requires Conserved(t) && |t.burntCards| <= 2 && t.centerPile == [] && t.discard == []
    ensures exists i, c ::
              0 <= i < |t.players| && c in t.players[i].hand && c.suit == Spades && LowRank <= c.rank <= AceRank
  {
    var ace, king, queen := Card(Spades, AceRank), Card(Spades, KingRank), Card(Spades, KingRank - 1);
    var c := if ace !in t.burntCards then ace else if king !in t.burntCards then king else queen;
    assert c !in t.burntCards by {
      if c == queen {
        assert t.burntCards[0] != t.burntCards[1];
      }
    }
    DeckMultiplicity(c);
    assert multiset(PileCards(t.centerPile)) == multiset{};
    assert HandsBag(t.players)[c] == 1;
    var i := BagHasHand(t.players, c);
  }

  /** The UI's canPlay flag and handlePlayerClick agree on every card while the round is on. */
  lemma CanPlayAgreesWithClick(t: Table, card: Card)
    requires Valid(t) && t.phase == InPlay
    ensures CanPlay(t, card) <==> HumanCheck(t, card) == None
  {
  }

  /** The bot effect's skip of a safe seat keeps the invariant. */
  lemma SkipSafeKeepsValid(t: Table)
    requires Valid(t)
    ensures Valid(SkipSafe(t))
  {
    if t.phase == InPlay && t.players[t.currentTurn].status == Safe {
      assert t.mandatoryCard == None;
    }
  }

  /** After the skip, while the round is on and some seat is not safe, the seat to move is
      not safe. */
  lemma SkipSafeLandsOnActive(t: Table, s: nat)
    requires WellFormed(t) && t.phase == InPlay && s < |t.players| && t.players[s].status != Safe
    ensures SkipSafe(t).players[SkipSafe(t).currentTurn].status != Safe
  {
    if t.players[t.currentTurn].status == Safe {
      NextSeatIsNextActive(t.players, t.currentTurn, s);
    }
  }

  /** Before the first deal no move is accepted, and every one of the five scores is 0. */
  lemma InitialTableWaits(card: Card)
    ensures InitialTable().phase == Setup && InitialTable().players == []
    ensures |InitialTable().scores| == 5 && forall i :: 0 <= i < 5 ==> InitialTable().scores[i] == 0
    ensures HumanCheck(InitialTable(), card) == Some(RoundNotInPlay)
  {
  }
}
