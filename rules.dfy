/** The rules engine as functions of the state: validating a move, playing a card, and
    resolving the trick by a cut or a clear. */
module Rules {
  import opened Cards
  import opened State
  import opened Seats

  /** Index of the play the resolveCut / resolveClear scan settles on: the first play of
      `suit` whose rank no other play of `suit` exceeds; -1 when no play has that suit. */
  function Leader(pile: seq<Play>, suit: Suit): (i: int)
    ensures -1 <= i < |pile|
    ensures i == -1 <==> forall j :: 0 <= j < |pile| ==> pile[j].card.suit != suit
    ensures i >= 0 ==> pile[i].card.suit == suit
    ensures i >= 0 ==> forall j :: 0 <= j < |pile| && pile[j].card.suit == suit ==>
                         pile[j].card.rank <= pile[i].card.rank
    ensures i >= 0 ==> forall j :: 0 <= j < i && pile[j].card.suit == suit ==>
                         pile[j].card.rank < pile[i].card.rank
  {
    if pile == [] then -1
    else
      var front := pile[..|pile| - 1];
      var k := Leader(front, suit);
      var last := pile[|pile| - 1];
      assert forall j :: 0 <= j < |front| ==> front[j] == pile[j];
      if last.card.suit == suit && (k == -1 || last.card.rank > pile[k].card.rank) then |pile| - 1
      else k
  }

  /** Extending the pile by one play moves the leader to that play exactly when it is of
      `suit` and beats the leader so far. */
  lemma LeaderStep(pile: seq<Play>, suit: Suit, k: nat)
    requires k < |pile|
    ensures var l := Leader(pile[..k], suit);
      Leader(pile[..k + 1], suit) ==
        if pile[k].card.suit == suit && (l == -1 || pile[k].card.rank > pile[l].card.rank) then k else l
  {
    assert pile[..k + 1][..k] == pile[..k];
  }

  /** The seats whose status is playing, in seat order. */
  function PlayingSeats(ps: seq<Player>): (r: seq<nat>)
    ensures forall i: nat :: i in r <==> i < |ps| && ps[i].status == Playing
    ensures forall a, b :: 0 <= a < b < |r| ==> r[a] < r[b]
  {
    if ps == [] then []
    else
      var front := ps[..|ps| - 1];
      var r := PlayingSeats(front);
      assert forall i :: 0 <= i < |front| ==> front[i] == ps[i];
      assert forall a :: 0 <= a < |r| ==> r[a] in r;
      r + if ps[|ps| - 1].status == Playing then [|ps| - 1] else []
  }

  /** The number of seats whose status is playing: the size of a complete trick. */
  function ActiveCount(ps: seq<Player>): nat {
    |PlayingSeats(ps)|
  }

  /** checkSafePlayers' loop: an empty-handed playing seat becomes safe. */
  function MarkSafe(ps: seq<Player>): seq<Player> {
    seq(|ps|, i requires 0 <= i < |ps| =>
      if |ps[i].hand| == 0 && ps[i].status == Playing then ps[i].(status := Safe) else ps[i])
  }

  /** endRound: the round is over; the loser's score, if there is one, goes up by one. */
  function EndRound(t: Table, loser: Option<nat>): Table {
    t.(phase := Finished,
       scores := if loser.Some? && loser.value < |t.scores| then t.scores[loser.value := t.scores[loser.value] + 1]
                 else t.scores)
  }

  /** checkSafePlayers: mark safe seats, then end the round when at most one seat plays on. */
  function CheckSafe(t: Table): Table {
    var ps := MarkSafe(t.players);
    var remaining := PlayingSeats(ps);
    if |remaining| <= 1 then EndRound(t.(players := ps), if remaining == [] then None else Some(remaining[0]))
    else t.(players := ps)
  }

  /** The first part of playCardLogic: the card leaves the hand and joins the pile, the
      mandatory card is released, and the first card of a trick sets the lead suit. */
  function Placed(t: Table, seat: nat, card: Card): Table
    requires seat < |t.players|
  {
    t.(players := t.players[seat := t.players[seat].(hand := Remove(t.players[seat].hand, card))],
       centerPile := t.centerPile + [Play(seat, card)],
       mandatoryCard := None,
       leadSuit := if t.centerPile == [] then Some(card.suit) else t.leadSuit)
  }

  /** Playing `card` onto a non-empty pile in another suit than the lead cuts the trick. */
  predicate IsCut(t: Table, card: Card) {
    t.centerPile != [] && Some(card.suit) != t.leadSuit
  }

  /** The seat holding the highest card of `suit` on the pile: the cut's victim, the clear's winner. */
  function Holder(t: Table, suit: Suit): nat
    requires WellFormed(t) && Leader(t.centerPile, suit) >= 0
  {
    t.centerPile[Leader(t.centerPile, suit)].seat
  }

  /** resolveCut before checkSafePlayers: the victim takes the pile into its hand, re-sorted;
      the pile and lead suit are cleared, and a bot victim's suit is recorded as one to avoid. */
  function PickUp(t: Table, suit: Suit): Table
    requires WellFormed(t) && Leader(t.centerPile, suit) >= 0
  {
    var v := Holder(t, suit);
    var victim := t.players[v];
    t.(players := t.players[v := victim.(hand := SortHand(victim.hand + PileCards(t.centerPile)))],
       centerPile := [],
       leadSuit := None,
       avoidSuits := if victim.isBot then t.avoidSuits + [suit] else t.avoidSuits)
  }

  /** resolveCut on the pile including the cutting card. */
  function CutOutcome(t: Table, suit: Suit): Table
    requires WellFormed(t) && Leader(t.centerPile, suit) >= 0
  {
    CheckSafe(PickUp(t, suit)).(currentTurn := Holder(t, suit))
  }

  /** avoidSuits without `suit` (Array.prototype.filter). */
  function Without(suits: seq<Suit>, suit: Suit): (r: seq<Suit>)
    ensures forall s :: s in r <==> s in suits && s != suit
  {
    if suits == [] then []
    else (if suits[0] == suit then [] else [suits[0]]) + Without(suits[1..], suit)
  }

  /** resolveClear before checkSafePlayers: the pile leaves play and the suit is no longer avoided. */
  function Cleared(t: Table, suit: Suit): Table {
    t.(centerPile := [],
       leadSuit := None,
       avoidSuits := Without(t.avoidSuits, suit),
       discard := t.discard + PileCards(t.centerPile))
  }

  /** resolveClear on a complete trick. */
  function ClearOutcome(t: Table, suit: Suit): Table
    requires WellFormed(t) && Leader(t.centerPile, suit) >= 0
  {
    var w := Holder(t, suit);
    var next := if |t.players[w].hand| == 0 then LeadPassSeat(t.players, w) else w;
    CheckSafe(Cleared(t, suit)).(currentTurn := next)
  }

  lemma PlacedWellFormed(t: Table, seat: nat, card: Card)
    requires WellFormed(t) && seat < |t.players|
    ensures WellFormed(Placed(t, seat, card))
    ensures Leader(Placed(t, seat, card).centerPile, Placed(t, seat, card).leadSuit.value) >= 0
  {
    var p := Placed(t, seat, card).centerPile;
    assert p[0].card.suit == Placed(t, seat, card).leadSuit.value;
  }

  /** playCardLogic: place the card, then cut, clear or pass the turn on. */
  function PlayCard(t: Table, seat: nat, card: Card): Table
    requires WellFormed(t) && seat < |t.players|
  {
    var t1 := Placed(t, seat, card);
    PlacedWellFormed(t, seat, card);
    if IsCut(t, card) then CutOutcome(t1, t1.leadSuit.value)
    else if |t1.centerPile| == ActiveCount(t.players) then ClearOutcome(t1, t1.leadSuit.value)
    else t1.(currentTurn := NextSeat(t1.players, seat))
  }

  /** The bot effect's rule: when the seat to move is safe and the round is on, pass the turn on. */
  function SkipSafe(t: Table): Table
    requires WellFormed(t)
  {
    if t.phase == InPlay && t.players[t.currentTurn].status == Safe
    then t.(currentTurn := NextSeat(t.players, t.currentTurn))
    else t
  }

  /** Why a move is refused. */
  datatype Refusal = RoundNotInPlay | NotYourTurn | MustPlayMandatory | MustFollowSuit

  /** hand.some(c => c.suit === leadSuit); a missing lead suit matches nothing. */
  predicate HoldsSuit(hand: seq<Card>, lead: Option<Suit>) {
    exists i :: 0 <= i < |hand| && Some(hand[i].suit) == lead
  }

  /** The mandatory-card and follow-suit checks of handlePlayerClick, for any seat. */
  function SuitCheck(t: Table, seat: nat, card: Card): Option<Refusal>
    requires seat < |t.players|
  {
    if t.mandatoryCard.Some? then
      (if card == t.mandatoryCard.value then None else Some(MustPlayMandatory))
    else if t.centerPile != [] && HoldsSuit(t.players[seat].hand, t.leadSuit) && Some(card.suit) != t.leadSuit then
      Some(MustFollowSuit)
    else None
  }

  /** handlePlayerClick's checks for the human at seat 0; None means the move is played. */
  function HumanCheck(t: Table, card: Card): Option<Refusal>
    requires t.phase == InPlay ==> 0 < |t.players|
  {
    if t.phase != InPlay then Some(RoundNotInPlay)
    else if t.currentTurn != 0 then Some(NotYourTurn)
    else SuitCheck(t, 0, card)
  }

  /** The canPlay flag the hand view computes for each of the human's cards. */
  predicate CanPlay(t: Table, card: Card)
    requires 0 < |t.players|
  {
    var isMyTurn := t.currentTurn == 0;
    var isBlocked := t.mandatoryCard.Some? && card != t.mandatoryCard.value;
    isMyTurn && !isBlocked &&
      (|t.centerPile| == 0 || Some(card.suit) == t.leadSuit || !HoldsSuit(t.players[0].hand, t.leadSuit))
  }
}
