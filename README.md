# RoyalCourt rules engine in Dafny

RoyalCourt is a trick-taking shedding game for four or five seats: seat 0 is the human, the
other seats are bots. This project models the rules engine inside the game's React component
(`src/App.jsx`) and proves what it guarantees:

- building the 52-card deck, the Fisher–Yates shuffle and the deal (13 cards for four seats,
  10 for five with two burnt cards), and sorting each hand by suit order (spades, hearts, clubs,
  diamonds), then rank from high to low;
- `findFirstPlayer`: the highest spade held becomes the mandatory opening card, and its holder
  moves first;
- `handlePlayerClick` and the `canPlay` flag: whose turn it is, the mandatory card, follow suit;
- `playCardLogic`, `resolveCut`, `resolveClear`, `checkSafePlayers`, `endRound` and
  `advanceTurn`;
- the bot effect's skip of a safe seat, and `botTurn`'s choice of card.

The component's state is one record, `State.Table`. The rules are pure functions of that
record (modules `Rules`, `Seats` and `Bot`). The handlers that loop or mutate in the source are
methods (modules `Engine`, `Cards`, `Shuffle`, `Seats` and `Bot`). Each method is either
proved to compute its rule function, so every lemma about a rule (module `Properties`) also
holds of the handler, or, for `StartGame`, `DealHands` and `FindFirstPlayer`, its contract
states the properties of its result directly. `Math.random` draws are parameters: reals in [0, 1), with an index computed as
`floor(draw * n)`, as in the source.

The invariant `State.Valid` holds after `StartGame` and after every accepted move, human or
bot. It is made of:

- card conservation: hands, pile, burnt cards and the cards cleared from play make up the deck,
  each card once;
- every hand is sorted;
- every pile card follows the lead suit, which the first pile card sets;
- the mandatory card, while it is set, is held by the seat to move, and that seat is playing.

The bot effect's skip of a safe seat keeps the invariant too (`Properties.SkipSafeKeepsValid`).

Where the code departs from the usual way the game is described, the model follows the code:

- A seat whose hand empties stays `playing` until the next cut or clear. `checkSafePlayers` runs
  only when a cut or a clear resolves, and no rule ever turns a safe seat back into a playing
  one (`Properties.SafeNeverReverts`). This includes a safe seat that picks up a pile.
- A trick clears when the pile's length equals the number of seats whose status is `playing`
  before the move. This is a live count, not a snapshot taken when the trick was led.
- After a clear whose winner has no cards, the lead passes to the first seat after the winner
  that is neither safe nor empty-handed. The walk is bounded by the seat count and returns to the
  winner when no such seat exists.
- A bot that cannot follow suit plays the last card of its sorted hand. That is the lowest card
  of the last suit it holds, not necessarily its lowest rank (`Bot.CutsWithLastCard`).
- A bot leading draws its suit among the held suits not in `avoidSuits`, or among all held suits
  when every one is avoided. With a king or an ace in that suit it plays the suit's highest
  card. Otherwise it plays the highest when a second draw exceeds 0.3, and the lowest when it
  does not.
- Seats 4 and 5 are the only counts, there is no lobby and no bot fill, and the game runs on
  one device: nothing is replicated.

## Model

| member | source | states |
|---|---|---|
| Cards.CreateDeck | src/App.jsx:35-49 | the nested loops build exactly the deck `FullDeck`, suit by suit and 2 up to A |
| Cards.FullDeckIsDeck | src/App.jsx:5-7 | the deck has 52 cards, no card twice, and holds exactly the cards with a rank from 2 to 14 |
| Cards.DeckMultiplicity | src/App.jsx:35-49 | each card is in the deck once if it is real and not at all otherwise |
| Cards.CompareIsTotalOrder | src/App.jsx:97-100 | the hand comparator (suit order, then rank descending) is a total order: total, antisymmetric, transitive |
| Cards.Insert | src/App.jsx:97-100 | inserting into a sorted hand gives a sorted hand with one more copy of the card |
| Cards.SortHand | src/App.jsx:97-100 | the sort gives a sorted permutation of the hand |
| Cards.SortedPermutationUnique | src/App.jsx:264-267 | two sorted permutations of the same cards are equal, so any sort with this comparator returns the same hand |
| Cards.Remove | src/App.jsx:201 | filtering a card out takes away every copy of it and keeps every other card |
| Cards.RemoveKeepsSorted | src/App.jsx:201 | filtering keeps a sorted hand sorted |
| Shuffle.Pick | src/App.jsx:55 | `floor(draw * n)` with a draw in [0, 1) is an index below n |
| Shuffle.SwapKeepsCards | src/App.jsx:56 | a swap of two entries keeps the same cards |
| Shuffle.ShufflePermutes | src/App.jsx:52-59 | the passes of the shuffle, each a swap, give a permutation of the deck |
| Shuffle.FisherYatesShuffle | src/App.jsx:52-59 | the in-place loop on a copy computes `ShuffleFrom` from the last index down to 1, which is a permutation of the deck |
| State.HandsBagUpdate | src/App.jsx:259-261 | replacing one hand changes the cards held by exactly the old and new hands |
| State.HandsBagGrow | src/App.jsx:261 | a hand that gains some cards adds exactly those cards to the cards held |
| State.HandsBagShrink | src/App.jsx:201 | a hand that loses some cards takes exactly those cards out of the cards held |
| State.HandsBagAppend | src/App.jsx:102-108 | a seat added at the end adds its hand to the cards held |
| State.HeldOnce | src/App.jsx:201 | in a conserved state a held card is a real card held once, so filtering it by id removes one card |
| State.PileCardsAreCards | src/App.jsx:204 | in a conserved state every pile card is a real card |
| Engine.SpliceTop | src/App.jsx:97 | the top k cards, sorted, plus the cards below them are the deck, and the sorted top has k cards |
| Engine.DealKeepsSeats | src/App.jsx:94-109 | the seat dealt next gets a sorted hand of `CardsPerPlayer` cards (13 for four seats, 10 for five), is playing, and is a bot unless it is seat 0 |
| Engine.DealKeepsCards | src/App.jsx:96-109 | one pass of the deal loses no card |
| Engine.DealHands | src/App.jsx:94-112 | the deal gives every seat a sorted hand of 13 or 10 cards, playing, bot exactly for seats 1 and up; the hands and the 0 or 2 leftover cards share out the deck |
| Engine.StartGame | src/App.jsx:86-130 | the dealt table is valid and in play, scores are carried over, hands are as dealt, two burnt cards in the five-seat game, pile, lead, avoid list empty; the mandatory card is a spade held by the seat to move, no earlier seat holds it, and no spade held anywhere outranks it |
| Properties.SomeSpadeHeld | src/App.jsx:132-151 | after a deal with at most two burnt cards some seat holds a spade, so the search always finds a starter |
| Engine.FindFirstPlayer | src/App.jsx:132-151 | the search from the ace down returns -1 exactly when no spade is held; otherwise the card is a spade in the starter's hand, held by no earlier seat, and no held spade outranks it |
| Rules.Leader | src/App.jsx:241-249 | the scan's choice: -1 exactly when no play has the suit, otherwise a play of the suit that no play of the suit outranks and that strictly beats every earlier play of the suit |
| Engine.ScanHighest | src/App.jsx:241-249 | the forEach with `highestRank` and `victimId` returns the seat of `Leader`'s play, or -1; each step of the loop follows `Rules.LeaderStep`, the one-play update of the scan |
| Rules.PlayingSeats | src/App.jsx:229 | a seat is listed exactly when its status is playing, in increasing order |
| Rules.Without | src/App.jsx:313 | the filtered avoid list holds exactly the old entries other than the suit |
| Rules.PlacedWellFormed | src/App.jsx:204-218 | after the card joins the pile, the lead suit is the first pile card's suit and some pile card has it |
| Properties.PlacedMovesOneCard | src/App.jsx:200-218 | the mover's hand loses exactly the played card; every other seat is unchanged; the pile gains (seat, card) at the end; the mandatory card is released; the lead suit is set when the pile was empty |
| Properties.PlacedKeepsSound | src/App.jsx:200-205 | placing a held card keeps every card accounted for and every hand sorted |
| Properties.PlayCardBranches | src/App.jsx:220-234 | a play cuts exactly when the pile was non-empty and the card is off the lead suit; otherwise it clears exactly when the pile reaches the number of playing seats; otherwise the pile is kept and the turn passes to `NextSeat` |
| Engine.PlayCardLogic | src/App.jsx:196-235 | the handler computes `PlayCard`: placement, then cut, clear or advance |
| Properties.PlayKeepsValid | src/App.jsx:196-317 | a legal play of a held card from a valid state leads to a valid state, whichever branch it takes |
| Properties.AdvanceKeepsValid | src/App.jsx:232-233 | a play that follows the lead suit and passes the turn keeps the state valid |
| Engine.ResolveCut | src/App.jsx:237-276 | the handler computes `CutOutcome` |
| Properties.CutVictim | src/App.jsx:240-249 | the victim, who leads next, played a lead-suit card that no lead-suit card on the pile outranks |
| Properties.CutPickUp | src/App.jsx:258-267 | the victim's hand gains exactly the pile's cards and is sorted; no other hand changes |
| Properties.CutResets | src/App.jsx:256 | after a cut the pile and lead suit are empty, nothing is discarded, and a bot victim's lead suit is appended to the avoid list |
| Properties.PickUpConserves | src/App.jsx:258-261 | the pick-up moves the pile into a hand without losing a card |
| Properties.CutKeepsValid | src/App.jsx:237-276 | a cut from a sound state with the mandatory card released is valid |
| Engine.ResolveClear | src/App.jsx:278-317 | the handler computes `ClearOutcome` |
| Properties.ClearFacts | src/App.jsx:278-317 | the winner played the highest lead-suit card; the winner leads if it still has cards, otherwise `LeadPassSeat` does; no hand changes; the pile's cards leave play; the suit leaves the avoid list |
| Properties.ClearKeepsValid | src/App.jsx:278-317 | a clear from a sound state with the mandatory card released is valid |
| Seats.PassLead | src/App.jsx:299-305 | the bounded lead-pass loop computes `LeadPassSeat` |
| Seats.LeadPassFinds | src/App.jsx:294-305 | when the winner is not safe, the lead goes to the first seat after the winner that is neither safe nor empty-handed: every seat passed over is safe or empty-handed, and the lead returns to the winner exactly when every other seat is safe or empty-handed |
| Engine.CheckSafePlayers | src/App.jsx:319-333 | the handler computes `CheckSafe` |
| Properties.CheckSafeFrame | src/App.jsx:319-333 | checkSafePlayers changes only statuses, the phase and the scores |
| Properties.MarkSafeFacts | src/App.jsx:320-326 | afterwards a seat is safe exactly when it was safe or its hand is empty; hands, bots and the cards held are unchanged |
| Properties.CheckSafeRoundEnd | src/App.jsx:328-344 | checkSafePlayers, through `Rules.EndRound`, finishes the round exactly when at most one seat plays on; with two or more the phase and scores stay; with none no score changes; with one, that seat is the only playing one and only its score goes up by one |
| Properties.CheckSafeKeepsSafe | src/App.jsx:320-326 | checkSafePlayers keeps the seats and keeps a safe seat safe |
| Properties.SafeNeverReverts | src/App.jsx:196-333 | no play, whatever its branch, turns a safe seat back to playing |
| Properties.TrickEndKeepsValid | src/App.jsx:269-275 | checkSafePlayers on a sound state with an empty pile, and any seat to move, give a valid state |
| Seats.SeatAfter | src/App.jsx:347 | `(cur + k) % n` is a seat |
| Seats.SeatReached | src/App.jsx:347-351 | every seat lies 1 to n places after the current one, n places exactly for the current seat |
| Seats.NextOffset | src/App.jsx:348-351 | the loop's stopping offset: every seat before it is safe, and the seat at it is not, unless the bound is hit |
| Seats.AdvanceTurn | src/App.jsx:346-354 | the bounded loop computes `NextSeat` |
| Seats.NextSeatIsNextActive | src/App.jsx:346-354 | when some seat is not safe, the turn goes to a seat that is not safe, and every seat passed over is safe |
| Engine.SkipSafeSeat | src/App.jsx:357-366 | the effect computes `SkipSafe`: a safe seat to move in play is passed over with `NextSeat`; from a valid state the result is valid |
| Properties.SkipSafeKeepsValid | src/App.jsx:363-366 | passing over a safe seat to move keeps the state valid |
| Properties.SkipSafeLandsOnActive | src/App.jsx:363-366 | while the round is on and some seat is not safe, the seat to move after the skip is not safe |
| Engine.HandlePlayerClick | src/App.jsx:169-194 | the refusal is `HumanCheck`: not in play, not seat 0's turn, a card other than the mandatory one, or an off-suit card while holding the lead suit; a refused move changes nothing; an accepted one is `PlayCard` for seat 0, and from a valid state with a held card the result is valid |
| Properties.InitialTableWaits | src/App.jsx:62-82 | the state before the first deal (`State.InitialTable`) is in setup with no seats and five zero scores, and handlePlayerClick refuses every card on it because the round is not in play |
| Properties.CanPlayAgreesWithClick | src/App.jsx:597-601 | in a valid state in play, the hand view's `canPlay` flag (`Rules.CanPlay`) holds exactly when handlePlayerClick accepts the card |
| Bot.SuitsOf | src/App.jsx:391-395 | the keys of `suitsInHand`: exactly the suits held, each once |
| Bot.OfSuit | src/App.jsx:391-395 | the group of a suit: exactly the hand's cards of that suit |
| Bot.OfSuitSorted | src/App.jsx:391-395 | the group of a suit, taken from a sorted hand, is sorted |
| Bot.OfSuitEmpty | src/App.jsx:391-395 | a suit's group is empty exactly when the suit is not held |
| Bot.GroupBySuit | src/App.jsx:391-395 | the forEach builds keys in order of first appearance and, for each key, the cards of that suit in hand order |
| Bot.Allowed | src/App.jsx:397 | `validSuits` holds exactly the held suits not avoided |
| Bot.LeadSuits | src/App.jsx:397-398 | `suitsToChooseFrom` holds exactly the held suits that are not avoided, or every held suit when all of them are avoided; it is non-empty for a non-empty hand |
| Bot.ChosenSuit | src/App.jsx:397-400 | the drawn suit is held, and it is not avoided whenever the hand holds a suit that is not avoided |
| Bot.ChooseLead | src/App.jsx:389-415 | the lead branch with its `suitsInHand` map computes `LeadCard`; `Bot.LeadCardFromSuit` shows that the drawn suit's cards are non-empty and that the lead takes `PlayFromSuit` from them |
| Bot.LeadCard | src/App.jsx:389-415 | the lead card is in the hand |
| Bot.LeadAvoids | src/App.jsx:397-400 | a lead is not in an avoided suit while the hand holds a suit that is not avoided |
| Bot.FromSuitEnds | src/App.jsx:406-414 | the card `Bot.PlayFromSuit` takes from sorted cards of one suit is the highest or the lowest of them: the highest when they hold a king or an ace (`Bot.HasPowerCard`) or when the coin draw exceeds 0.3, the lowest otherwise |
| Bot.LeadHighOrLow | src/App.jsx:401-414 | from a sorted hand the lead is the highest or the lowest held card of its suit: the highest with a king or an ace in that suit or when the coin draw exceeds 0.3, the lowest otherwise |
| Bot.FollowCard | src/App.jsx:416-428 | the follow card is in the hand |
| Bot.FollowsHighest | src/App.jsx:418-422 | holding the lead suit, a bot follows with its highest card of that suit |
| Bot.SuitRunEnds | src/App.jsx:418-422 | the first card of a sorted one-suit run is its highest and the last its lowest |
| Bot.LastCardIsLowest | src/App.jsx:426 | the last card of a sorted hand is in the last suit held and is the lowest of that suit |
| Bot.CutsWithLastCard | src/App.jsx:423-427 | without the lead suit, a bot cuts with the last card of its hand, the lowest of its last suit |
| Bot.BotChoice | src/App.jsx:374-429 | the card chosen is in the hand of the seat to move |
| Bot.BotChoiceIsLegal | src/App.jsx:374-430 | a bot's card passes the checks a human move must pass: the mandatory card while it is due, the lead suit whenever it is held |
| Bot.ChooseCard | src/App.jsx:374-429 | the handler's choice computes `BotChoice` |
| Bot.BotTurn | src/App.jsx:374-430 | the bot plays `BotChoice` through `PlayCard`, and from a valid state the result is valid |

## Left out

- Rendering, styles and `getHandStyle`/`getSuitStyle`: presentation only.
- `playSound` and the speech API: foreign I/O.
- The `setTimeout` delays and the React effect scheduling: each handler runs as one direct step. React's stale closures and the shared player objects that `[...players]` copies are not modelled; the model reads the state that the step before it wrote.
- `Math.random`: its draws are parameters, and nothing is said about their distribution.
- The game log, the `winners` list, `showBurnt`, `isFirstMoveOfGame` and `roundLoser`: display-only state.
- Scores are kept by seat, not by display name. The names "You" and "Bot 1" to "Bot 4" are one per seat, so this is the same map.
- The "Everyone" case of `endRound`, where no seat plays on: the source increments a score key that was never set. The model changes no score.
- `playerCount` is the number of seats of the table, which `startGame` sets together with the seats.
- Card ids: a card is identified by its suit and rank, which is what its id string encodes.
- Engine.HandlePlayerClick: requires, while the round is on, that the state is well-formed and the clicked card is a real card. The hand view offers only the human's own cards, and every state reached from `StartGame` through these steps is valid, as long as the precondition of `Bot.BotTurn` holds at each bot move (see its line).
- Bot.BotTurn: requires a valid state and a non-empty hand for the seat to move. The effect calls botTurn only for a playing seat, and a playing seat with an empty hand has no card for the source to play.
- Engine.DealHands: states each hand's size, order and status, and that hands and leftover share out the deck, but not which positions of the shuffled deck each hand came from.
- Engine.StartGame: the final state is stated by its invariant and the deal's properties, not as the exact table `startGame` writes.
