# Blackjack basic-strategy simulator, modelled in Dafny

The program plays many rounds of blackjack. Each round uses one shoe of
several 52-card decks. A single player hand follows a fixed basic-strategy
policy, and the dealer draws to 17. The program tallies the signed winnings
of every round twice: once overall, and once per number of player hands the
round ended with. That number is one, or two after a split.

This project models one round and the tally loop, with value semantics:

- `Cards`: ranks, suits, cards and the player hand. The hand holds its cards, its stake (2 at the start) and a split flag.
- `Deck`: builds the shoe, shuffles it, draws from it and puts cards back. The shuffle's random numbers are a parameter `picks`. Cards are drawn from the end of the sequence, which is the top of the shoe.
- `Valuation`: the non-busting totals of a hand, in ascending order (`GetValue`), and the blackjack test.
- `Strategy`: the policy as the program writes it, a nested conditional. The same policy is also written independently as a chart of row strings, with a proof that the two agree on every hand.
- `Settlement`: settles a hand through the blackjack rule, then busts, then a comparison of best totals.
- `Dealer`: the dealer's turn.
- `Turns` and `Hands`: the bookkeeping of a player's turn and of the list of player hands. A split appends a hand to that list.
- `Game`: deals a round, plays it, settles it and returns the cards to the shoe.
- `Buckets` and `Tally`: the overall tally and the per-hand-count tallies.
- `Simulation`: the loop of rounds.

A draw from an empty shoe ends a round with `EmptyShoe`, and only such a
draw does: every operation that can fail states that it failed because the
round, played by the policy from the top of the shoe, reached a draw the
shoe could not serve. The model also proves that no round needs more than
`RoundNeed` = 61 cards. A shoe at least that large therefore never runs out,
and a smaller one runs out only when its cards actually fall short.

## Model

| member | source | states |
|---|---|---|
| Cards.RankIndex | main.ts:3-17 | every rank sits at its index in the fixed list of card values |
| Deck.NewShoe | main.ts:41-53 | a shoe of `nbDeck` decks has 52·nbDeck cards and holds every (rank, suit) card exactly nbDeck times |
| Deck.Shuffle | main.ts:56-66 | the Fisher–Yates shuffle driven by the given picks yields a permutation of the shoe |
| Deck.Swap | main.ts:61-64 | swapping two positions exchanges those two cards, leaves every other position alone and keeps the multiset |
| Deck.DrawCard | main.ts:68-75 | with no index the last card is drawn; the drawn card is the one at the index; the rest keeps its order; together they hold the shoe's cards |
| Deck.DrawTop | main.ts:68-71 | a draw with no index takes the top card and leaves the cards beneath it in order |
| Deck.PutBackCard | main.ts:77-79 | returned cards are appended behind the shoe in their order, and nothing else changes |
| Deck.DrawManyTakesTop | main.ts:68-75 | k draws from the top take the last k cards, the last one first, and leave the prefix |
| Deck.DrawManyPutBack | main.ts:68-79 | putting drawn cards back in reverse draw order restores the shoe exactly; in draw order, it restores the shoe's length and contents |
| Valuation.GetValue | main.ts:395-429 | None exactly when every reachable total exceeds 21; otherwise a non-empty, strictly ascending list holding exactly the reachable totals of 21 or less |
| Valuation.SumsClosedForm | main.ts:396-419 | a total is reachable iff it lies between the hard total and hard + 10·aces and differs from the hard total by a multiple of 10 |
| Valuation.GetValueClosedForm | main.ts:395-429 | the result is None when the hard total exceeds 21, [hard, hard+10] when an ace can count 11 without busting, and [hard] otherwise |
| Valuation.TotalsCount | main.ts:395-429 | a hand has one or two non-busting totals; one when it holds no ace; two totals are ten apart; the first is the hard total |
| Valuation.BustIffHardOver | main.ts:421-428 | a hand busts exactly when its hard total exceeds 21 |
| Valuation.TwoCardsNeverBust | main.ts:395-429 | no two-card hand busts |
| Valuation.BestClosedForm | main.ts:217-218 | the best total of a non-busting hand is its hard total plus 10 when an ace can count 11 without passing 21, and its hard total otherwise |
| Valuation.CardsAtMostBest | main.ts:395-429 | a non-busting hand holds no more cards than its hard total, which is at most its best total, which is at most 21 |
| Valuation.IsBlackjack | main.ts:431-437 | true exactly for a two-card hand that can reach 21 |
| Valuation.BlackjackIsAceAndTen | main.ts:431-437 | a blackjack is exactly an ace together with a ten-valued card |
| Valuation.ExampleThreeAces | main.ts:395-429 | three aces give the totals [3, 13] |
| Strategy.UpValueIsLowestTotal | main.ts:230 | the dealer's up-card value is the lowest total of that card alone, between 1 and 10 (an ace counts 1) |
| Strategy.PairsNeverBust | main.ts:238-240 | a pair always has a non-busting total |
| Strategy.GetDecision | main.ts:228-336 | a busted hand and a split hand starting with an ace stand; Split is chosen only for an unsplit pair; an unsplit pair of aces or eights always splits |
| Strategy.GetDecisionFollowsChart | main.ts:228-336 | for every hand and up-card, the decision equals the basic-strategy chart entry for the hand's row (pair, soft or hard total) and the up-card's column |
| Strategy.PairRowsAgree | main.ts:240-275 | the pair rows of the chart match the pair branch of the decision |
| Strategy.SoftRowsAgree | main.ts:276-309 | the soft rows of the chart match the soft branch of the decision |
| Strategy.HardRowsAgree | main.ts:310-335 | the hard rows of the chart match the hard branch of the decision |
| Settlement.ResolveBlackjack | main.ts:439-451 | a verdict exists iff either side has blackjack: a push when both do, 1.5 times the stake for the player alone, minus the stake for the dealer alone |
| Settlement.ResolveBlackjackClosedForm | main.ts:431-451 | the verdict is a push when both hands are an ace with a ten-valued card, 1.5·stake when only the player's is, −stake when only the dealer's is, and none otherwise |
| Settlement.DetermineWinner | main.ts:201-226 | the result is −stake, 0, stake or 1.5·stake; whenever either side has a blackjack the result is exactly the blackjack verdict; a busted player loses even if the dealer busts; a busted dealer pays the stake; otherwise the higher best total wins and equal totals push |
| Settlement.DetermineWinnerClosedForm | main.ts:201-226 | the result is the blackjack verdict if there is one; else −stake when the player's hard total passes 21; else +stake when the dealer's does; else a push on equal closed-form best totals, and otherwise the higher one wins |
| Settlement.SettleBounds | main.ts:186-189 | with stakes of 2 or 4, a round's total lies between −4 and +6 per hand |
| Dealer.DealerTurn | main.ts:338-350 | the dealer draws from the top only, keeps its cards and ends bust or at a best total of at least 17, never having drawn while standing; it runs out only when it has drawn the whole shoe without ever standing, and never with DealerNeed cards left |
| Dealer.StandingNeverRunsOut | main.ts:338-350 | a dealer who already stands draws no card, so it never runs out, however small the shoe |
| Dealer.DealerDraw | main.ts:345-348 | one draw by a dealer below 17 keeps the invariant of the dealer's turn |
| Turns.HandCardsAppend | main.ts:147-149 | the cards of two lists of hands are the cards of the first list followed by those of the second |
| Turns.DrawOntoDraws | main.ts:367 | a hit is one draw from the top onto the hand |
| Turns.SplitOffDraws | main.ts:373-383 | a split gives the new hand the pair's second card and one draw, at the same stake, marked split; the hand keeps its first card, takes the next draw and is marked split |
| Turns.SplitOffMoves | main.ts:373-383 | a split moves cards but loses none |
| Turns.DrawnDraw | main.ts:366-367 | a hit on a non-busted hand keeps the turn's invariant: cards come from the top, none is lost, the hand was not bust before any draw, and the draws stay within bound |
| Turns.DrawnSplit | main.ts:372-384 | splitting an unsplit pair keeps the turn's invariant |
| Turns.DoubleFinishes | main.ts:368-371 | a double draws exactly one card, doubles the stake and ends the turn |
| Turns.BlackjackPlaysNothing | main.ts:352-360 | a turn that followed the policy on a hand with a blackjack on the table drew nothing and split nothing: the hand and the shoe are as they were |
| Turns.PlayedHit | main.ts:363-367 | a hit the policy chose keeps the record that every card drawn so far was drawn when the policy said Hit; the turn goes on unless the new hand makes a blackjack on the table |
| Turns.PlayedDouble | main.ts:368-371 | a double the policy chose ends a turn in which every earlier card was a policy Hit and the last one the policy's Double, at twice the stake |
| Turns.PlayedSplit | main.ts:372-391 | a split the policy chose on the dealt pair is recorded as the policy's Split of the hand the turn started with; the turn goes on unless the new hand makes a blackjack on the table |
| Hands.AfterTurn | main.ts:180-184 | after a hand's turn, the hand list keeps its shape (one hand, or two split hands at stake 2 or 4), every card is accounted for, and the turn drew within the list's bound |
| Hands.DealKeepsCards | main.ts:175-179 | the deal gives the player the top two cards at stake 2 and the dealer the next two, and keeps every card |
| Game.ReturnHandsAppends | main.ts:147-149 | returning the hands appends every hand's cards behind the shoe, first hand first |
| Game.Act | main.ts:362-392 | one pass of the loop does what the policy decides for the hand: Stand ends the turn unchanged; Hit draws the top card and goes on unless a blackjack is now on the table; Double draws one card, doubles the stake and ends; Split moves the second card to a new split hand with the next draw, draws one more onto the hand and goes on unless a blackjack is on the table; it runs out exactly when the action needs more cards than the shoe holds (a Hit or Double on an empty shoe, a Split with fewer than two cards), never with the turn's bound of cards |
| Game.ActKeeps | main.ts:362-392 | a pass of the loop keeps the turn's invariant and the record that the turn followed the policy; a finished pass leaves a finished turn, an unfinished one a shorter shoe |
| Game.PlayerTurn | main.ts:352-393 | a hand with a blackjack on the table is returned as it is with the shoe untouched; otherwise the turn ends on a Stand, a Double or a blackjack, every card drawn onto the hand was drawn when the policy said Hit (the last one possibly on its Double), a split happened only when the policy said Split, and cards come from the top only and none is lost; it fails only when the turn, played by the policy from the top of the shoe, reaches an action that needs more cards than are left |
| Game.SettleHands | main.ts:186-189 | a round's result is the sum of every hand's settlement |
| Game.Deal | main.ts:175-179 | the deal succeeds iff the shoe holds four cards; the player gets the top two at stake 2 and the dealer the next two |
| Game.PlayHands | main.ts:180-184 | the dealt hand plays its turn by the policy from the shoe left after the deal; if it split, the split hand then plays from the shoe the first turn left and splits no further; the returned turns are these, the hand list is their end hands, the dealer's cards are untouched and every card is kept; it fails only when the dealt hand's turn runs out, or when that hand split and the split hand's turn then runs out |
| Game.Play | main.ts:174-199 | the round is the one played from the shoe: the player's hand is its top two cards and the dealer's starts with the next two; the hands play in turn by the policy; the dealer draws from what they left until it stands; the result is the sum of the settlements and lies between −8 and 12; every card is kept and goes back; it fails only when the shoe cannot deal, a hand's turn runs out, or the dealer draws the rest of the shoe without standing; any shoe of 61 cards completes the round |
| Game.BlackjackRound | main.ts:352-360 | in a round dealt a blackjack on the table, the single dealt hand is settled as it was dealt |
| Game.ExampleBlackjackRound | main.ts:174-199 | a round dealing the ace of spades and king of hearts to the player and a nine and a six to the dealer ends with that one hand and pays +3, whatever cards lie beneath |
| Game.BlackjackNeverRunsOut | main.ts:352-360 | a hand with a blackjack on the table never runs out of cards, since its turn draws nothing |
| Game.BlackjackHandsNeverRunOut | main.ts:180-184 | the hands of a round dealt a blackjack on the table never run out of cards |
| Game.StandNeverRunsOut | main.ts:362-365 | a hand the policy stands on never runs out of cards, since its turn draws nothing |
| Game.ExampleNineteenStands | main.ts:310-335 | a hard 19 stands against a dealer's ten |
| Game.ExampleStandNeedsNoCard | main.ts:352-393 | a hard 19 against a dealer's ten does not run out even from an empty shoe, though its bound is 22 cards |
| Game.BlackjackStandingRoundNeverRunsOut | main.ts:174-185 | a round dealt a blackjack on the table, with the dealer standing on its first two cards, never runs out of cards, whatever the shoe's size |
| Game.ExampleFourCardRound | main.ts:174-199 | a four-card shoe dealing the player an ace and a king and the dealer a ten and a seven does not run out, so the round completes from it |
| Game.RoundEndCards | main.ts:147-150 | putting back the players' cards and then the dealer's restores the shoe's length and contents |
| Simulation.Round | main.ts:120-150 | the outcome is the round played from a reordering of the shoe; the refilled shoe is what the round left followed by the players' cards and then the dealer's, and holds the same cards; the round ends with one or two hands and a result in [−8, 12]; it fails only when the round from the shuffled shoe runs out of cards; 61 cards always suffice |
| Simulation.Step | main.ts:121-150 | playing the next round from the shoe the earlier rounds left extends the chain of rounds and the tally by that round; it fails only when that round, from the shuffled shoe, runs out of cards; 61 cards always suffice |
| Simulation.Simulate | main.ts:119-152 | the returned rounds were each played from the shoe the previous one refilled, the first from the given shoe; the tallies are those of these rounds in order, stay consistent and count one round per entry of the picks; it stops early only when the next round, from the shoe the returned rounds left, runs out of cards; a shoe of 61 cards never runs out |
| Simulation.RanConsistent | main.ts:120-146 | the tally of rounds played in a chain is consistent and counts every round, each of which ends with one or two hands and a result in [−8, 12]; a run stopped early stopped on a round that ran out of cards |
| Buckets.CountFacts | main.ts:132-145 | tallying a result counts one more round, adds the result to the net, and keeps won amounts non-negative and lost amounts non-positive |
| Buckets.CountKind | main.ts:132-145 | a zero result is a push, a positive one a win and a negative one a loss |
| Buckets.CountSum | main.ts:132-145 | tallying a result into a sum of two tallies is tallying it into either part |
| Buckets.AgreeCountOne | main.ts:132-146 | counting a one-hand round in its own tally and in the totals keeps them in agreement with the net result |
| Tally.RecordFacts | main.ts:123-146 | recording a round creates its hand count's tally when missing, counts the result there and in the totals, and adds it to the net result |
| Tally.RecordKeepsOthers | main.ts:123-145 | recording a round touches no other hand count's tally |
| Tally.RecordConsistent | main.ts:123-146 | recording a one- or two-hand round keeps the tallies consistent and counts one more round |
| Tally.ConsistentSplits | main.ts:118-146 | in consistent tallies, the overall round count and net result are the sums over the per-hand-count tallies |
| Tally.TalliesConsistent | main.ts:120-146 | tallying rounds of one or two hands gives consistent tallies that count every round |
| Tally.TalliesWin | main.ts:146 | the net result is the sum of the round results |
| Tally.TalliesBounds | main.ts:146 | over n rounds the net result lies between −8n and 12n |

## Left out

- Randomness: the shuffle's random numbers are the parameter `picks`, one sequence per round.
- The progress bar and all console output are not modelled.
- The ratios computed after the loop (main.ts:154-171) are not modelled. They are floating-point divisions for display only.
- The top-level set-up (main.ts:454-476) is not modelled: the card removal, the run of 1,000,000 rounds, and the 4 cards removed afterwards. The removal compares a card's suit symbol with the strings "2" to "5", so as written it removes no card. The model's `Simulate` takes any shoe.
- The commented-out logging branch in main.ts:190-197 has no effect and is not modelled.
- The program's deck and game classes share one mutable shoe. The model passes the shoe and the hands as values.
- Cards are compared by value. The model does not track object identity, which the program never inspects.
- A draw from an empty shoe returns `undefined` in the program (main.ts:68-75). The next valuation of the hand holding it reads `card.value` from that `undefined` (main.ts:398-400), which throws a `TypeError` and stops the run. The model instead ends the round with `EmptyShoe`. It proves this never happens with at least 61 cards in the shoe.
- Deck.DrawCard: requires a non-empty shoe and an index inside it. An empty shoe becomes `EmptyShoe` in its callers.
- Deck.Shuffle: states only that the result is a permutation of the shoe. It does not state which permutation the picks produce.
- Simulation.Simulate: also returns the rounds it played. The bound on the net result is stated by Tally.TalliesBounds about their summaries, not by Simulate itself.
- Simulation.Round: the shuffled shoe is stated only to be a reordering of the shoe, as for Deck.Shuffle. So on failure it states that some reordering of the shoe runs out, not which one.
- Buckets.Count and Tally.Record: their facts are stated by the lemmas Buckets.CountFacts, Buckets.CountKind and Tally.RecordFacts, not by ensures clauses of their own.
- Money is `real`, so a blackjack's 1.5 times the stake is exact. The program uses floating-point numbers, which represent every amount here exactly.
- A split hand of an ace and a ten-valued card counts as a blackjack, as in the program. The settlement follows the program, not the casino rule.
