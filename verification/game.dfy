/**
 * One round of blackjack: deal two cards to a single player hand and two to
 * the dealer, play every player hand in turn (a split appends a hand to the
 * list being worked through), let the dealer draw to 17, settle each hand,
 * and hand every card back to the shoe.
 *
 * Cards are always drawn from the top (the end) of the shoe. A draw from an
 * empty shoe ends the round with `EmptyShoe`; a round never needs more than
 * `RoundNeed` cards, so a shoe of that size always completes it.
 */
module Game {
  import opened Cards
  import opened Deck
  import opened Valuation
  import opened Strategy
  import opened Settlement
  import opened Dealer
  import opened Turns
  import opened Hands

  /** Returns every player hand's cards to the shoe, first hand first. */
  function ReturnHands(shoe: seq<Card>, players: seq<Player>): seq<Card>
    decreases |players|
  {
    if |players| == 0 then shoe else ReturnHands(PutBackCard(shoe, players[0].cards), players[1..])
  }

  lemma {:induction false} ReturnHandsAppends(shoe: seq<Card>, players: seq<Player>)
    ensures ReturnHands(shoe, players) == shoe + HandCards(players)
    decreases |players|
  {
    if |players| > 0 {
      ReturnHandsAppends(shoe + players[0].cards, players[1..]);
    }
  }

  /** The end of a round: the players' cards, then the dealer's, go back to the shoe. */
  function EndRound(shoe: seq<Card>, players: seq<Player>, dealer: seq<Card>): seq<Card>
  {
    PutBackCard(ReturnHands(shoe, players), dealer)
  }

  /* ---------- A player's turn ---------- */

  /**
   * `r` and `done` are one action of the policy on the hand of `t`, then the
   * blackjack check: Stand ends the turn; Hit draws a card; Double draws one
   * card, doubles the stake and ends the turn; Split moves the pair's second
   * card into a new split hand with the same stake and one drawn card, draws a
   * card for this hand and marks it split. After a Hit or a Split the turn
   * also ends when a blackjack is on the table. A draw from an empty shoe
   * fails.
   */
  predicate Acted(t: Turn, dealer: seq<Card>, r: Result<Turn>, done: bool)
    requires |dealer| > 0 && |t.player.cards| > 0
  {
    var d := GetDecision(t.player, dealer);
    && (d == Stand ==> r == Ok(t) && done)
    && (d == Hit ==>
          if |t.shoe| == 0 then r.EmptyShoe?
          else r == Ok(DrawOnto(t)) && (done <==> ResolveBlackjack(DrawOnto(t).player, dealer).Some?))
    && (d == Double ==> if |t.shoe| == 0 then r.EmptyShoe? else r == Ok(DoubleDown(t)) && done)
    && (d == Split ==>
          if |t.shoe| < 2 then r.EmptyShoe?
          else r == Ok(SplitOff(t)) && (done <==> ResolveBlackjack(SplitOff(t).player, dealer).Some?))
  }

  /**
   * The policy's next action on the hand of `t` needs more cards than the
   * shoe holds: a Hit or a Double on an empty shoe, or a Split with fewer
   * than two cards left.
   */
  predicate OutOfCards(t: Turn, dealer: seq<Card>)
    requires |dealer| > 0 && |t.player.cards| > 0
  {
    var d := GetDecision(t.player, dealer);
    || ((d == Hit || d == Double) && |t.shoe| == 0)
    || (d == Split && |t.shoe| < 2)
  }

  /**
   * The turn of hand `p` from `shoe` runs out of cards: it reaches, by the
   * policy and drawing from the top, a point where no blackjack is on the
   * table and the policy's next action finds too few cards in the shoe.
   */
  ghost predicate TurnRunsOut(shoe: seq<Card>, p: Player, dealer: seq<Card>)
    requires |dealer| > 0
  {
    exists t :: Drawn(shoe, p, t) && Ongoing(p, dealer, t) && OutOfCards(t, dealer)
  }

  /**
   * One action of the policy on the hand of `t`; the shoe runs out exactly
   * when the action needs more cards than it holds, never with the turn's
   * bound of cards.
   */
  method Act(shoe: seq<Card>, p: Player, dealer: seq<Card>, t: Turn) returns (r: Result<Turn>, done: bool)
    requires |dealer| > 0 && Drawn(shoe, p, t)
    ensures Acted(t, dealer, r, done)
    ensures r.EmptyShoe? <==> OutOfCards(t, dealer)
    ensures |shoe| >= Need(p) ==> r.Ok?
  {
    var s := t.shoe;
    var q := t.player;
    var decision := GetDecision(q, dealer);
    var next: Turn;
    if decision == Stand {
      return Ok(t), true;
    } else if decision == Hit || decision == Double {
      CardsAtMostBest(q.cards);
      if |s| == 0 {
        return EmptyShoe, true;
      }
      if decision == Double {
        return Ok(DoubleDown(t)), true;
      }
      next := DrawOnto(t);
    } else {
      if |s| < 2 {
        return EmptyShoe, true;
      }
      next := SplitOff(t);
    }
    var blackJackResult := ResolveBlackjack(next.player, dealer);
    done := blackJackResult.Some?;
    r := Ok(next);
  }

  /**
   * An action of the policy on an ongoing turn keeps the turn's invariant and
   * its record of following the policy; the turn ends on a Stand, a Double or
   * a blackjack, and otherwise goes on with fewer cards in the shoe.
   */
  lemma ActKeeps(shoe: seq<Card>, p: Player, dealer: seq<Card>, t: Turn, r: Result<Turn>, done: bool)
    requires |dealer| > 0 && Drawn(shoe, p, t) && Ongoing(p, dealer, t) && Acted(t, dealer, r, done)
    ensures r.Ok? ==> Drawn(shoe, p, r.value) && Played(p, dealer, r.value)
    ensures r.Ok? && done ==> Finished(p, dealer, r.value.player)
    ensures r.Ok? && !done ==> Ongoing(p, dealer, r.value) && |r.value.shoe| < |t.shoe|
  {
    var q := t.player;
    var decision := GetDecision(q, dealer);
    if r.EmptyShoe? {
    } else if decision == Stand {
      FinishedOnStand(p, dealer, q);
      OngoingIsPlayed(p, dealer, t);
    } else if decision == Hit {
      CardsAtMostBest(q.cards);
      DrawnDraw(shoe, p, t);
      PlayedHit(p, dealer, t);
      if done {
        FinishedOnStand(p, dealer, DrawOnto(t).player);
      }
    } else if decision == Double {
      CardsAtMostBest(q.cards);
      DrawnDraw(shoe, p, t);
      DoubleFinishes(shoe, p, dealer, t);
      PlayedDouble(p, dealer, t);
    } else {
      DrawnSplit(shoe, p, t);
      PlayedSplit(shoe, p, dealer, t);
      if done {
        FinishedOnStand(p, dealer, SplitOff(t).player);
      }
    }
  }

  /**
   * Plays one hand against the dealer's cards: nothing is done when either
   * side has blackjack; otherwise the policy acts until the turn ends. It
   * fails only when the policy's turn runs out of cards.
   */
  method PlayerTurn(shoe: seq<Card>, p: Player, dealer: seq<Card>) returns (r: Result<Turn>)
    requires |p.cards| >= 2 && |dealer| > 0
    ensures ResolveBlackjack(p, dealer).Some? ==> r == Ok(Turn(shoe, p, []))
    ensures r.Ok? ==> Drawn(shoe, p, r.value) && Finished(p, dealer, r.value.player) && Played(p, dealer, r.value)
    ensures r.EmptyShoe? ==> TurnRunsOut(shoe, p, dealer)
    ensures |shoe| >= Need(p) ==> r.Ok?
  {
    DrawnStart(shoe, p);
    var initialResult := ResolveBlackjack(p, dealer);
    if initialResult.Some? {
      assert Played(p, dealer, Turn(shoe, p, []));
      return Ok(Turn(shoe, p, []));
    }
    OngoingStart(shoe, p, dealer);
    var t := Turn(shoe, p, []);
    while true
      invariant Drawn(shoe, p, t) && Ongoing(p, dealer, t)
      decreases |t.shoe|
    {
      var next, done := Act(shoe, p, dealer, t);
      ActKeeps(shoe, p, dealer, t, next, done);
      if next.EmptyShoe? {
        assert Drawn(shoe, p, t) && Ongoing(p, dealer, t) && OutOfCards(t, dealer);
        return next;
      }
      if done {
        return next;
      }
      t := next.value;
    }
  }

  /* ---------- The round ---------- */

  /**
   * The state at the end of a round, before the cards go back: the shoe, the
   * player hands, the dealer's cards, the signed result, and the turn each
   * player hand played.
   */
  datatype RoundEnd = RoundEnd(shoe: seq<Card>, players: seq<Player>, dealer: seq<Card>, result: real, turns: seq<Turn>)

  /**
   * Cards a round can need at most: four to deal, 22 for the first hand's
   * turn (a split and hits up to 22 cards), 20 for the split hand's turn and 15
   * for the dealer.
   */
  const RoundNeed: nat := 61

  /** Adds up the settlement of every hand, first hand first. */
  method SettleHands(players: seq<Player>, dealer: seq<Card>) returns (result: real)
    ensures result == Settle(players, dealer)
  {
    result := 0.0;
    var j := 0;
    while j < |players|
      invariant 0 <= j <= |players|
      invariant result == Settle(players[..j], dealer)
    {
      assert players[..j + 1][..j] == players[..j];
      result := result + DetermineWinner(players[j], dealer);
      j := j + 1;
    }
    assert players[..|players|] == players;
  }

  /** The round dealt from the top of `shoe`: the first two cards to the single player hand at the initial stake, the next two to the dealer. */
  function Dealing(shoe: seq<Card>): Round
    requires |shoe| >= 4
  {
    var n := |shoe|;
    Round(shoe[..n - 4], [Player([shoe[n - 1], shoe[n - 2]], InitialBet, false)], [shoe[n - 3], shoe[n - 4]])
  }

  /** The deal: four draws from the top, the first two to the player hand, the next two to the dealer. */
  method Deal(shoe: seq<Card>) returns (r: Result<Round>)
    ensures r.Ok? <==> |shoe| >= 4
    ensures r.Ok? ==> r.value == Dealing(shoe)
    ensures r.Ok? ==> Table(r.value.players, 0) && RoundCards(r.value) == multiset(shoe)
  {
    if |shoe| < 4 {
      return EmptyShoe;
    }
    var dealt := DrawMany(shoe, 4);
    DrawManyTakesTop(shoe, 4);
    var cards := dealt.0;
    var players := [Player([cards[0], cards[1]], InitialBet, false)];
    var dealerCards := [cards[2], cards[3]];
    r := Ok(Round(dealt.1, players, dealerCards));
    DealKeepsCards(shoe, r.value);
  }

  /** Hand `p` played turn `t` by the policy, from shoe `shoe`, against the dealer's cards `dealer`. */
  predicate TurnPlayed(shoe: seq<Card>, p: Player, dealer: seq<Card>, t: Turn)
    requires |dealer| > 0
  {
    Drawn(shoe, p, t) && Finished(p, dealer, t.player) && Played(p, dealer, t)
  }

  /**
   * From round `g`, the player hands were played one after the other by
   * `turns`, ending with hands `players` and shoe `s`: the single hand of `g`
   * played first from the shoe of `g`; when it split, the split hand played
   * next from the shoe the first turn left, and split no further.
   */
  predicate HandsPlayed(g: Round, turns: seq<Turn>, players: seq<Player>, s: seq<Card>)
    requires |g.dealer| > 0
  {
    && |g.players| == 1 && 1 <= |turns| <= 2 && |players| == |turns|
    && TurnPlayed(g.shoe, g.players[0], g.dealer, turns[0])
    && |turns[0].spawned| == |turns| - 1
    && players[0] == turns[0].player
    && (|turns| == 2 ==>
          && TurnPlayed(turns[0].shoe, turns[0].spawned[0], g.dealer, turns[1])
          && turns[1].spawned == [] && players[1] == turns[1].player)
    && s == turns[|turns| - 1].shoe
  }

  /**
   * From round `g`, the hands ran out of cards after the turns `turns`: the
   * single hand of `g` ran out during its own turn, or it played a turn that
   * split and the split hand ran out during its turn, from the shoe the first
   * turn left.
   */
  ghost predicate HandsRunOut(g: Round, turns: seq<Turn>)
    requires |g.dealer| > 0
  {
    && |g.players| == 1 && |turns| <= 1
    && (|turns| == 0 ==> TurnRunsOut(g.shoe, g.players[0], g.dealer))
    && (|turns| == 1 ==>
          && TurnPlayed(g.shoe, g.players[0], g.dealer, turns[0]) && |turns[0].spawned| == 1
          && TurnRunsOut(turns[0].shoe, turns[0].spawned[0], g.dealer))
  }

  /**
   * Plays every player hand in turn, the split hand (if any) after the hand
   * it came from, and returns the turn of each. The hand list grows by at
   * most one, since only an unsplit hand may split and both hands of a split
   * are marked split. It fails only when a hand's turn runs out of cards,
   * and then returns the turns completed before it.
   */
  method PlayHands(g: Round) returns (r: Result<Round>, turns: seq<Turn>)
    requires Table(g.players, 0) && |g.dealer| > 0
    ensures r.Ok? ==> HandsPlayed(g, turns, r.value.players, r.value.shoe)
    ensures r.EmptyShoe? ==> HandsRunOut(g, turns)
    ensures r.Ok? ==> Table(r.value.players, |r.value.players|)
    ensures r.Ok? ==> r.value.dealer == g.dealer && RoundCards(r.value) == RoundCards(g)
    ensures |g.shoe| >= TableNeed(g.players, 0) ==> r.Ok?
    ensures r.Ok? ==> |g.shoe| - |r.value.shoe| <= TableNeed(g.players, 0)
  {
    var players := g.players;
    var s := g.shoe;
    var indexPlayer := 0;
    turns := [];
    while indexPlayer < |players|
      invariant Table(players, indexPlayer)
      invariant multiset(g.shoe) + multiset(HandCards(g.players)) == multiset(s) + multiset(HandCards(players))
      invariant |g.shoe| - |s| + TableNeed(players, indexPlayer) <= TableNeed(g.players, 0)
      invariant Progress(g, players, s, turns, indexPlayer)
      decreases 2 - indexPlayer
    {
      var turn := PlayerTurn(s, players[indexPlayer], g.dealer);
      if turn.EmptyShoe? {
        ProgressRunsOut(g, players, s, turns, indexPlayer);
        return EmptyShoe, turns;
      }
      var t := turn.value;
      AfterTurn(players, indexPlayer, s, g.dealer, t);
      ProgressStep(g, players, s, turns, indexPlayer, t);
      players := Replace(players, indexPlayer, t);
      s := t.shoe;
      turns := turns + [t];
      indexPlayer := indexPlayer + 1;
    }
    ProgressDone(g, players, s, turns);
    r := Ok(Round(s, players, g.dealer));
  }

  /**
   * The hands of round `g` played so far: `turns` holds the turns of the first
   * `i` hands of `players`, and `s` is the shoe the last of them left.
   */
  predicate Progress(g: Round, players: seq<Player>, s: seq<Card>, turns: seq<Turn>, i: nat)
    requires |g.dealer| > 0
  {
    && |g.players| == 1 && |turns| == i && i <= |players|
    && (i == 0 ==> players == g.players && s == g.shoe)
    && (i >= 1 ==>
          && TurnPlayed(g.shoe, g.players[0], g.dealer, turns[0])
          && players[0] == turns[0].player && |players| == 1 + |turns[0].spawned|)
    && (i == 1 ==> s == turns[0].shoe && players[1..] == turns[0].spawned)
    && (i == 2 ==>
          && TurnPlayed(turns[0].shoe, turns[0].spawned[0], g.dealer, turns[1])
          && turns[1].spawned == [] && players[1] == turns[1].player && s == turns[1].shoe)
  }

  /** Playing hand `i` by turn `t` extends the hands played so far. */
  lemma ProgressStep(g: Round, players: seq<Player>, s: seq<Card>, turns: seq<Turn>, i: nat, t: Turn)
    requires |g.dealer| > 0 && Progress(g, players, s, turns, i)
    requires Table(players, i) && i < |players|
    requires TurnPlayed(s, players[i], g.dealer, t)
    ensures Progress(g, Replace(players, i, t), t.shoe, turns + [t], i + 1)
  {
    if i == 0 {
      assert turns == [];
      FirstHandPlayed(g, players, s, t);
    } else {
      SplitHandPlayed(g, players, s, turns, t);
    }
  }

  /** Playing the dealt hand: its end state leads the hand list, followed by any split hand. */
  lemma FirstHandPlayed(g: Round, players: seq<Player>, s: seq<Card>, t: Turn)
    requires |g.dealer| > 0 && Progress(g, players, s, [], 0) && Table(players, 0)
    requires TurnPlayed(s, players[0], g.dealer, t)
    ensures Progress(g, Replace(players, 0, t), t.shoe, [t], 1)
  {
    NextHands(g, players, 0, t);
  }

  /** Playing the split hand: it splits no further and takes its end state. */
  lemma SplitHandPlayed(g: Round, players: seq<Player>, s: seq<Card>, turns: seq<Turn>, t: Turn)
    requires |g.dealer| > 0 && Progress(g, players, s, turns, 1)
    requires Table(players, 1) && 1 < |players|
    requires TurnPlayed(s, players[1], g.dealer, t)
    ensures Progress(g, Replace(players, 1, t), t.shoe, turns + [t], 2)
  {
    NextHands(g, players, 1, t);
    var turns' := turns + [t];
    assert turns'[0] == turns[0] && turns'[1] == t;
    assert players[1] == turns[0].spawned[0];
  }

  /** When the turn of the next hand runs out, the hands of the round run out after the turns played so far. */
  lemma ProgressRunsOut(g: Round, players: seq<Player>, s: seq<Card>, turns: seq<Turn>, i: nat)
    requires |g.dealer| > 0 && Progress(g, players, s, turns, i)
    requires Table(players, i) && i < |players|
    requires TurnRunsOut(s, players[i], g.dealer)
    ensures HandsRunOut(g, turns)
  {
    if i == 1 {
      assert players[1] == turns[0].spawned[0];
    }
  }

  /** Once every hand has played, the hands played so far are the round's. */
  lemma ProgressDone(g: Round, players: seq<Player>, s: seq<Card>, turns: seq<Turn>)
    requires |g.dealer| > 0 && Progress(g, players, s, turns, |players|)
    requires Table(players, |players|) && |players| > 0
    ensures HandsPlayed(g, turns, players, s)
  {
  }

  /**
   * How the hand list changes after hand `i` plays `t`: the first hand is
   * replaced by its end state and followed by any split hand; the split hand,
   * already marked split, spawns no hand and is replaced by its end state.
   */
  lemma NextHands(g: Round, players: seq<Player>, i: nat, t: Turn)
    requires Table(players, i) && i < |players| && |g.players| == 1
    requires i == 0 ==> players == g.players
    requires |t.spawned| <= 1
    requires i == 1 ==> (|t.spawned| == 1 ==> !players[1].isSplit)
    ensures i == 0 ==> Replace(players, i, t) == [t.player] + t.spawned
    ensures i == 1 ==> t.spawned == [] && Replace(players, i, t) == [players[0], t.player]
  {
    if i == 1 {
      assert |players| == 2;
    }
  }

  /** A round's end state as `Play` returns it: the shoe left once the player hands have played. */
  function HandsShoe(e: RoundEnd): seq<Card>
    requires |e.turns| > 0
  {
    e.turns[|e.turns| - 1].shoe
  }

  /**
   * `e` is the round played from `shoe`: the deal from its top, the player
   * hands played by the policy in turn, the dealer drawing from what they
   * left until it stands, and every hand settled against the dealer's cards.
   */
  predicate RoundPlayed(shoe: seq<Card>, e: RoundEnd)
  {
    && |shoe| >= 4 && |e.turns| > 0
    && HandsPlayed(Dealing(shoe), e.turns, e.players, HandsShoe(e))
    && DealerDrawn(HandsShoe(e), Dealing(shoe).dealer, Dealt(e.shoe, e.dealer)) && DealerStands(e.dealer)
    && e.result == Settle(e.players, e.dealer)
  }

  /**
   * The round from `shoe` runs out of cards: the shoe cannot deal, or the
   * player hands run out during their turns, or they are all played and the
   * dealer then draws the rest of the shoe without standing.
   */
  ghost predicate RoundRunsOut(shoe: seq<Card>)
  {
    || |shoe| < 4
    || (exists turns :: HandsRunOut(Dealing(shoe), turns))
    || (exists turns, players, s ::
          HandsPlayed(Dealing(shoe), turns, players, s) && DealerRunsOut(s, Dealing(shoe).dealer))
  }

  /** When the dealt hand holds a blackjack on the table, the hands' turns change nothing. */
  lemma BlackjackHandsPlayed(g: Round, turns: seq<Turn>, players: seq<Player>, s: seq<Card>)
    requires |g.dealer| > 0 && HandsPlayed(g, turns, players, s)
    requires ResolveBlackjack(g.players[0], g.dealer).Some?
    ensures players == g.players && s == g.shoe
  {
    BlackjackPlaysNothing(g.shoe, g.players[0], g.dealer, turns[0]);
  }

  /**
   * A round dealt a blackjack on the table (the player's or the dealer's)
   * settles the dealt hand alone, as it was dealt.
   */
  lemma BlackjackRound(shoe: seq<Card>, e: RoundEnd)
    requires RoundPlayed(shoe, e)
    requires ResolveBlackjack(Dealing(shoe).players[0], Dealing(shoe).dealer).Some?
    ensures e.players == Dealing(shoe).players && e.dealer[..2] == Dealing(shoe).dealer
    ensures e.result == DetermineWinner(e.players[0], e.dealer)
  {
    var g := Dealing(shoe);
    BlackjackHandsPlayed(g, e.turns, e.players, HandsShoe(e));
    assert e.dealer == g.dealer + Reverse(HandsShoe(e)[|e.shoe|..]);
    assert |e.players| == 1 && e.players[..0] == [];
    assert Settle(e.players, e.dealer) == Settle([], e.dealer) + DetermineWinner(e.players[0], e.dealer);
  }

  /** The scripted deal below: the player's ace and king, then the dealer's nine and six. */
  lemma ScriptedDeal(shoe: seq<Card>)
    requires |shoe| >= 4
    requires shoe[|shoe| - 4..] == [Card(Six, Diamonds), Card(Nine, Clubs), Card(King, Hearts), Card(Ace, Spades)]
    ensures Dealing(shoe).players == [Player([Card(Ace, Spades), Card(King, Hearts)], InitialBet, false)]
    ensures Dealing(shoe).dealer == [Card(Nine, Clubs), Card(Six, Diamonds)]
    ensures ResolveBlackjack(Dealing(shoe).players[0], Dealing(shoe).dealer).Some?
  {
    var n := |shoe|;
    assert shoe[n - 1] == Card(Ace, Spades) && shoe[n - 2] == Card(King, Hearts);
    assert shoe[n - 3] == Card(Nine, Clubs) && shoe[n - 4] == Card(Six, Diamonds);
    BlackjackIsAceAndTen([Card(Ace, Spades), Card(King, Hearts)]);
  }

  /** The player's ace and king at stake 2 against a dealer who started with a nine and a six win 3. */
  lemma ScriptedPayout(dealer: seq<Card>)
    requires |dealer| >= 2 && dealer[..2] == [Card(Nine, Clubs), Card(Six, Diamonds)]
    ensures DetermineWinner(Player([Card(Ace, Spades), Card(King, Hearts)], InitialBet, false), dealer) == 3.0
  {
    var p := Player([Card(Ace, Spades), Card(King, Hearts)], InitialBet, false);
    assert dealer[0].rank == Nine && dealer[1].rank == Six;
    assert AceAndTen(p.cards) && !AceAndTen(dealer);
    ResolveBlackjackClosedForm(p, dealer);
  }

  /**
   * A scripted round: the player is dealt the ace of spades and the king of
   * hearts, the dealer a nine and a six. Whatever lies beneath, the player's
   * blackjack is left alone and paid one and a half times the stake of 2.
   */
  lemma ExampleBlackjackRound(shoe: seq<Card>, e: RoundEnd)
    requires |shoe| >= 4
    requires shoe[|shoe| - 4..] == [Card(Six, Diamonds), Card(Nine, Clubs), Card(King, Hearts), Card(Ace, Spades)]
    requires RoundPlayed(shoe, e)
    ensures e.players == [Player([Card(Ace, Spades), Card(King, Hearts)], InitialBet, false)]
    ensures e.result == 3.0
  {
    ScriptedDeal(shoe);
    BlackjackRound(shoe, e);
    ScriptedPayout(e.dealer);
  }

  /** From an empty shoe a turn draws nothing and splits nothing. */
  lemma EmptyShoeTurn(p: Player, t: Turn)
    requires TookFromTop([], p, t)
    ensures t.shoe == [] && t.spawned == [] && t.player.cards == p.cards
  {
    assert t.player.cards == p.cards + Reverse([]);
  }

  /** A hand with a blackjack on the table never runs out of cards: its turn draws nothing. */
  lemma BlackjackNeverRunsOut(shoe: seq<Card>, p: Player, dealer: seq<Card>)
    requires |dealer| > 0 && ResolveBlackjack(p, dealer).Some?
    ensures !TurnRunsOut(shoe, p, dealer)
  {
    forall t | Drawn(shoe, p, t) && Played(p, dealer, t)
      ensures t.player == p
    {
      BlackjackPlaysNothing(shoe, p, dealer, t);
    }
  }

  /** The hands of a round dealt a blackjack on the table never run out of cards. */
  lemma BlackjackHandsNeverRunOut(g: Round, turns: seq<Turn>)
    requires |g.dealer| > 0 && |g.players| == 1 && ResolveBlackjack(g.players[0], g.dealer).Some?
    ensures !HandsRunOut(g, turns)
  {
    BlackjackNeverRunsOut(g.shoe, g.players[0], g.dealer);
  }

  /** A hand the policy stands on never runs out of cards: its turn draws nothing. */
  lemma StandNeverRunsOut(shoe: seq<Card>, p: Player, dealer: seq<Card>)
    requires |dealer| > 0 && |p.cards| >= 2 && GetDecision(p, dealer) == Stand
    ensures !TurnRunsOut(shoe, p, dealer)
  {
    forall t | Drawn(shoe, p, t) && Ongoing(p, dealer, t)
      ensures t.player == p
    {
      var q := t.player;
      var n := |p.cards|;
      assert |t.spawned| == 0;
      assert q.cards[..n] == p.cards;
      assert Player(q.cards[..n], p.bet, q.isSplit) == p;
      assert !ActedAt(q, p.bet, dealer, n, Hit);
      assert |q.cards| == n;
      assert q.cards == p.cards;
    }
  }

  /** A hard 19 stands against a dealer's ten. */
  lemma ExampleNineteenStands()
    ensures GetDecision(Player([Card(Ten, Spades), Card(Nine, Hearts)], InitialBet, false), [Card(Ten, Clubs), Card(Seven, Diamonds)]) == Stand
  {
    GetValueClosedForm([Card(Ten, Spades), Card(Nine, Hearts)]);
    GetValueClosedForm([Card(Ten, Clubs)]);
  }

  /**
   * A hard 19 against a dealer's ten stands, so its turn needs no card even
   * from an empty shoe, though its bound `Need` is 22.
   */
  lemma ExampleStandNeedsNoCard()
    ensures !TurnRunsOut([], Player([Card(Ten, Spades), Card(Nine, Hearts)], InitialBet, false), [Card(Ten, Clubs), Card(Seven, Diamonds)])
  {
    ExampleNineteenStands();
    StandNeverRunsOut([], Player([Card(Ten, Spades), Card(Nine, Hearts)], InitialBet, false), [Card(Ten, Clubs), Card(Seven, Diamonds)]);
  }

  /**
   * A round dealt a blackjack on the table, with the dealer standing on its
   * first two cards, never runs out of cards, whatever the shoe's size: no
   * hand draws and the dealer draws nothing.
   */
  lemma BlackjackStandingRoundNeverRunsOut(shoe: seq<Card>)
    requires |shoe| >= 4 && ResolveBlackjack(Dealing(shoe).players[0], Dealing(shoe).dealer).Some?
    requires DealerStands(Dealing(shoe).dealer)
    ensures !RoundRunsOut(shoe)
  {
    var g := Dealing(shoe);
    forall turns: seq<Turn>
      ensures !HandsRunOut(g, turns)
    {
      BlackjackHandsNeverRunOut(g, turns);
    }
    forall s: seq<Card>
      ensures !DealerRunsOut(s, g.dealer)
    {
      StandingNeverRunsOut(s, g.dealer);
    }
  }

  /** The scripted four-card shoe below: the player is dealt an ace and a king, the dealer a ten and a seven, and nothing is left. */
  lemma FourCardDeal(shoe: seq<Card>)
    requires shoe == [Card(Seven, Diamonds), Card(Ten, Clubs), Card(King, Hearts), Card(Ace, Spades)]
    ensures Dealing(shoe) == Round([], [Player([Card(Ace, Spades), Card(King, Hearts)], InitialBet, false)], [Card(Ten, Clubs), Card(Seven, Diamonds)])
    ensures ResolveBlackjack(Dealing(shoe).players[0], Dealing(shoe).dealer).Some?
    ensures DealerStands(Dealing(shoe).dealer)
  {
    BlackjackIsAceAndTen([Card(Ace, Spades), Card(King, Hearts)]);
    GetValueClosedForm([Card(Ten, Clubs), Card(Seven, Diamonds)]);
  }

  /**
   * A round needs only the cards it draws: a four-card shoe that deals the
   * player an ace and a king and the dealer a ten and a seven does not run
   * out, so `Play` completes the round from it.
   */
  lemma ExampleFourCardRound()
    ensures !RoundRunsOut([Card(Seven, Diamonds), Card(Ten, Clubs), Card(King, Hearts), Card(Ace, Spades)])
  {
    var shoe := [Card(Seven, Diamonds), Card(Ten, Clubs), Card(King, Hearts), Card(Ace, Spades)];
    FourCardDeal(shoe);
    BlackjackStandingRoundNeverRunsOut(shoe);
  }

  /**
   * Plays one round from `shoe`: deal, play the player hands, let the dealer
   * draw, settle. Every card stays in the round, and returning the hands to
   * the shoe restores its cards. It fails only when the round runs out of
   * cards.
   */
  method Play(shoe: seq<Card>) returns (r: Result<RoundEnd>)
    ensures r.Ok? ==> RoundPlayed(shoe, r.value)
    ensures r.Ok? ==> |shoe| >= 4 && r.value.dealer[..2] == [shoe[|shoe| - 3], shoe[|shoe| - 4]]
    ensures r.Ok? ==> Table(r.value.players, |r.value.players|)
    ensures r.Ok? ==> |r.value.dealer| >= 2 && DealerStands(r.value.dealer)
    ensures r.Ok? ==>
      multiset(shoe) == multiset(r.value.shoe) + multiset(HandCards(r.value.players)) + multiset(r.value.dealer)
    ensures r.Ok? ==> multiset(EndRound(r.value.shoe, r.value.players, r.value.dealer)) == multiset(shoe)
    ensures r.Ok? ==> |EndRound(r.value.shoe, r.value.players, r.value.dealer)| == |shoe|
    ensures r.Ok? ==> r.value.result == Settle(r.value.players, r.value.dealer)
    ensures r.Ok? ==> -8.0 <= r.value.result <= 12.0
    ensures r.EmptyShoe? ==> RoundRunsOut(shoe)
    ensures |shoe| >= RoundNeed ==> r.Ok?
  {
    var dealt := Deal(shoe);
    if dealt.EmptyShoe? {
      return EmptyShoe;
    }
    var played, turns := PlayHands(dealt.value);
    if played.EmptyShoe? {
      HandsRunOutRound(shoe, turns);
      return EmptyShoe;
    }
    var g := played.value;
    var dealer := DealerTurn(g.shoe, g.dealer);
    if dealer.EmptyShoe? {
      DealerRunsOutRound(shoe, turns, g);
      return EmptyShoe;
    }
    var result := SettleHands(g.players, dealer.value.cards);
    SettleBounds(g.players, dealer.value.cards);
    var end := RoundEnd(dealer.value.shoe, g.players, dealer.value.cards, result, turns);
    RoundEndCards(shoe, g, dealer.value, end);
    RoundPlayedBy(shoe, turns, g, dealer.value, end);
    r := Ok(end);
  }

  /** Player hands that run out make the round run out. */
  lemma HandsRunOutRound(shoe: seq<Card>, turns: seq<Turn>)
    requires |shoe| >= 4 && HandsRunOut(Dealing(shoe), turns)
    ensures RoundRunsOut(shoe)
  {
  }

  /** A dealer who runs out after the player hands are played makes the round run out. */
  lemma DealerRunsOutRound(shoe: seq<Card>, turns: seq<Turn>, g: Round)
    requires |shoe| >= 4 && HandsPlayed(Dealing(shoe), turns, g.players, g.shoe)
    requires DealerRunsOut(g.shoe, Dealing(shoe).dealer)
    ensures RoundRunsOut(shoe)
  {
  }

  /** The deal, the player hands' turns and the dealer's turn, settled, make the round played from `shoe`. */
  lemma RoundPlayedBy(shoe: seq<Card>, turns: seq<Turn>, g: Round, d: Dealt, end: RoundEnd)
    requires |shoe| >= 4 && HandsPlayed(Dealing(shoe), turns, g.players, g.shoe)
    requires g.dealer == Dealing(shoe).dealer
    requires DealerDrawn(g.shoe, g.dealer, d) && DealerStands(d.cards)
    requires end == RoundEnd(d.shoe, g.players, d.cards, Settle(g.players, d.cards), turns)
    ensures RoundPlayed(shoe, end)
    ensures end.dealer[..2] == [shoe[|shoe| - 3], shoe[|shoe| - 4]]
  {
    assert HandsShoe(end) == g.shoe;
    assert end.dealer[..2] == g.dealer;
  }

  /** The dealer's draws move cards from the shoe to its hand, and the end of the round puts all back. */
  lemma RoundEndCards(shoe: seq<Card>, g: Round, d: Dealt, end: RoundEnd)
    requires RoundCards(g) == multiset(shoe) && DealerDrawn(g.shoe, g.dealer, d)
    requires end.shoe == d.shoe && end.players == g.players && end.dealer == d.cards
    ensures multiset(shoe) == multiset(end.shoe) + multiset(HandCards(end.players)) + multiset(end.dealer)
    ensures multiset(EndRound(end.shoe, end.players, end.dealer)) == multiset(shoe)
    ensures |EndRound(end.shoe, end.players, end.dealer)| == |shoe|
  {
    DrawnFromTop(g.shoe, |d.shoe|);
    ReverseMultiset(g.shoe[|d.shoe|..]);
    ReturnHandsAppends(end.shoe, end.players);
    assert |multiset(shoe)| == |shoe|;
  }
}
