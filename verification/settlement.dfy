/**
 * Settling one player hand against the dealer's final cards: the blackjack
 * rule first, then busts, then a comparison of best totals. Amounts are signed
 * multiples of the hand's stake; a player blackjack pays one and a half times
 * the stake, so amounts are reals.
 */
module Settlement {
  import opened Cards
  import opened Valuation

  /** A hand with no total of 21 or less. */
  predicate Busted(cards: seq<Card>)
  {
    GetValue(cards).None?
  }

  /**
   * The blackjack rule: a push when both hold blackjack, 1.5 times the stake
   * when only the player does, minus the stake when only the dealer does, and
   * no verdict otherwise.
   */
  function ResolveBlackjack(p: Player, dealer: seq<Card>): (r: Option<real>)
    ensures r.Some? <==> IsBlackjack(p.cards) || IsBlackjack(dealer)
    ensures IsBlackjack(p.cards) && IsBlackjack(dealer) ==> r == Some(0.0)
    ensures IsBlackjack(p.cards) && !IsBlackjack(dealer) ==> r == Some(1.5 * p.bet as real)
    ensures !IsBlackjack(p.cards) && IsBlackjack(dealer) ==> r == Some(-p.bet as real)
  {
    var playerBlackjack := IsBlackjack(p.cards);
    var dealerBlackjack := IsBlackjack(dealer);
    if playerBlackjack && dealerBlackjack then Some(0.0)
    else if playerBlackjack then Some(p.bet as real * 1.5)
    else if dealerBlackjack then Some(-p.bet as real)
    else None
  }

  /**
   * The blackjack rule read off the cards: an ace with a ten-valued card is a
   * blackjack, so two of them push, the player's alone pays 1.5 times the
   * stake, the dealer's alone costs the stake.
   */
  lemma ResolveBlackjackClosedForm(p: Player, dealer: seq<Card>)
    ensures ResolveBlackjack(p, dealer) ==
      if AceAndTen(p.cards) && AceAndTen(dealer) then Some(0.0)
      else if AceAndTen(p.cards) then Some(1.5 * p.bet as real)
      else if AceAndTen(dealer) then Some(-p.bet as real)
      else None
  {
    BlackjackIsAceAndTen(p.cards);
    BlackjackIsAceAndTen(dealer);
  }

  /**
   * The signed amount the player wins on hand `p`. The blackjack rule comes
   * first; then a busted player loses even when the dealer busts too; then a
   * busted dealer loses; otherwise the higher best total wins and equal totals
   * push.
   */
  function DetermineWinner(p: Player, dealer: seq<Card>): (r: real)
    ensures r == -p.bet as real || r == 0.0 || r == p.bet as real || r == 1.5 * p.bet as real
    ensures ResolveBlackjack(p, dealer).Some? ==> r == ResolveBlackjack(p, dealer).value
    ensures Busted(p.cards) ==> r == -p.bet as real
    ensures !Busted(p.cards) && Busted(dealer) && !IsBlackjack(p.cards) ==> r == p.bet as real
    ensures IsBlackjack(p.cards) && !IsBlackjack(dealer) ==> r == 1.5 * p.bet as real
    ensures !IsBlackjack(p.cards) && !IsBlackjack(dealer) && !Busted(p.cards) && !Busted(dealer) ==>
      r == (if Best(p.cards) > Best(dealer) then p.bet as real
            else if Best(p.cards) < Best(dealer) then -p.bet as real
            else 0.0)
  {
    var blackJackResult := ResolveBlackjack(p, dealer);
    if blackJackResult.Some? then blackJackResult.value
    else
      var valuePlayer := GetValue(p.cards);
      if valuePlayer.None? then -p.bet as real
      else
        var valueDealer := GetValue(dealer);
        if valueDealer.None? then p.bet as real
        else
          var realValuePlayer := valuePlayer.value[|valuePlayer.value| - 1];
          var realValueDealer := valueDealer.value[|valueDealer.value| - 1];
          if realValuePlayer == realValueDealer then 0.0
          else if realValuePlayer > realValueDealer then p.bet as real
          else -p.bet as real
  }

  /**
   * The settlement in terms of hard totals: the blackjack rule, then a hard
   * total over 21 loses for the player and pays against the dealer, then the
   * closed-form best totals are compared.
   */
  lemma DetermineWinnerClosedForm(p: Player, dealer: seq<Card>)
    ensures DetermineWinner(p, dealer) ==
      if ResolveBlackjack(p, dealer).Some? then ResolveBlackjack(p, dealer).value
      else if HardTotal(p.cards) > BustLimit then -p.bet as real
      else if HardTotal(dealer) > BustLimit then p.bet as real
      else if ClosedBest(p.cards) == ClosedBest(dealer) then 0.0
      else if ClosedBest(p.cards) > ClosedBest(dealer) then p.bet as real
      else -p.bet as real
  {
    BustIffHardOver(p.cards);
    BustIffHardOver(dealer);
    if GetValue(p.cards).Some? {
      BestClosedForm(p.cards);
    }
    if GetValue(dealer).Some? {
      BestClosedForm(dealer);
    }
  }

  /** The signed total of a round: the sum of every hand's settlement. */
  function Settle(players: seq<Player>, dealer: seq<Card>): real
  {
    if |players| == 0 then 0.0
    else Settle(players[..|players| - 1], dealer) + DetermineWinner(players[|players| - 1], dealer)
  }

  /** With every stake 2 or 4, each hand settles between -4 and +6. */
  lemma {:induction false} SettleBounds(players: seq<Player>, dealer: seq<Card>)
    requires forall j :: 0 <= j < |players| ==> players[j].bet == 2 || players[j].bet == 4
    ensures -4.0 * |players| as real <= Settle(players, dealer) <= 6.0 * |players| as real
  {
    if |players| > 0 {
      SettleBounds(players[..|players| - 1], dealer);
    }
  }
}
