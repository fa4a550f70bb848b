/**
 * The player hands of a round as the turns work through them: the shape the
 * hand list keeps (one hand, or two after a split), the cards the remaining
 * turns may still draw, and the bookkeeping that keeps every card of the
 * round accounted for.
 */
module Hands {
  import opened Cards
  import opened Turns

  /**
   * The player hands of a round once its first `done` hands have played:
   * one or two hands of at least two cards, each at stake 2 or 4; two hands
   * exactly when the first is marked split, and then both are; before any
   * turn, the single unsplit hand holds two cards at the initial stake; a
   * split hand that has not played yet holds two cards at the initial stake.
   */
  predicate Table(players: seq<Player>, done: nat)
  {
    && done <= |players| <= 2 && 1 <= |players|
    && (done == 0 ==> |players| == 1 && players[0].bet == InitialBet && |players[0].cards| == 2)
    && (forall j :: 0 <= j < |players| ==> |players[j].cards| >= 2 && (players[j].bet == 2 || players[j].bet == 4))
    && (|players| == 2 <==> players[0].isSplit)
    && (|players| == 2 ==> players[1].isSplit)
    && (done <= 1 && |players| == 2 ==> |players[1].cards| == 2 && players[1].bet == InitialBet)
  }

  /** Cards the turns still to be played can draw. */
  function TableNeed(players: seq<Player>, done: nat): nat
  {
    if done == 0 then 42 else if done == 1 && |players| == 2 then 20 else 0
  }

  /** The hands after hand `i` has played turn `t`: its end state in its place, then any split hand. */
  function Replace(players: seq<Player>, i: nat, t: Turn): seq<Player>
    requires i < |players|
  {
    players[i := t.player] + t.spawned
  }

  /** A turn that took its cards from the top and at most doubled the stake keeps the table's shape. */
  lemma AfterTurnShape(players: seq<Player>, i: nat, s: seq<Card>, t: Turn)
    requires Table(players, i) && i < |players|
    requires TookFromTop(s, players[i], t)
    requires t.player.bet == players[i].bet || t.player.bet == 2 * players[i].bet
    ensures Table(Replace(players, i, t), i + 1)
  {
    var after := Replace(players, i, t);
    if |players| == 1 && |t.spawned| == 1 {
      assert after == [t.player, t.spawned[0]];
    }
  }

  /** Replacing a hand by its end state and appending its split hand keeps every card. */
  lemma {:induction false} AfterTurnCards(players: seq<Player>, i: nat, s: seq<Card>, t: Turn)
    requires i < |players|
    requires Conserved(s, players[i], t)
    ensures multiset(s) + multiset(HandCards(players)) == multiset(t.shoe) + multiset(HandCards(Replace(players, i, t)))
  {
    var x := t.player;
    HandCardsAppend(players[i := x], t.spawned);
    HandCardsUpdate(players, i, x);
    Rebalance(multiset(s), multiset(players[i].cards), multiset(HandCards(players)),
              multiset(HandCards(players[i := x])), multiset(t.shoe), multiset(x.cards),
              multiset(HandCards(t.spawned)));
  }

  /** Multiset bookkeeping: the hand's old cards `p` cancel out and its new cards `x` move into `o`. */
  lemma Rebalance<T>(s: multiset<T>, p: multiset<T>, h: multiset<T>, o: multiset<T>,
                     t: multiset<T>, x: multiset<T>, w: multiset<T>)
    requires s + p == t + x + w
    requires o + p == h + x
    ensures s + h == t + (o + w)
  {
    forall e
      ensures (s + h)[e] == (t + (o + w))[e]
    {
      assert (s + p)[e] == (t + x + w)[e];
      assert (o + p)[e] == (h + x)[e];
    }
  }

  /**
   * After hand `i` has played its turn `t`, the table keeps its shape, the
   * cards are all still there, and the turn drew within the table's need.
   */
  lemma AfterTurn(players: seq<Player>, i: nat, s: seq<Card>, dealer: seq<Card>, t: Turn)
    requires Table(players, i) && i < |players| && |dealer| > 0
    requires Drawn(s, players[i], t) && Finished(players[i], dealer, t.player)
    ensures Table(Replace(players, i, t), i + 1)
    ensures multiset(s) + multiset(HandCards(players)) == multiset(t.shoe) + multiset(HandCards(Replace(players, i, t)))
    ensures |s| - |t.shoe| + TableNeed(Replace(players, i, t), i + 1) <= TableNeed(players, i)
  {
    AfterTurnShape(players, i, s, t);
    AfterTurnCards(players, i, s, t);
  }

  /** The shoe, the player hands and the dealer's cards during a round. */
  datatype Round = Round(shoe: seq<Card>, players: seq<Player>, dealer: seq<Card>)

  /** Every card of a round, wherever it lies. */
  function RoundCards(g: Round): multiset<Card>
  {
    multiset(g.shoe) + multiset(HandCards(g.players)) + multiset(g.dealer)
  }

  lemma DealKeepsCards(shoe: seq<Card>, g: Round)
    requires |shoe| >= 4
    requires g.shoe == shoe[..|shoe| - 4]
    requires g.players == [Player([shoe[|shoe| - 1], shoe[|shoe| - 2]], InitialBet, false)]
    requires g.dealer == [shoe[|shoe| - 3], shoe[|shoe| - 4]]
    ensures Table(g.players, 0) && RoundCards(g) == multiset(shoe)
  {
    var n := |shoe|;
    HandCardsOfOne(g.players[0]);
    var top := shoe[n - 4..];
    assert shoe == g.shoe + top;
    assert top == [shoe[n - 4], shoe[n - 3]] + [shoe[n - 2], shoe[n - 1]];
  }
}
