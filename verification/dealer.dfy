/**
 * The dealer's turn: draw from the top of the shoe while the best total is
 * below 17.
 */
module Dealer {
  import opened Cards
  import opened Deck
  import opened Valuation

  /** The shoe's top part, once drawn one card at a time, and the rest together hold the shoe's cards. */
  lemma DrawnFromTop(shoe: seq<Card>, n: nat)
    requires n <= |shoe|
    ensures multiset(shoe) == multiset(shoe[..n]) + multiset(Reverse(shoe[n..]))
  {
    ReverseMultiset(shoe[n..]);
    assert shoe == shoe[..n] + shoe[n..];
  }

  /** The dealer stands at a best total of 17 or more. */
  const DealerStandsOn: int := 17

  /** The dealer stops drawing once bust or at a best total of 17 or more (a soft 17 stands). */
  predicate DealerStands(cards: seq<Card>)
  {
    GetValue(cards).None? || Best(cards) >= DealerStandsOn
  }

  /**
   * The most cards the dealer can still draw: it draws only below 17, hence
   * with a hard total of at most 16 and so with at most 16 cards.
   */
  function DealerNeed(cards: seq<Card>): nat
  {
    if |cards| < DealerStandsOn then DealerStandsOn - |cards| else 0
  }

  /** What is left of the shoe and the cards now held. */
  datatype Dealt = Dealt(shoe: seq<Card>, cards: seq<Card>)

  /**
   * How the dealer's turn from `dealer` and `shoe` stands at `t`: the shoe
   * lost its top cards only, the dealer kept its cards and gained exactly the
   * drawn ones in draw order, every hand it drew on had not yet stood, and it
   * drew no more than `DealerNeed(dealer)` cards.
   */
  predicate DealerDrawn(shoe: seq<Card>, dealer: seq<Card>, t: Dealt)
  {
    && |t.shoe| <= |shoe| && t.shoe == shoe[..|t.shoe|]
    && t.cards == dealer + Reverse(shoe[|t.shoe|..])
    && (forall k {:trigger DealerStands(t.cards[..k])} :: |dealer| <= k < |t.cards| ==> !DealerStands(t.cards[..k]))
    && |shoe| - |t.shoe| + DealerNeed(t.cards) <= DealerNeed(dealer)
  }

  lemma DealerStart(shoe: seq<Card>, dealer: seq<Card>)
    ensures DealerDrawn(shoe, dealer, Dealt(shoe, dealer))
  {
    assert shoe[|shoe|..] == [];
    assert dealer + [] == dealer;
  }

  /** Drawing the top card for a dealer that has not stood keeps `DealerDrawn`. */
  lemma DealerDraw(shoe: seq<Card>, dealer: seq<Card>, t: Dealt)
    requires DealerDrawn(shoe, dealer, t) && |t.shoe| > 0 && !DealerStands(t.cards)
    ensures DealerDrawn(shoe, dealer, Dealt(t.shoe[..|t.shoe| - 1], t.cards + [t.shoe[|t.shoe| - 1]]))
  {
    var s := t.shoe;
    var d := t.cards;
    CardsAtMostBest(d);
    assert s[..|s| - 1] == shoe[..|s| - 1];
    ReverseStep(shoe, |s|, |shoe|);
    assert shoe[|s|..|shoe|] == shoe[|s|..];
    assert shoe[|s| - 1..|shoe|] == shoe[|s| - 1..];
    var c := s[|s| - 1];
    assert c == shoe[|s| - 1];
    assert d + [c] == dealer + Reverse(shoe[|s| - 1..]);
    forall k | |dealer| <= k < |d| + 1
      ensures !DealerStands((d + [c])[..k])
    {
      assert (d + [c])[..k] == d[..k];
    }
    assert |d| < DealerStandsOn;
  }

  /**
   * The dealer ran out of cards: it drew the whole shoe from the top without
   * ever standing, and still does not stand.
   */
  predicate DealerRunsOut(shoe: seq<Card>, dealer: seq<Card>)
  {
    DealerDrawn(shoe, dealer, Dealt([], dealer + Reverse(shoe))) && !DealerStands(dealer + Reverse(shoe))
  }

  /** A dealer who already stands never runs out of cards: it draws none. */
  lemma StandingNeverRunsOut(shoe: seq<Card>, dealer: seq<Card>)
    requires DealerStands(dealer)
    ensures !DealerRunsOut(shoe, dealer)
  {
    var all := dealer + Reverse(shoe);
    if |shoe| == 0 {
      assert all == dealer;
    } else {
      assert all[..|dealer|] == dealer;
      assert shoe[0..] == shoe;
      assert DealerStands(all[..|dealer|]);
    }
  }

  /**
   * The dealer draws from the top while its best total is below 17, keeping
   * every card it held; it ends bust or at 17 or more. It fails only when it
   * has drawn the whole shoe without standing, which cannot happen with
   * `DealerNeed` cards left.
   */
  method DealerTurn(shoe: seq<Card>, dealer: seq<Card>) returns (r: Result<Dealt>)
    ensures r.Ok? ==> DealerDrawn(shoe, dealer, r.value) && DealerStands(r.value.cards)
    ensures r.EmptyShoe? ==> !DealerStands(dealer + Reverse(shoe))
    ensures r.EmptyShoe? ==> DealerRunsOut(shoe, dealer)
    ensures |shoe| >= DealerNeed(dealer) ==> r.Ok?
  {
    DealerStart(shoe, dealer);
    var t := Dealt(shoe, dealer);
    while true
      invariant DealerDrawn(shoe, dealer, t)
      decreases |t.shoe|
    {
      var valueDealer := GetValue(t.cards);
      if valueDealer.None? {
        return Ok(t);
      }
      var realValueDealer := valueDealer.value[|valueDealer.value| - 1];
      if realValueDealer >= DealerStandsOn {
        return Ok(t);
      }
      CardsAtMostBest(t.cards);
      if |t.shoe| == 0 {
        assert shoe[0..] == shoe;
        return EmptyShoe;
      }
      var drawn := DrawCard(t.shoe, None);
      assert drawn.0 == t.shoe[|t.shoe| - 1] && drawn.1 == t.shoe[..|t.shoe| - 1];
      DealerDraw(shoe, dealer, t);
      t := Dealt(drawn.1, t.cards + [drawn.0]);
    }
  }
}
