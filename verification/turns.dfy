/**
 * The bookkeeping of one player hand's turn: the three actions that draw
 * (hit, double, split) as functions on the turn's state, and the facts every
 * action keeps: cards come off the top of the shoe and none is lost, the hand
 * draws only while not bust, and a turn draws a bounded number of cards.
 */
module Turns {
  import opened Cards
  import opened Deck
  import opened Valuation
  import opened Strategy
  import opened Settlement

  /** All cards held by the player hands, hand by hand. */
  function HandCards(players: seq<Player>): seq<Card>
  {
    if |players| == 0 then [] else players[0].cards + HandCards(players[1..])
  }

  lemma HandCardsOfOne(a: Player)
    ensures HandCards([a]) == a.cards
  {
    assert [a][1..] == [];
    assert a.cards + [] == a.cards;
  }

  lemma {:induction false} HandCardsAppend(a: seq<Player>, b: seq<Player>)
    ensures HandCards(a + b) == HandCards(a) + HandCards(b)
    decreases |a|
  {
    if |a| > 0 {
      assert (a + b)[1..] == a[1..] + b;
      HandCardsAppend(a[1..], b);
    } else {
      assert a + b == b;
    }
  }

  /** The cards of the hands before hand `i`, then hand `i`'s, then those after it. */
  lemma {:induction false} HandCardsAt(players: seq<Player>, i: nat)
    requires i < |players|
    ensures HandCards(players) == HandCards(players[..i]) + players[i].cards + HandCards(players[i + 1..])
  {
    var rest := players[i..];
    assert HandCards(rest) == players[i].cards + HandCards(players[i + 1..]) by {
      assert rest[0] == players[i] && rest[1..] == players[i + 1..];
    }
    assert players == players[..i] + rest;
    HandCardsAppend(players[..i], rest);
  }

  /** Replacing hand `i` by `x` swaps that hand's cards for the cards of `x`. */
  lemma HandCardsUpdate(players: seq<Player>, i: nat, x: Player)
    requires i < |players|
    ensures multiset(HandCards(players[i := x])) + multiset(players[i].cards) ==
            multiset(HandCards(players)) + multiset(x.cards)
  {
    var updated := players[i := x];
    HandCardsAt(players, i);
    HandCardsAt(updated, i);
    assert updated[..i] == players[..i] && updated[i + 1..] == players[i + 1..];
  }

  /** What is left of the shoe, the hand after its turn, and any hand its split created. */
  datatype Turn = Turn(shoe: seq<Card>, player: Player, spawned: seq<Player>)

  /**
   * The most cards a hand's turn can draw: two for a split, if it may still
   * split, and one per card until it holds 22, since it only draws while not
   * bust and every card is worth at least 1.
   */
  function Need(p: Player): nat
  {
    (if p.isSplit then 0 else 2) + (if |p.cards| < 22 then 22 - |p.cards| else 0)
  }

  /**
   * How a turn that started from hand `p` and shoe `shoe` stands at `t`: the
   * shoe lost its top cards only; without a split the hand gained exactly the
   * drawn cards, in draw order; with a split (at most one, and only of an
   * unsplit pair) the new split hand holds the pair's second card and the
   * first card drawn at the stake of `p`, and this hand kept the first card
   * and gained the cards drawn after it; both hands are then marked split.
   */
  predicate TookFromTop(shoe: seq<Card>, p: Player, t: Turn)
  {
    var s := t.shoe;
    var q := t.player;
    && |s| <= |shoe| && s == shoe[..|s|]
    && |q.cards| >= 2 && |p.cards| >= 2 && |t.spawned| <= 1
    && q.isSplit == (p.isSplit || |t.spawned| == 1)
    && (|t.spawned| == 0 ==> q.cards == p.cards + Reverse(shoe[|s|..]))
    && (|t.spawned| == 1 ==>
        && !p.isSplit && IsPair(p.cards) && |s| <= |shoe| - 2
        && t.spawned[0] == Player([p.cards[1], shoe[|shoe| - 1]], p.bet, true)
        && q.cards == [p.cards[0]] + Reverse(shoe[|s|..|shoe| - 1]))
  }

  /** No card was lost or created: the shoe and hand at the start hold exactly the cards of `t`. */
  predicate Conserved(shoe: seq<Card>, p: Player, t: Turn)
  {
    multiset(shoe) + multiset(p.cards) == TurnCards(t)
  }

  /** The hand was not bust when it held any of its first `from`, `from + 1`, … cards short of all of them. */
  predicate NoBustBefore(from: nat, cards: seq<Card>)
  {
    forall k {:trigger Busted(cards[..k])} :: from <= k < |cards| ==> !Busted(cards[..k])
  }

  /** The turn drew no more than `Need(p)` cards, with room for what `t` may still draw. */
  predicate WithinNeed(shoe: seq<Card>, p: Player, t: Turn)
  {
    |shoe| - |t.shoe| + Need(t.player) <= Need(p)
  }

  /** Everything a turn keeps from its start to its end. */
  predicate Drawn(shoe: seq<Card>, p: Player, t: Turn)
  {
    && TookFromTop(shoe, p, t)
    && Conserved(shoe, p, t)
    && NoBustBefore(|p.cards|, t.player.cards)
    && WithinNeed(shoe, p, t)
  }

  /** Drawing onto a hand that is not bust keeps `NoBustBefore`. */
  lemma NoBustBeforeDraw(from: nat, cards: seq<Card>, c: Card)
    requires NoBustBefore(from, cards) && !Busted(cards)
    ensures NoBustBefore(from, cards + [c])
  {
    forall k | from <= k < |cards| + 1
      ensures !Busted((cards + [c])[..k])
    {
      assert (cards + [c])[..k] == cards[..k];
    }
  }

  /** Before any draw, the turn is at its start. */
  lemma DrawnStart(shoe: seq<Card>, p: Player)
    requires |p.cards| >= 2
    ensures Drawn(shoe, p, Turn(shoe, p, []))
  {
    assert shoe[|shoe|..] == [];
    assert p.cards + [] == p.cards;
  }

  /** Hit: the top card of the shoe moves onto the hand. */
  function DrawOnto(t: Turn): Turn
    requires |t.shoe| > 0
  {
    Turn(t.shoe[..|t.shoe| - 1], t.player.(cards := t.player.cards + [t.shoe[|t.shoe| - 1]]), t.spawned)
  }

  /** `DrawOnto` is one `DrawCard` from the top whose card is appended to the hand. */
  lemma DrawOntoDraws(t: Turn)
    requires |t.shoe| > 0
    ensures
      var (card, rest) := DrawCard(t.shoe, None);
      DrawOnto(t) == Turn(rest, t.player.(cards := t.player.cards + [card]), t.spawned)
  {
    assert DrawCard(t.shoe, None).1 == t.shoe[..|t.shoe| - 1];
  }

  /** Double: one card is drawn onto the hand and its stake doubles. */
  function DoubleDown(t: Turn): (n: Turn)
    requires |t.shoe| > 0
    ensures n == DrawOnto(t).(player := DrawOnto(t).player.(bet := t.player.bet * 2))
  {
    var hit := DrawOnto(t);
    hit.(player := hit.player.(bet := hit.player.bet * 2))
  }

  lemma TookFromTopDraw(shoe: seq<Card>, p: Player, t: Turn)
    requires TookFromTop(shoe, p, t) && |t.shoe| > 0
    ensures TookFromTop(shoe, p, DrawOnto(t))
  {
    var s := t.shoe;
    var n := DrawOnto(t);
    var c := s[|s| - 1];
    assert n.shoe == shoe[..|s| - 1];
    assert c == shoe[|s| - 1];
    assert n.player.cards == t.player.cards + [c];
    if |t.spawned| == 0 {
      ReverseStep(shoe, |s|, |shoe|);
      assert shoe[|s|..|shoe|] == shoe[|s|..];
      assert shoe[|s| - 1..|shoe|] == shoe[|s| - 1..];
      assert n.player.cards == p.cards + (Reverse(shoe[|s|..]) + [c]);
    } else {
      ReverseStep(shoe, |s|, |shoe| - 1);
      assert n.player.cards == [p.cards[0]] + (Reverse(shoe[|s|..|shoe| - 1]) + [c]);
    }
  }

  lemma ConservedDraw(shoe: seq<Card>, p: Player, t: Turn)
    requires Conserved(shoe, p, t) && |t.shoe| > 0
    ensures Conserved(shoe, p, DrawOnto(t))
  {
    var s := t.shoe;
    assert s == s[..|s| - 1] + [s[|s| - 1]];
  }

  /** `Drawn` does not depend on the hand's stake. */
  lemma DrawnAnyStake(shoe: seq<Card>, p: Player, t: Turn, bet: int)
    requires Drawn(shoe, p, t)
    ensures Drawn(shoe, p, t.(player := t.player.(bet := bet)))
  {
    var t' := t.(player := t.player.(bet := bet));
    assert t'.player.cards == t.player.cards && t'.player.isSplit == t.player.isSplit;
    assert Need(t'.player) == Need(t.player);
  }

  /** Drawing the top card onto a hand that is not bust keeps `Drawn`. */
  lemma {:induction false} DrawnDraw(shoe: seq<Card>, p: Player, t: Turn)
    requires Drawn(shoe, p, t) && |t.shoe| > 0 && !Busted(t.player.cards)
    ensures Drawn(shoe, p, DrawOnto(t))
  {
    CardsAtMostBest(t.player.cards);
    TookFromTopDraw(shoe, p, t);
    ConservedDraw(shoe, p, t);
    NoBustBeforeDraw(|p.cards|, t.player.cards, t.shoe[|t.shoe| - 1]);
  }

  /**
   * The split of an unsplit pair: the top card joins the pair's second card
   * in a new split hand at the same stake, the next card joins the first card
   * in this hand, which is marked split.
   */
  function SplitOff(t: Turn): Turn
    requires |t.shoe| >= 2 && |t.player.cards| == 2
  {
    var s := t.shoe;
    var q := t.player;
    Turn(s[..|s| - 2], q.(cards := [q.cards[0], s[|s| - 2]], isSplit := true),
         t.spawned + [Player([q.cards[1], s[|s| - 1]], q.bet, true)])
  }

  /**
   * `SplitOff` is the split done card by card: the new hand takes the hand's
   * last card and one `DrawCard`; the hand drops its last card and takes the
   * next `DrawCard`.
   */
  lemma SplitOffDraws(t: Turn)
    requires |t.shoe| >= 2 && |t.player.cards| == 2
    ensures
      var q := t.player;
      var (first, rest) := DrawCard(t.shoe, None);
      var newPlayer := Player([q.cards[|q.cards| - 1], first], q.bet, true);
      var (second, left) := DrawCard(rest, None);
      SplitOff(t) == Turn(left, q.(cards := q.cards[..|q.cards| - 1] + [second], isSplit := true), t.spawned + [newPlayer])
  {
    var s := t.shoe;
    var first := DrawCard(s, None);
    assert first.1 == s[..|s| - 1];
    var second := DrawCard(first.1, None);
    assert second.1 == s[..|s| - 2];
    assert t.player.cards[..1] + [second.0] == [t.player.cards[0], s[|s| - 2]];
  }

  lemma TookFromTopSplit(shoe: seq<Card>, p: Player, t: Turn)
    requires TookFromTop(shoe, p, t) && |t.shoe| >= 2 && !t.player.isSplit && IsPair(t.player.cards)
    requires t.player.bet == p.bet
    ensures TookFromTop(shoe, p, SplitOff(t))
  {
    assert |t.spawned| == 0;
    assert t.shoe == shoe by {
      assert |Reverse(shoe[|t.shoe|..])| == 0;
    }
    assert shoe[|shoe| - 2..|shoe| - 1] == [shoe[|shoe| - 2]];
  }

  /** The cards of a turn, wherever they are. */
  function TurnCards(t: Turn): multiset<Card>
  {
    multiset(t.shoe) + multiset(t.player.cards) + multiset(HandCards(t.spawned))
  }

  /** Regrouping the four cards a split deals with. */
  lemma Regroup(rest: multiset<Card>, x: Card, y: Card, a: Card, b: Card)
    ensures rest + multiset{x, b} + multiset{y, a} == rest + multiset{b, a} + multiset{x, y}
  {
  }

  /** A split of a hand with no earlier split hand moves cards but keeps them all. */
  lemma SplitOffMoves(t: Turn)
    requires |t.shoe| >= 2 && |t.player.cards| == 2 && |t.spawned| == 0
    ensures TurnCards(SplitOff(t)) == TurnCards(t)
  {
    var s := t.shoe;
    var q := t.player;
    var a := s[|s| - 1];
    var b := s[|s| - 2];
    var n := SplitOff(t);
    var rest := multiset(s[..|s| - 2]);
    HandCardsOfOne(n.spawned[0]);
    assert n.spawned == [n.spawned[0]];
    assert TurnCards(n) == rest + multiset{q.cards[0], b} + multiset{q.cards[1], a};
    assert TurnCards(t) == rest + multiset{b, a} + multiset{q.cards[0], q.cards[1]} by {
      assert s == s[..|s| - 2] + [b, a];
      assert q.cards == [q.cards[0], q.cards[1]];
      assert HandCards(t.spawned) == [];
    }
    Regroup(rest, q.cards[0], q.cards[1], a, b);
  }

  lemma ConservedSplit(shoe: seq<Card>, p: Player, t: Turn)
    requires Conserved(shoe, p, t) && |t.shoe| >= 2 && |t.player.cards| == 2 && |t.spawned| == 0
    ensures Conserved(shoe, p, SplitOff(t))
  {
    SplitOffMoves(t);
  }

  /** Splitting an unsplit pair at the start of the turn keeps `Drawn`. */
  lemma {:induction false} DrawnSplit(shoe: seq<Card>, p: Player, t: Turn)
    requires Drawn(shoe, p, t) && |t.shoe| >= 2 && !t.player.isSplit && IsPair(t.player.cards)
    requires t.player.bet == p.bet
    ensures Drawn(shoe, p, SplitOff(t))
  {
    assert |t.spawned| == 0;
    TookFromTopSplit(shoe, p, t);
    ConservedSplit(shoe, p, t);
  }

  /** The hand stops: a blackjack is on the table, or the policy says Stand. */
  predicate Stood(p: Player, dealer: seq<Card>)
    requires |p.cards| > 0 && |dealer| > 0
  {
    ResolveBlackjack(p, dealer).Some? || GetDecision(p, dealer) == Stand
  }

  /**
   * How a finished turn ended: at the unchanged stake with a blackjack on the
   * table or a Stand from the policy, or at double the stake after a Double,
   * which drew exactly the hand's last card.
   */
  predicate Finished(p: Player, dealer: seq<Card>, q: Player)
    requires |dealer| > 0
  {
    && |q.cards| >= 2
    && (|| (q.bet == p.bet && Stood(q, dealer))
        || (q.bet == 2 * p.bet && ActedAt(q, p.bet, dealer, |q.cards| - 1, Double)))
  }

  lemma FinishedOnStand(p: Player, dealer: seq<Card>, q: Player)
    requires |dealer| > 0 && |q.cards| >= 2 && q.bet == p.bet
    requires ResolveBlackjack(q, dealer).Some? || GetDecision(q, dealer) == Stand
    ensures Finished(p, dealer, q)
  {
  }

  /** A Double ends the turn at twice the stake, with the card it drew. */
  lemma DoubleFinishes(shoe: seq<Card>, p: Player, dealer: seq<Card>, t: Turn)
    requires |dealer| > 0 && |t.shoe| > 0 && t.player.bet == p.bet
    requires Drawn(shoe, p, DrawOnto(t)) && ResolveBlackjack(t.player, dealer).None?
    requires GetDecision(t.player, dealer) == Double
    ensures Drawn(shoe, p, DoubleDown(t)) && Finished(p, dealer, DoubleDown(t).player)
  {
    var q := t.player;
    var d := DoubleDown(t).player;
    DrawnAnyStake(shoe, p, DrawOnto(t), q.bet * 2);
    assert d.cards[..|d.cards| - 1] == q.cards;
    assert Player(d.cards[..|d.cards| - 1], p.bet, d.isSplit) == q;
  }

  /* ---------- Following the policy ---------- */

  /**
   * When hand `q` held its first `k` cards, at stake `bet`, no blackjack was
   * on the table and the policy chose `d`.
   */
  predicate ActedAt(q: Player, bet: int, dealer: seq<Card>, k: nat, d: Decision)
    requires |dealer| > 0
  {
    && 0 < k <= |q.cards|
    && var h := Player(q.cards[..k], bet, q.isSplit);
       ResolveBlackjack(h, dealer).None? && GetDecision(h, dealer) == d
  }

  /** Hand `q` was hit by the policy when it held `from`, `from + 1`, … up to `n - 1` cards. */
  predicate HitFrom(q: Player, bet: int, dealer: seq<Card>, from: nat, n: nat)
    requires |dealer| > 0
  {
    forall k :: from <= k < n ==> ActedAt(q, bet, dealer, k, Hit)
  }

  /** A split in the turn from `p` was the policy's choice on `p`, with no blackjack on the table. */
  predicate SplitByPolicy(p: Player, dealer: seq<Card>, t: Turn)
    requires |dealer| > 0
  {
    |t.spawned| > 0 ==> |p.cards| > 0 && ResolveBlackjack(p, dealer).None? && GetDecision(p, dealer) == Split
  }

  /**
   * The turn from hand `p` to `t` followed the policy: any split was the
   * policy's choice on `p`; every card the hand drew was a policy hit, except
   * that the last one may have been drawn by a policy Double, which doubled
   * the stake.
   */
  predicate Played(p: Player, dealer: seq<Card>, t: Turn)
    requires |dealer| > 0
  {
    var q := t.player;
    && SplitByPolicy(p, dealer, t)
    && (|| (q.bet == p.bet && HitFrom(q, p.bet, dealer, |p.cards|, |q.cards|))
        || (&& q.bet == 2 * p.bet && |q.cards| > |p.cards|
            && HitFrom(q, p.bet, dealer, |p.cards|, |q.cards| - 1)
            && ActedAt(q, p.bet, dealer, |q.cards| - 1, Double)))
  }

  /** The turn may go on: it followed the policy without a Double, and no blackjack is on the table. */
  predicate Ongoing(p: Player, dealer: seq<Card>, t: Turn)
    requires |dealer| > 0
  {
    && t.player.bet == p.bet
    && SplitByPolicy(p, dealer, t)
    && HitFrom(t.player, p.bet, dealer, |p.cards|, |t.player.cards|)
    && ResolveBlackjack(t.player, dealer).None?
  }

  lemma OngoingIsPlayed(p: Player, dealer: seq<Card>, t: Turn)
    requires |dealer| > 0 && Ongoing(p, dealer, t)
    ensures Played(p, dealer, t)
  {
  }

  /** A hand without a blackjack on the table may start its turn. */
  lemma OngoingStart(shoe: seq<Card>, p: Player, dealer: seq<Card>)
    requires |dealer| > 0 && ResolveBlackjack(p, dealer).None?
    ensures Ongoing(p, dealer, Turn(shoe, p, []))
  {
  }

  /**
   * A hand with a blackjack on the table is played by doing nothing: no
   * policy action applies to it, so its turn draws no card, splits nothing
   * and keeps the hand as it was.
   */
  lemma {:induction false} BlackjackPlaysNothing(shoe: seq<Card>, p: Player, dealer: seq<Card>, t: Turn)
    requires |dealer| > 0 && TookFromTop(shoe, p, t) && Played(p, dealer, t)
    requires ResolveBlackjack(p, dealer).Some?
    ensures t == Turn(shoe, p, [])
  {
    var q := t.player;
    assert |t.spawned| == 0;
    assert q.cards[..|p.cards|] == p.cards;
    assert !ActedAt(q, p.bet, dealer, |p.cards|, Hit) && !ActedAt(q, p.bet, dealer, |p.cards|, Double);
    assert |q.cards| == |p.cards|;
    assert |shoe[|t.shoe|..]| == 0;
    assert t.shoe == shoe;
    assert q.cards == p.cards;
  }

  /** The policy's hits on a hand stay recorded when the hand grows. */
  lemma HitFromGrow(q: Player, q': Player, bet: int, dealer: seq<Card>, from: nat, n: nat)
    requires |dealer| > 0 && HitFrom(q, bet, dealer, from, n)
    requires n <= |q.cards| <= |q'.cards| && q'.cards[..|q.cards|] == q.cards && q'.isSplit == q.isSplit
    ensures HitFrom(q', bet, dealer, from, n)
  {
    forall k | from <= k < n
      ensures ActedAt(q', bet, dealer, k, Hit)
    {
      assert ActedAt(q, bet, dealer, k, Hit);
      assert q'.cards[..k] == q.cards[..k];
    }
  }

  /** A hit the policy chose on an ongoing turn extends its record of hits by the hand as it was. */
  lemma HitFollows(p: Player, dealer: seq<Card>, t: Turn)
    requires |dealer| > 0 && Ongoing(p, dealer, t) && |t.shoe| > 0 && |t.player.cards| > 0
    requires GetDecision(t.player, dealer) == Hit
    ensures HitFrom(DrawOnto(t).player, p.bet, dealer, |p.cards|, |t.player.cards| + 1)
  {
    var q := t.player;
    var q' := DrawOnto(t).player;
    HitFromGrow(q, q', p.bet, dealer, |p.cards|, |q.cards|);
    assert q'.cards[..|q.cards|] == q.cards;
    assert Player(q'.cards[..|q.cards|], p.bet, q'.isSplit) == q;
    assert ActedAt(q', p.bet, dealer, |q.cards|, Hit);
  }

  /** A policy hit keeps the turn played by the policy. */
  lemma PlayedHit(p: Player, dealer: seq<Card>, t: Turn)
    requires |dealer| > 0 && Ongoing(p, dealer, t) && |t.shoe| > 0 && |t.player.cards| >= |p.cards| && |t.player.cards| > 0
    requires GetDecision(t.player, dealer) == Hit
    ensures Played(p, dealer, DrawOnto(t))
    ensures ResolveBlackjack(DrawOnto(t).player, dealer).None? ==> Ongoing(p, dealer, DrawOnto(t))
  {
    HitFollows(p, dealer, t);
  }

  /** A policy Double ends a turn played by the policy. */
  lemma PlayedDouble(p: Player, dealer: seq<Card>, t: Turn)
    requires |dealer| > 0 && Ongoing(p, dealer, t) && |t.shoe| > 0 && |t.player.cards| >= |p.cards| && |t.player.cards| > 0
    requires GetDecision(t.player, dealer) == Double
    ensures Played(p, dealer, DoubleDown(t))
  {
    var q := t.player;
    var q' := DoubleDown(t).player;
    HitFromGrow(q, q', p.bet, dealer, |p.cards|, |q.cards|);
    assert q'.cards[..|q.cards|] == q.cards;
    assert Player(q'.cards[..|q.cards|], p.bet, q'.isSplit) == q;
    assert ActedAt(q', p.bet, dealer, |q.cards|, Double);
  }

  /**
   * A split can only come first in a turn: the hand is still the dealt pair
   * `p`, so the split is the policy's choice on `p`.
   */
  lemma PlayedSplit(shoe: seq<Card>, p: Player, dealer: seq<Card>, t: Turn)
    requires |dealer| > 0 && Drawn(shoe, p, t) && Ongoing(p, dealer, t) && |t.shoe| >= 2
    requires GetDecision(t.player, dealer) == Split
    ensures Played(p, dealer, SplitOff(t))
    ensures ResolveBlackjack(SplitOff(t).player, dealer).None? ==> Ongoing(p, dealer, SplitOff(t))
  {
    var q := t.player;
    assert |t.spawned| == 0;
    assert |Reverse(shoe[|t.shoe|..])| == 0;
    assert q.cards == p.cards;
    assert q == p;
  }
}
