/**
 * The shoe: building it from whole decks, shuffling it, drawing a card from it
 * and appending returned cards to it.
 */
module Deck {
  import opened Cards

  /** A draw-dependent computation either succeeds or finds the shoe empty. */
  datatype Result<T> = Ok(value: T) | EmptyShoe

  /** Cards of one full deck. */
  const DeckSize: nat := 52

  /**
   * Builds a shoe of `nbDeck` decks: for each deck, every rank in order and,
   * within a rank, every suit in order. Each (rank, suit) pair occurs once per deck.
   */
  method NewShoe(nbDeck: nat) returns (cards: seq<Card>)
    ensures |cards| == DeckSize * nbDeck
    ensures forall c: Card :: multiset(cards)[c] == nbDeck
  {
    cards := [];
    var i := 0;
    while i < nbDeck
      invariant 0 <= i <= nbDeck
      invariant |cards| == DeckSize * i
      invariant forall c: Card :: multiset(cards)[c] == i
    {
      var v := 0;
      while v < |Ranks|
        invariant 0 <= v <= |Ranks|
        invariant |cards| == DeckSize * i + 4 * v
        invariant forall c: Card :: multiset(cards)[c] == i + (if RankIndex(c.rank) < v then 1 else 0)
      {
        var s := 0;
        RankIndexOfRanks(v);
        while s < |Suits|
          invariant 0 <= s <= |Suits|
          invariant |cards| == DeckSize * i + 4 * v + s
          invariant forall c: Card ::
                      multiset(cards)[c] == i + (if RankIndex(c.rank) < v || (RankIndex(c.rank) == v && SuitIndex(c.suit) < s) then 1 else 0)
        {
          SuitIndexOfSuits(s);
          cards := cards + [Card(Ranks[v], Suits[s])];
          s := s + 1;
        }
        v := v + 1;
      }
      i := i + 1;
    }
  }

  /** Random indices for shuffling `n` cards: the k-th pick lies in [0, n - k). */
  predicate ValidPicks(picks: seq<nat>, n: nat)
  {
    |picks| == n && forall k :: 0 <= k < n ==> picks[k] < n - k
  }

  function Swap(cards: seq<Card>, i: nat, j: nat): (r: seq<Card>)
    requires i < |cards| && j < |cards|
    ensures |r| == |cards| && r[i] == cards[j] && r[j] == cards[i]
    ensures forall k :: 0 <= k < |cards| && k != i && k != j ==> r[k] == cards[k]
    ensures multiset(r) == multiset(cards)
  {
    cards[i := cards[j]][j := cards[i]]
  }

  /**
   * Fisher–Yates shuffle, last position first: position `currentIndex - 1` is
   * swapped with a pick in [0, currentIndex). The random numbers are the `picks`.
   */
  method Shuffle(cards: seq<Card>, picks: seq<nat>) returns (shuffled: seq<Card>)
    requires ValidPicks(picks, |cards|)
    ensures |shuffled| == |cards|
    ensures multiset(shuffled) == multiset(cards)
  {
    shuffled := cards;
    var currentIndex := |cards|;
    while currentIndex != 0
      invariant 0 <= currentIndex <= |cards|
      invariant |shuffled| == |cards|
      invariant multiset(shuffled) == multiset(cards)
    {
      var randomIndex := picks[|cards| - currentIndex];
      currentIndex := currentIndex - 1;
      shuffled := Swap(shuffled, currentIndex, randomIndex);
    }
  }

  /**
   * Removes the card at `index`, or the last card when no index is given, and
   * returns it with the remaining shoe.
   */
  function DrawCard(cards: seq<Card>, index: Option<nat>): (r: (Card, seq<Card>))
    requires |cards| > 0
    requires index.Some? ==> index.value < |cards|
    ensures var i := if index.Some? then index.value else |cards| - 1;
      && r.0 == cards[i]
      && |r.1| == |cards| - 1
      && (forall k :: 0 <= k < i ==> r.1[k] == cards[k])
      && (forall k :: i <= k < |r.1| ==> r.1[k] == cards[k + 1])
    ensures multiset(r.1) + multiset{r.0} == multiset(cards)
  {
    var i := if index.Some? then index.value else |cards| - 1;
    assert cards == cards[..i] + [cards[i]] + cards[i + 1..];
    (cards[i], cards[..i] + cards[i + 1..])
  }

  /** Drawing with no index takes the top card and leaves the cards beneath it, in order. */
  lemma DrawTop(cards: seq<Card>)
    requires |cards| > 0
    ensures DrawCard(cards, None).0 == cards[|cards| - 1]
    ensures DrawCard(cards, None).1 == cards[..|cards| - 1]
  {
    assert cards[|cards|..] == [];
    assert cards[..|cards| - 1] + [] == cards[..|cards| - 1];
  }

  /** Appends the returned cards, in their order, behind the shoe's own cards. */
  function PutBackCard(cards: seq<Card>, returned: seq<Card>): (r: seq<Card>)
    ensures |r| == |cards| + |returned|
    ensures r[..|cards|] == cards && r[|cards|..] == returned
    ensures multiset(r) == multiset(cards) + multiset(returned)
  {
    cards + returned
  }

  /** The elements of a sequence in the opposite order. */
  function Reverse<T>(s: seq<T>): (r: seq<T>)
    ensures |r| == |s|
    ensures forall k :: 0 <= k < |s| ==> r[k] == s[|s| - 1 - k]
  {
    if |s| == 0 then [] else Reverse(s[1..]) + [s[0]]
  }

  lemma ReverseMultiset<T>(s: seq<T>)
    ensures multiset(Reverse(s)) == multiset(s)
  {
    if |s| > 0 {
      ReverseMultiset(s[1..]);
      assert s == [s[0]] + s[1..];
    }
  }

  lemma ReverseReverse<T>(s: seq<T>)
    ensures Reverse(Reverse(s)) == s
  {
    assert forall k :: 0 <= k < |s| ==> Reverse(Reverse(s))[k] == s[k];
  }

  lemma ReverseSnoc<T>(s: seq<T>, x: T)
    ensures Reverse(s + [x]) == [x] + Reverse(s)
  {
    assert forall k :: 0 <= k < |s| + 1 ==> Reverse(s + [x])[k] == ([x] + Reverse(s))[k];
  }

  /**
   * Drawing from the top of `shoe` so that its suffix from `lo` on has been
   * drawn, one more draw takes `shoe[lo - 1]` and appends it to the drawn cards.
   */
  lemma ReverseStep<T>(shoe: seq<T>, lo: nat, hi: nat)
    requires 0 < lo <= hi <= |shoe|
    ensures Reverse(shoe[lo - 1..hi]) == Reverse(shoe[lo..hi]) + [shoe[lo - 1]]
  {
    assert shoe[lo - 1..hi][1..] == shoe[lo..hi];
  }

  /** Draws `k` cards from the top, returning them in draw order and the rest of the shoe. */
  function DrawMany(shoe: seq<Card>, k: nat): (r: (seq<Card>, seq<Card>))
    requires k <= |shoe|
    decreases k
  {
    if k == 0 then ([], shoe)
    else
      var top := DrawCard(shoe, None);
      var more := DrawMany(top.1, k - 1);
      ([top.0] + more.0, more.1)
  }

  /** Drawing k cards from the top takes the last k cards of the shoe, the last one first. */
  lemma {:induction false} DrawManyTakesTop(shoe: seq<Card>, k: nat)
    requires k <= |shoe|
    ensures DrawMany(shoe, k).1 == shoe[..|shoe| - k]
    ensures DrawMany(shoe, k).0 == Reverse(shoe[|shoe| - k..])
    decreases k
  {
    if k > 0 {
      var n := |shoe|;
      var rest := shoe[..n - 1];
      assert DrawMany(shoe, k).0 == [shoe[n - 1]] + DrawMany(rest, k - 1).0
          && DrawMany(shoe, k).1 == DrawMany(rest, k - 1).1 by {
        DrawTop(shoe);
      }
      DrawManyTakesTop(rest, k - 1);
      assert rest[..n - k] == shoe[..n - k];
      var y := rest[n - k..];
      assert shoe[n - k..] == y + [shoe[n - 1]];
      ReverseSnoc(y, shoe[n - 1]);
    }
  }

  /**
   * Drawing k cards and putting them back leaves the shoe with its original
   * length and contents; putting them back in reverse draw order restores the
   * original order exactly.
   */
  lemma DrawManyPutBack(shoe: seq<Card>, k: nat)
    requires k <= |shoe|
    ensures PutBackCard(DrawMany(shoe, k).1, Reverse(DrawMany(shoe, k).0)) == shoe
    ensures multiset(PutBackCard(DrawMany(shoe, k).1, DrawMany(shoe, k).0)) == multiset(shoe)
    ensures |PutBackCard(DrawMany(shoe, k).1, DrawMany(shoe, k).0)| == |shoe|
  {
    var top := shoe[|shoe| - k..];
    var drawn := DrawMany(shoe, k).0;
    var left := DrawMany(shoe, k).1;
    assert left == shoe[..|shoe| - k] && drawn == Reverse(top) by {
      DrawManyTakesTop(shoe, k);
    }
    assert shoe == left + top;
    assert multiset(drawn) == multiset(top) by {
      ReverseMultiset(top);
    }
    assert Reverse(drawn) == top by {
      ReverseReverse(top);
    }
  }
}
