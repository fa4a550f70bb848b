/**
 * Hand valuation: the set of totals a hand can reach when every ace counts as
 * 1 or 11, the totals that do not bust, and blackjack.
 */
module Valuation {
  import opened Cards

  /** The best a hand can total without busting. */
  const BustLimit: int := 21

  /** A card's value with an ace counted low: 2–10 at face, J, Q and K at 10, A at 1. */
  function Points(r: Rank): nat
  {
    match r
    case Two => 2
    case Three => 3
    case Four => 4
    case Five => 5
    case Six => 6
    case Seven => 7
    case Eight => 8
    case Nine => 9
    case Ten => 10
    case Jack => 10
    case Queen => 10
    case King => 10
    case Ace => 1
  }

  /**
   * Adds one card to every partial sum: an ace branches each sum into +1 and
   * +11 (duplicates merge, as in a set); any other card adds its value.
   */
  function AddCard(sums: set<int>, c: Card): set<int>
  {
    if c.rank == Ace then (set v | v in sums :: v + 1) + (set v | v in sums :: v + 11)
    else set v | v in sums :: v + Points(c.rank)
  }

  /** Every total the hand can reach, seeded with {0} and folded over the cards in order. */
  function Sums(cards: seq<Card>): set<int>
  {
    if |cards| == 0 then {0} else AddCard(Sums(cards[..|cards| - 1]), cards[|cards| - 1])
  }

  /** The hand's total with every ace counted as 1. */
  function HardTotal(cards: seq<Card>): nat
  {
    if |cards| == 0 then 0 else HardTotal(cards[..|cards| - 1]) + Points(cards[|cards| - 1].rank)
  }

  function AceCount(cards: seq<Card>): nat
  {
    if |cards| == 0 then 0 else AceCount(cards[..|cards| - 1]) + (if cards[|cards| - 1].rank == Ace then 1 else 0)
  }

  /** Adding a card to the end of a hand adds its value and, for an ace, one more ace. */
  lemma Snoc(cards: seq<Card>, c: Card)
    ensures (cards + [c])[..|cards|] == cards
    ensures HardTotal(cards + [c]) == HardTotal(cards) + Points(c.rank)
    ensures AceCount(cards + [c]) == AceCount(cards) + (if c.rank == Ace then 1 else 0)
  {
    assert (cards + [c])[..|cards|] == cards;
  }

  /** Every card is worth at least 1, and every card other than an ace at least 2. */
  lemma {:induction false} HardTotalBounds(cards: seq<Card>)
    ensures AceCount(cards) <= |cards| <= HardTotal(cards)
    ensures 2 * |cards| - AceCount(cards) <= HardTotal(cards)
  {
    if |cards| > 0 {
      HardTotalBounds(cards[..|cards| - 1]);
    }
  }

  /**
   * Closed form of the partial sums: the hard total plus ten for each ace
   * counted high, i.e. hard, hard + 10, …, hard + 10 * aces.
   */
  lemma {:induction false} SumsClosedForm(cards: seq<Card>)
    ensures forall v :: v in Sums(cards) <==>
      HardTotal(cards) <= v <= HardTotal(cards) + 10 * AceCount(cards) && (v - HardTotal(cards)) % 10 == 0
  {
    if |cards| > 0 {
      var init := cards[..|cards| - 1];
      var c := cards[|cards| - 1];
      SumsClosedForm(init);
      var s := Sums(init);
      var h := HardTotal(init);
      var a := AceCount(init);
      if c.rank == Ace {
        forall v: int ensures v in Sums(cards) <==> h + 1 <= v <= h + 1 + 10 * (a + 1) && (v - h - 1) % 10 == 0 {
          assert v in Sums(cards) <==> (v - 1 in s || v - 11 in s) by {
            if v - 1 in s { assert v == (v - 1) + 1; }
            if v - 11 in s { assert v == (v - 11) + 11; }
          }
        }
      } else {
        var p := Points(c.rank);
        forall v: int ensures v in Sums(cards) <==> h + p <= v <= h + p + 10 * a && (v - h - p) % 10 == 0 {
          assert v in Sums(cards) <==> v - p in s by {
            if v - p in s { assert v == (v - p) + p; }
          }
        }
      }
    }
  }

  lemma SumsNonNegative(cards: seq<Card>)
    ensures forall v :: v in Sums(cards) ==> v >= 0
  {
    SumsClosedForm(cards);
  }

  predicate StrictlyAscending(s: seq<int>)
  {
    forall i, j :: 0 <= i < j < |s| ==> s[i] < s[j]
  }

  /** The members of `s` in the range [lo, hi), listed once each in ascending order. */
  function Ascending(s: set<int>, lo: int, hi: int): (r: seq<int>)
    ensures StrictlyAscending(r)
    ensures forall x :: x in r <==> x in s && lo <= x < hi
    decreases hi - lo
  {
    if lo >= hi then []
    else
      var rest := Ascending(s, lo + 1, hi);
      assert forall j :: 0 <= j < |rest| ==> rest[j] in rest;
      assert forall j :: 0 <= j < |rest| ==> lo < rest[j];
      (if lo in s then [lo] else []) + rest
  }

  lemma FirstIsMember(s: seq<int>)
    requires |s| > 0
    ensures s[0] in s
  {
  }

  /** Two ascending listings of the same values are the same listing. */
  lemma {:induction false} AscendingUnique(a: seq<int>, b: seq<int>)
    requires StrictlyAscending(a) && StrictlyAscending(b)
    requires forall x :: x in a <==> x in b
    ensures a == b
  {
    if |a| == 0 {
      if |b| > 0 {
        FirstIsMember(b);
        assert false;
      }
    } else {
      assert a[0] in a;
      assert a[0] in b;
      assert |b| > 0;
      assert b[0] in b;
      assert b[0] in a;
      assert a[0] == b[0];
      forall x ensures x in a[1..] <==> x in b[1..] {
        assert x in a[1..] <==> x in a && x != a[0];
        assert x in b[1..] <==> x in b && x != b[0];
      }
      AscendingUnique(a[1..], b[1..]);
      assert a == [a[0]] + a[1..];
      assert b == [b[0]] + b[1..];
    }
  }

  /** The reachable totals that do not bust. */
  function Valid(cards: seq<Card>): set<int>
  {
    set v | v in Sums(cards) && v <= BustLimit
  }

  /**
   * The totals of a hand that do not bust, each once, in ascending order; None
   * when every total busts. Sums are never negative, so listing the range
   * [0, 21] in order sorts the filtered set.
   */
  function GetValue(cards: seq<Card>): (r: Option<seq<int>>)
    ensures r.None? ==> forall v :: v in Sums(cards) ==> v > BustLimit
    ensures r.Some? ==> exists v :: v in Sums(cards) && v <= BustLimit
    ensures r.Some? ==> |r.value| > 0 && StrictlyAscending(r.value)
    ensures r.Some? ==> forall v :: v in r.value <==> v in Sums(cards) && v <= BustLimit
  {
    SumsNonNegative(cards);
    var sorted := Ascending(Valid(cards), 0, BustLimit + 1);
    assert forall v :: v in Sums(cards) && v <= BustLimit ==> v in Valid(cards) && v in sorted;
    if |sorted| > 0 then
      assert sorted[0] in sorted;
      assert sorted[0] in Valid(cards);
      assert sorted[0] in Sums(cards) && sorted[0] <= BustLimit;
      assert !(forall v :: v in Sums(cards) ==> v > BustLimit);
      Some(sorted)
    else None
  }

  /** The highest non-busting total. */
  function Best(cards: seq<Card>): int
    requires GetValue(cards).Some?
  {
    GetValue(cards).value[|GetValue(cards).value| - 1]
  }

  /** The best total in closed form: ten more than the hard total when an ace can count 11 without busting. */
  function ClosedBest(cards: seq<Card>): int
  {
    var h := HardTotal(cards);
    if AceCount(cards) > 0 && h + 10 <= BustLimit then h + 10 else h
  }

  /** The non-busting totals in closed form: the hard total, and ten more when an ace can count 11. */
  function ClosedTotals(cards: seq<Card>): seq<int>
  {
    var h := HardTotal(cards);
    if h > BustLimit then []
    else if AceCount(cards) > 0 && h + 10 <= BustLimit then [h, h + 10]
    else [h]
  }

  lemma ValidClosedForm(cards: seq<Card>)
    ensures forall v :: v in Sums(cards) && v <= BustLimit <==> v in ClosedTotals(cards)
  {
    var h := HardTotal(cards);
    var a := AceCount(cards);
    SumsClosedForm(cards);
    HardTotalBounds(cards);
    forall v | v in Sums(cards) && v <= BustLimit
      ensures v == h || (v == h + 10 && a > 0)
    {
      assert h <= v <= h + 10 * a && (v - h) % 10 == 0;
      if a >= 2 {
        assert h >= 2;
      }
    }
    if h <= BustLimit {
      assert h in Sums(cards);
    }
    if a > 0 && h + 10 <= BustLimit {
      assert h + 10 in Sums(cards);
    }
  }

  /**
   * `GetValue` in closed form: bust when the hard total exceeds 21; two totals
   * when the hand holds an ace that can count 11 without busting; one otherwise.
   */
  lemma GetValueClosedForm(cards: seq<Card>)
    ensures var h := HardTotal(cards);
      GetValue(cards) ==
        if h > BustLimit then None
        else if AceCount(cards) > 0 && h + 10 <= BustLimit then Some([h, h + 10])
        else Some([h])
  {
    ValidClosedForm(cards);
    var r := GetValue(cards);
    var expected := ClosedTotals(cards);
    if HardTotal(cards) <= BustLimit {
      assert HardTotal(cards) in expected;
      assert r.Some?;
      AscendingUnique(r.value, expected);
    } else {
      assert forall v :: v in Sums(cards) ==> v > BustLimit;
    }
  }

  /**
   * A hand has at most two non-busting totals, and exactly one when it holds
   * no ace; a soft hand's totals are ten apart.
   */
  lemma TotalsCount(cards: seq<Card>)
    requires GetValue(cards).Some?
    ensures 1 <= |GetValue(cards).value| <= 2
    ensures AceCount(cards) == 0 ==> |GetValue(cards).value| == 1
    ensures |GetValue(cards).value| == 2 ==> GetValue(cards).value[1] == GetValue(cards).value[0] + 10
    ensures GetValue(cards).value[0] == HardTotal(cards)
    ensures GetValue(cards).value[|GetValue(cards).value| - 1] <= BustLimit
  {
    GetValueClosedForm(cards);
  }

  /** A hand busts exactly when its hard total exceeds 21. */
  lemma BustIffHardOver(cards: seq<Card>)
    ensures GetValue(cards).None? <==> HardTotal(cards) > BustLimit
  {
    GetValueClosedForm(cards);
  }

  /** The best total of a hand that does not bust is its closed-form best total. */
  lemma BestClosedForm(cards: seq<Card>)
    requires GetValue(cards).Some?
    ensures Best(cards) == ClosedBest(cards)
  {
    GetValueClosedForm(cards);
  }

  /** No two-card hand busts: two aces make 2 or 12, any other pair at most 20. */
  lemma TwoCardsNeverBust(cards: seq<Card>)
    requires |cards| == 2
    ensures GetValue(cards).Some?
  {
    Snoc([], cards[0]);
    Snoc([cards[0]], cards[1]);
    assert cards == [cards[0]] + [cards[1]];
    BustIffHardOver(cards);
  }

  /** A non-busted hand holds no more cards than its best total. */
  lemma {:induction false} CardsAtMostBest(cards: seq<Card>)
    requires GetValue(cards).Some?
    ensures |cards| <= HardTotal(cards) <= Best(cards) <= BustLimit
  {
    assert HardTotal(cards) <= Best(cards) <= BustLimit by {
      TotalsCount(cards);
    }
    assert |cards| <= HardTotal(cards) by {
      HardTotalBounds(cards);
    }
  }

  /** A two-card hand that can reach 21. */
  function IsBlackjack(cards: seq<Card>): (b: bool)
    ensures b <==> |cards| == 2 && BustLimit in Sums(cards)
  {
    var values := GetValue(cards);
    if values.None? then false else BustLimit in values.value && |cards| == 2
  }

  /** Two cards, one an ace and the other worth ten. */
  predicate AceAndTen(cards: seq<Card>)
  {
    |cards| == 2 &&
    ((cards[0].rank == Ace && Points(cards[1].rank) == 10) || (cards[1].rank == Ace && Points(cards[0].rank) == 10))
  }

  /** A blackjack is exactly an ace together with a ten-valued card. */
  lemma BlackjackIsAceAndTen(cards: seq<Card>)
    ensures IsBlackjack(cards) <==> AceAndTen(cards)
  {
    if |cards| == 2 {
      SumsClosedForm(cards);
      Snoc([], cards[0]);
      Snoc([cards[0]], cards[1]);
      assert cards == [cards[0]] + [cards[1]];
    }
  }

  /** Sample hands and their totals. */
  lemma ExampleOneAce()
    ensures GetValue([Card(Ace, Spades)]) == Some([1, 11])
  {
    var a1 := [Card(Ace, Spades)];
    assert a1[..0] == [];
    GetValueClosedForm(a1);
  }

  lemma ExampleThreeAces()
    ensures GetValue([Card(Ace, Spades), Card(Ace, Hearts), Card(Ace, Clubs)]) == Some([3, 13])
  {
    var a1 := [Card(Ace, Spades)];
    var a2 := a1 + [Card(Ace, Hearts)];
    var a3 := a2 + [Card(Ace, Clubs)];
    assert a1[..0] == [];
    Snoc(a1, Card(Ace, Hearts));
    Snoc(a2, Card(Ace, Clubs));
    assert a3 == [Card(Ace, Spades), Card(Ace, Hearts), Card(Ace, Clubs)];
    GetValueClosedForm(a3);
  }

  lemma ExampleBust()
    ensures GetValue([Card(Ten, Spades), Card(King, Hearts), Card(Five, Clubs)]) == None
  {
    var t1 := [Card(Ten, Spades)];
    var t2 := t1 + [Card(King, Hearts)];
    var t3 := t2 + [Card(Five, Clubs)];
    assert t1[..0] == [];
    Snoc(t1, Card(King, Hearts));
    Snoc(t2, Card(Five, Clubs));
    assert t3 == [Card(Ten, Spades), Card(King, Hearts), Card(Five, Clubs)];
    GetValueClosedForm(t3);
  }

  lemma ExampleBlackjack()
    ensures IsBlackjack([Card(Ace, Spades), Card(King, Hearts)])
    ensures !IsBlackjack([Card(Ace, Spades), Card(King, Hearts), Card(Two, Clubs)])
  {
    BlackjackIsAceAndTen([Card(Ace, Spades), Card(King, Hearts)]);
  }
}
