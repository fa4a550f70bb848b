/**
 * The fixed basic-strategy policy: a decision for a player's hand against the
 * dealer's up-card, written as the nested conditional the game uses, and the
 * same policy written as a basic-strategy chart, with a proof that they agree.
 */
module Strategy {
  import opened Cards
  import opened Valuation

  datatype Decision = Hit | Stand | Double | Split

  /** The up-card's value as the tables use it: its lowest total, so an ace counts 1. */
  function UpValue(c: Card): int
  {
    Points(c.rank)
  }

  lemma UpValueIsLowestTotal(c: Card)
    ensures GetValue([c]).Some?
    ensures GetValue([c]).value[0] == UpValue(c)
    ensures 1 <= UpValue(c) <= 10
  {
    assert [c][..0] == [];
    GetValueClosedForm([c]);
  }

  lemma PairsNeverBust(cards: seq<Card>)
    ensures IsPair(cards) ==> GetValue(cards).Some?
  {
    if |cards| == 2 {
      TwoCardsNeverBust(cards);
    }
  }

  /**
   * The decision for player hand `p` when the dealer holds `dealer`, whose
   * first card is the up-card. A busted hand, or a split hand that starts with
   * an ace, stands; a pair that has not been split is looked up by its rank;
   * otherwise a soft hand (two totals) or a hard hand is looked up by its best
   * total.
   */
  function GetDecision(p: Player, dealer: seq<Card>): (d: Decision)
    requires |p.cards| > 0 && |dealer| > 0
    ensures GetValue(p.cards).None? ==> d == Stand
    ensures p.isSplit && p.cards[0].rank == Ace ==> d == Stand
    ensures d == Split ==> !p.isSplit && IsPair(p.cards)
    ensures !p.isSplit && IsPair(p.cards) && p.cards[0].rank in {Ace, Eight} ==> d == Split
  {
    UpValueIsLowestTotal(dealer[0]);
    PairsNeverBust(p.cards);
    var valuePlayer := GetValue(p.cards);
    var valueDealer := GetValue([dealer[0]]).value[0];
    if valuePlayer.None? || (p.isSplit && p.cards[0].rank == Ace) then Stand
    else
      var isPair := |p.cards| == 2 && p.cards[0].rank == p.cards[1].rank;
      TableDecision(valuePlayer.value, isPair && !p.isSplit, p.cards[0].rank, valueDealer)
  }

  /**
   * The table part of the decision, once bust and split aces are ruled out:
   * `values` are the hand's non-busting totals, `unsplitPair` says the hand is
   * a pair that has not been split, `rank` is its first card's rank and
   * `valueDealer` the up-card's value.
   */
  function TableDecision(values: seq<int>, unsplitPair: bool, rank: Rank, valueDealer: int): (d: Decision)
    requires |values| > 0
    ensures d == Split ==> unsplitPair
    ensures unsplitPair && rank in {Ace, Eight} ==> d == Split
  {
    var realValuePlayer := values[|values| - 1];
    if unsplitPair && (rank == Ace || rank == Eight) then Split
    else if unsplitPair && rank == Nine then
      (if valueDealer in [7, 10, 1] then Stand else Split)
    else if unsplitPair && rank == Seven then
      (if valueDealer in [9, 10, 1] then Hit else Split)
    else if unsplitPair && rank == Six then
      (if valueDealer in [8, 9, 10, 1] then Hit else Split)
    else if unsplitPair && rank == Four then
      (if valueDealer in [2, 3, 4, 7, 8, 9, 10, 1] then Hit else Split)
    else if unsplitPair && (rank == Three || rank == Two) then
      (if valueDealer in [8, 9, 10, 1] then Hit else Split)
    else if |values| == 2 then
      if realValuePlayer == 13 || realValuePlayer == 14 then
        (if valueDealer in [5, 6] then Double else Hit)
      else if realValuePlayer == 15 || realValuePlayer == 16 then
        (if valueDealer in [4, 5, 6] then Double else Hit)
      else if realValuePlayer == 17 then
        (if valueDealer in [3, 4, 5, 6] then Double else Hit)
      else if realValuePlayer == 18 then
        (if valueDealer in [3, 4, 5, 6] then Double
         else if valueDealer in [2, 7, 8] then Stand
         else Hit)
      else Stand
    else if realValuePlayer <= 8 then Hit
    else if realValuePlayer == 9 then
      (if valueDealer in [2, 3, 4, 5, 6] then Double else Hit)
    else if realValuePlayer == 10 then
      (if valueDealer in [2, 3, 4, 5, 6, 7, 8, 9] then Double else Hit)
    else if realValuePlayer == 11 then Double
    else if realValuePlayer == 12 then
      (if valueDealer in [4, 5, 6] then Stand else Hit)
    else if 13 <= realValuePlayer <= 16 then
      (if valueDealer in [2, 3, 4, 5, 6] then Stand else Hit)
    else Stand
  }

  /* ---------- The same policy as a basic-strategy chart ---------- */

  /** The row of the chart a hand is read from. */
  datatype Category =
    | BustedHand
    | SplitAces
    | PairOf(rank: Rank)
    | Soft(total: int)
    | Hard(total: int)

  /** Ranks whose unsplit pairs have their own row. */
  const PairRows: set<Rank> := {Ace, Two, Three, Four, Six, Seven, Eight, Nine}

  /** Chooses the chart row from the hard total and ace count alone. */
  function Classify(p: Player): Category
    requires |p.cards| > 0
  {
    var hard := HardTotal(p.cards);
    if hard > BustLimit then BustedHand
    else if p.isSplit && p.cards[0].rank == Ace then SplitAces
    else if !p.isSplit && IsPair(p.cards) && p.cards[0].rank in PairRows then PairOf(p.cards[0].rank)
    else if AceCount(p.cards) > 0 && hard + 10 <= BustLimit then Soft(hard + 10)
    else Hard(hard)
  }

  /**
   * One chart row: ten letters for the dealer's up-card 2, 3, …, 10, A.
   * H = hit, S = stand, D = double, P = split.
   */
  function Row(c: Category): (row: string)
    ensures |row| == 10
  {
    match c
    case BustedHand => "SSSSSSSSSS"
    case SplitAces => "SSSSSSSSSS"
    case PairOf(r) =>
      if r == Ace || r == Eight then "PPPPPPPPPP"
      else if r == Nine then "PPPPPSPPSS"
      else if r == Seven then "PPPPPPPHHH"
      else if r == Six then "PPPPPPHHHH"
      else if r == Four then "HHHPPHHHHH"
      else "PPPPPPHHHH"
    case Soft(t) =>
      if t == 13 || t == 14 then "HHHDDHHHHH"
      else if t == 15 || t == 16 then "HHDDDHHHHH"
      else if t == 17 then "HDDDDHHHHH"
      else if t == 18 then "SDDDDSSHHH"
      else "SSSSSSSSSS"
    case Hard(t) =>
      if t <= 8 then "HHHHHHHHHH"
      else if t == 9 then "DDDDDHHHHH"
      else if t == 10 then "DDDDDDDDHH"
      else if t == 11 then "DDDDDDDDDD"
      else if t == 12 then "HHSSSHHHHH"
      else if t <= 16 then "SSSSSHHHHH"
      else "SSSSSSSSSS"
  }

  /** The chart column of an up-card value: 2 … 10 in order, then the ace. */
  function Column(up: int): (col: nat)
    requires 1 <= up <= 10
    ensures col < 10
  {
    if up == 1 then 9 else up - 2
  }

  function Letter(ch: char): Decision
  {
    if ch == 'H' then Hit else if ch == 'S' then Stand else if ch == 'D' then Double else Split
  }

  function ChartDecision(c: Category, up: int): Decision
    requires 1 <= up <= 10
  {
    Letter(Row(c)[Column(up)])
  }

  /** The pair rows of the chart agree with the table part of the decision. */
  lemma PairRowsAgree(values: seq<int>, rank: Rank, up: int)
    requires |values| > 0 && rank in PairRows && 1 <= up <= 10
    ensures TableDecision(values, true, rank, up) == ChartDecision(PairOf(rank), up)
  {
  }

  /** The soft rows of the chart agree with the table part of the decision. */
  lemma SoftRowsAgree(hard: int, unsplitPair: bool, rank: Rank, up: int)
    requires !unsplitPair || rank !in PairRows
    requires 1 <= up <= 10
    ensures TableDecision([hard, hard + 10], unsplitPair, rank, up) == ChartDecision(Soft(hard + 10), up)
  {
  }

  /** The hard rows of the chart agree with the table part of the decision. */
  lemma HardRowsAgree(hard: int, unsplitPair: bool, rank: Rank, up: int)
    requires !unsplitPair || rank !in PairRows
    requires 1 <= up <= 10
    ensures TableDecision([hard], unsplitPair, rank, up) == ChartDecision(Hard(hard), up)
  {
    if hard <= 11 {
      LowHardRowsAgree(hard, unsplitPair, rank, up);
    } else {
      HighHardRowsAgree(hard, unsplitPair, rank, up);
    }
  }

  lemma LowHardRowsAgree(hard: int, unsplitPair: bool, rank: Rank, up: int)
    requires !unsplitPair || rank !in PairRows
    requires 1 <= up <= 10 && hard <= 11
    ensures TableDecision([hard], unsplitPair, rank, up) == ChartDecision(Hard(hard), up)
  {
  }

  lemma HighHardRowsAgree(hard: int, unsplitPair: bool, rank: Rank, up: int)
    requires !unsplitPair || rank !in PairRows
    requires 1 <= up <= 10 && hard > 11
    ensures TableDecision([hard], unsplitPair, rank, up) == ChartDecision(Hard(hard), up)
  {
  }

  /**
   * The decision in terms of the hard total, against up-card value `up`:
   * bust and split aces stand, the rest is the table part on the closed-form
   * totals.
   */
  function Unfolded(p: Player, up: int): Decision
    requires |p.cards| > 0
  {
    if HardTotal(p.cards) > BustLimit || (p.isSplit && p.cards[0].rank == Ace) then Stand
    else TableDecision(ClosedTotals(p.cards), IsPair(p.cards) && !p.isSplit, p.cards[0].rank, up)
  }

  /** The game's decision is the decision in terms of the hard total. */
  lemma GetDecisionUnfold(p: Player, dealer: seq<Card>)
    requires |p.cards| > 0 && |dealer| > 0
    ensures 1 <= UpValue(dealer[0]) <= 10
    ensures GetDecision(p, dealer) == Unfolded(p, UpValue(dealer[0]))
  {
    var up := UpValue(dealer[0]);
    assert 1 <= up <= 10 && GetValue([dealer[0]]).value[0] == up by {
      UpValueIsLowestTotal(dealer[0]);
    }
    var h := HardTotal(p.cards);
    assert GetValue(p.cards).None? <==> h > BustLimit by {
      BustIffHardOver(p.cards);
    }
    if h <= BustLimit {
      assert GetValue(p.cards).value == ClosedTotals(p.cards) by {
        GetValueClosedForm(p.cards);
      }
    }
  }

  lemma PairChart(p: Player, up: int)
    requires |p.cards| > 0 && 1 <= up <= 10 && Classify(p).PairOf?
    ensures Unfolded(p, up) == ChartDecision(Classify(p), up)
  {
    PairRowsAgree(ClosedTotals(p.cards), p.cards[0].rank, up);
  }

  lemma SoftChart(p: Player, up: int)
    requires |p.cards| > 0 && 1 <= up <= 10 && Classify(p).Soft?
    ensures Unfolded(p, up) == ChartDecision(Classify(p), up)
  {
    var h := HardTotal(p.cards);
    assert ClosedTotals(p.cards) == [h, h + 10];
    SoftRowsAgree(h, IsPair(p.cards) && !p.isSplit, p.cards[0].rank, up);
  }

  lemma HardChart(p: Player, up: int)
    requires |p.cards| > 0 && 1 <= up <= 10 && Classify(p).Hard?
    ensures Unfolded(p, up) == ChartDecision(Classify(p), up)
  {
    var h := HardTotal(p.cards);
    assert ClosedTotals(p.cards) == [h];
    HardRowsAgree(h, IsPair(p.cards) && !p.isSplit, p.cards[0].rank, up);
  }

  lemma StandChart(p: Player, up: int)
    requires |p.cards| > 0 && 1 <= up <= 10 && (Classify(p).BustedHand? || Classify(p).SplitAces?)
    ensures Unfolded(p, up) == ChartDecision(Classify(p), up) == Stand
  {
  }

  /** The game's decision is the chart's cell for the hand's row and the up-card's column. */
  lemma GetDecisionFollowsChart(p: Player, dealer: seq<Card>)
    requires |p.cards| > 0 && |dealer| > 0
    ensures 1 <= UpValue(dealer[0]) <= 10
    ensures GetDecision(p, dealer) == ChartDecision(Classify(p), UpValue(dealer[0]))
  {
    GetDecisionUnfold(p, dealer);
    var up := UpValue(dealer[0]);
    var c := Classify(p);
    if c.PairOf? {
      PairChart(p, up);
    } else if c.Soft? {
      SoftChart(p, up);
    } else if c.Hard? {
      HardChart(p, up);
    } else {
      StandChart(p, up);
    }
  }
}
