/** Cards, their ranks and suits, and a player's hand. */
module Cards {

  /** The thirteen card values, in the order the shoe is built: 2 … 10, J, Q, K, A. */
  datatype Rank = Two | Three | Four | Five | Six | Seven | Eight | Nine | Ten | Jack | Queen | King | Ace

  /** The four suits. A suit is carried by every card but never affects its value. */
  datatype Suit = Spades | Hearts | Diamonds | Clubs

  datatype Card = Card(rank: Rank, suit: Suit)

  const Ranks: seq<Rank> := [Two, Three, Four, Five, Six, Seven, Eight, Nine, Ten, Jack, Queen, King, Ace]
  const Suits: seq<Suit> := [Spades, Hearts, Diamonds, Clubs]

  /** Position of a rank in `Ranks`. */
  function RankIndex(r: Rank): (i: nat)
    ensures i < |Ranks| && Ranks[i] == r
  {
    match r
    case Two => 0
    case Three => 1
    case Four => 2
    case Five => 3
    case Six => 4
    case Seven => 5
    case Eight => 6
    case Nine => 7
    case Ten => 8
    case Jack => 9
    case Queen => 10
    case King => 11
    case Ace => 12
  }

  /** Position of a suit in `Suits`. */
  function SuitIndex(s: Suit): (i: nat)
    ensures i < |Suits| && Suits[i] == s
  {
    match s
    case Spades => 0
    case Hearts => 1
    case Diamonds => 2
    case Clubs => 3
  }

  lemma RankIndexOfRanks(v: nat)
    requires v < |Ranks|
    ensures RankIndex(Ranks[v]) == v
  {
  }

  lemma SuitIndexOfSuits(s: nat)
    requires s < |Suits|
    ensures SuitIndex(Suits[s]) == s
  {
  }

  datatype Option<T> = None | Some(value: T)

  /** The stake every new hand starts with. */
  const InitialBet: int := 2

  /** A player's hand: its cards, its stake, and whether it came out of a split. */
  datatype Player = Player(cards: seq<Card>, bet: int, isSplit: bool)

  predicate IsPair(cards: seq<Card>)
  {
    |cards| == 2 && cards[0].rank == cards[1].rank
  }
}
