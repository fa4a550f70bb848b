/**
 * The tallies of a simulation: results are counted over all rounds and, in
 * parallel, per number of player hands at the end of the round (one, or two
 * after a split). A per-hand-count tally is created the first time a round
 * ends with that many hands.
 */
module Tally {
  import opened Buckets

  /** The running tallies: the net result, the overall bucket, and one bucket per hand count seen. */
  datatype Stats = Stats(win: real, totals: Bucket, split: map<nat, Bucket>)

  const NoStats: Stats := Stats(0.0, EmptyBucket, map[])

  /** The bucket for rounds that ended with `n` hands; empty when none has. */
  function Of(st: Stats, n: nat): Bucket
  {
    if n in st.split then st.split[n] else EmptyBucket
  }

  /** Tallies one round that ended with `nbHands` hands and result `thisWin`. */
  function Record(st: Stats, nbHands: nat, thisWin: real): Stats
  {
    var bucket := if nbHands in st.split then st.split[nbHands] else EmptyBucket;
    Stats(st.win + thisWin, Count(st.totals, thisWin), st.split[nbHands := Count(bucket, thisWin)])
  }

  /**
   * Recording a round creates the bucket for its hand count if needed, counts
   * the result in it and in the overall bucket, and adds it to the net result.
   */
  lemma RecordFacts(st: Stats, nbHands: nat, thisWin: real)
    ensures nbHands in Record(st, nbHands, thisWin).split
    ensures Of(Record(st, nbHands, thisWin), nbHands) == Count(Of(st, nbHands), thisWin)
    ensures Record(st, nbHands, thisWin).totals == Count(st.totals, thisWin)
    ensures Record(st, nbHands, thisWin).win == st.win + thisWin
  {
  }

  /** Recording a round touches no other hand count's bucket. */
  lemma RecordKeepsOthers(st: Stats, nbHands: nat, thisWin: real, n: nat)
    requires n != nbHands
    ensures n in Record(st, nbHands, thisWin).split <==> n in st.split
    ensures Of(Record(st, nbHands, thisWin), n) == Of(st, n)
  {
  }

  /**
   * The tallies agree with each other: only hand counts 1 and 2 occur, a
   * bucket exists only once a round landed in it, every amount has its sign,
   * the overall bucket is the sum of the two per-hand-count buckets, and the
   * net result is the overall net.
   */
  predicate Consistent(st: Stats)
  {
    && st.split.Keys <= {1, 2}
    && Agree(1 in st.split, 2 in st.split, Of(st, 1), Of(st, 2), st.totals, st.win)
  }

  /** In consistent tallies the overall counts and the net result split over the two hand counts. */
  lemma ConsistentSplits(st: Stats)
    requires Consistent(st)
    ensures Signed(st.totals)
    ensures Rounds(st.totals) == Rounds(Of(st, 1)) + Rounds(Of(st, 2))
    ensures st.win == Net(Of(st, 1)) + Net(Of(st, 2))
  {
    SumSplits(st.totals, Of(st, 1), Of(st, 2));
  }

  /** Tallies with no round recorded yet are consistent. */
  lemma NoStatsConsistent()
    ensures Consistent(NoStats)
  {
    assert NoStats.split.Keys <= {1, 2};
    assert Agree(1 in NoStats.split, 2 in NoStats.split, Of(NoStats, 1), Of(NoStats, 2), NoStats.totals, NoStats.win) by {
      AgreeEmpty();
    }
  }

  /** Recording a round with one or two hands keeps the tallies consistent and counts one more round. */
  lemma RecordConsistent(st: Stats, nbHands: nat, thisWin: real)
    requires Consistent(st) && (nbHands == 1 || nbHands == 2)
    ensures Consistent(Record(st, nbHands, thisWin))
    ensures Rounds(Record(st, nbHands, thisWin).totals) == Rounds(st.totals) + 1
  {
    var r := Record(st, nbHands, thisWin);
    RecordFacts(st, nbHands, thisWin);
    CountFacts(st.totals, thisWin);
    if nbHands == 1 {
      RecordKeepsOthers(st, 1, thisWin, 2);
      AgreeCountOne(1 in st.split, 2 in st.split, Of(st, 1), Of(st, 2), st.totals, st.win, thisWin);
    } else {
      RecordKeepsOthers(st, 2, thisWin, 1);
      AgreeCountTwo(1 in st.split, 2 in st.split, Of(st, 1), Of(st, 2), st.totals, st.win, thisWin);
    }
  }

  /* ---------- The tallies of a whole run ---------- */

  /** What the tally keeps of one round: how many hands it ended with and its result. */
  datatype Tallied = Tallied(nbHands: nat, result: real)

  /** The tallies after recording `rounds` in order, starting from none. */
  function Tallies(rounds: seq<Tallied>): Stats
    decreases |rounds|
  {
    if |rounds| == 0 then NoStats
    else
      var last := rounds[|rounds| - 1];
      Record(Tallies(rounds[..|rounds| - 1]), last.nbHands, last.result)
  }

  /** Recording one more round extends the tallies of the rounds before it. */
  lemma TalliesSnoc(rounds: seq<Tallied>, x: Tallied)
    ensures Tallies(rounds + [x]) == Record(Tallies(rounds), x.nbHands, x.result)
  {
    assert (rounds + [x])[..|rounds|] == rounds;
  }

  /** The sum of the rounds' results, an independent account of the net result. */
  function TotalWin(rounds: seq<Tallied>): real
    decreases |rounds|
  {
    if |rounds| == 0 then 0.0 else TotalWin(rounds[..|rounds| - 1]) + rounds[|rounds| - 1].result
  }

  /** A round the game can produce ends with one or two hands and a result in [-8, 12]. */
  predicate Possible(x: Tallied)
  {
    (x.nbHands == 1 || x.nbHands == 2) && -8.0 <= x.result <= 12.0
  }

  /**
   * Tallying rounds that each end with one or two hands gives consistent
   * tallies that count every round.
   */
  lemma {:induction false} TalliesConsistent(rounds: seq<Tallied>)
    requires forall k :: 0 <= k < |rounds| ==> Possible(rounds[k])
    ensures Consistent(Tallies(rounds)) && Rounds(Tallies(rounds).totals) == |rounds|
    decreases |rounds|
  {
    if |rounds| == 0 {
      assert Rounds(NoStats.totals) == 0 by {
        EmptySum();
      }
      NoStatsConsistent();
    } else {
      var prefix := rounds[..|rounds| - 1];
      var last := rounds[|rounds| - 1];
      assert Possible(last);
      TalliesConsistent(prefix);
      RecordConsistent(Tallies(prefix), last.nbHands, last.result);
    }
  }

  /** The tallied net result is the sum of the rounds' results. */
  lemma {:induction false} TalliesWin(rounds: seq<Tallied>)
    ensures Tallies(rounds).win == TotalWin(rounds)
    decreases |rounds|
  {
    if |rounds| > 0 {
      TalliesWin(rounds[..|rounds| - 1]);
    }
  }

  /** The net result of rounds with results in [-8, 12] lies between -8 and 12 per round. */
  lemma {:induction false} TotalWinBounds(rounds: seq<Tallied>)
    requires forall k :: 0 <= k < |rounds| ==> Possible(rounds[k])
    ensures -8.0 * |rounds| as real <= TotalWin(rounds) <= 12.0 * |rounds| as real
    decreases |rounds|
  {
    if |rounds| > 0 {
      var prefix := rounds[..|rounds| - 1];
      assert Possible(rounds[|rounds| - 1]);
      TotalWinBounds(prefix);
    }
  }

  /** The tallies of rounds the game can produce hold a net result between -8 and 12 per round. */
  lemma TalliesBounds(rounds: seq<Tallied>)
    requires forall k :: 0 <= k < |rounds| ==> Possible(rounds[k])
    ensures -8.0 * |rounds| as real <= Tallies(rounds).win <= 12.0 * |rounds| as real
  {
    TalliesWin(rounds);
    TotalWinBounds(rounds);
  }
}
