/**
 * The simulation loop: shuffle the shoe, play a round, tally its result, put
 * every card back, and repeat.
 */
module Simulation {
  import opened Cards
  import opened Deck
  import opened Game
  import opened Buckets
  import opened Tally

  /**
   * One round of the simulation: the shoe as shuffled, the round played from
   * it, and the shoe once every card has gone back.
   */
  datatype Outcome = Outcome(shuffled: seq<Card>, end: RoundEnd, shoe: seq<Card>)

  /**
   * `o` is a round played from `shoe`: a reordering of its cards, the round
   * played from that, and the shoe refilled with the same cards by putting the
   * players' cards and then the dealer's back behind what the round left. The
   * round ends with one or two hands and a result the tally accepts.
   */
  predicate RoundOf(shoe: seq<Card>, o: Outcome)
  {
    && |o.shuffled| == |shoe| && multiset(o.shuffled) == multiset(shoe)
    && RoundPlayed(o.shuffled, o.end)
    && o.shoe == EndRound(o.end.shoe, o.end.players, o.end.dealer)
    && |o.shoe| == |shoe| && multiset(o.shoe) == multiset(shoe)
    && Possible(Summary(o))
  }

  /**
   * The round from `shoe` runs out of cards as shuffled: some reordering of
   * its cards, the shuffle's result, makes the round run out.
   */
  ghost predicate ShuffledRunsOut(shoe: seq<Card>)
  {
    exists shuffled :: |shuffled| == |shoe| && multiset(shuffled) == multiset(shoe) && RoundRunsOut(shuffled)
  }

  /** What the tally records of a round: its number of player hands and its result. */
  function Summary(o: Outcome): Tallied
  {
    Tallied(|o.end.players|, o.end.result)
  }

  /** What the tally records of each round, in order. */
  function Summaries(outcomes: seq<Outcome>): (r: seq<Tallied>)
    ensures |r| == |outcomes|
  {
    seq(|outcomes|, k requires 0 <= k < |outcomes| => Summary(outcomes[k]))
  }

  lemma SummariesSnoc(outcomes: seq<Outcome>, o: Outcome)
    ensures Summaries(outcomes + [o]) == Summaries(outcomes) + [Summary(o)]
  {
    assert Summaries(outcomes + [o])[|outcomes|] == Summary(o);
  }

  /** The shoe the next round starts from: `deck` before any round, else the shoe the last round refilled. */
  function NextShoe(deck: seq<Card>, outcomes: seq<Outcome>): seq<Card>
  {
    if |outcomes| == 0 then deck else outcomes[|outcomes| - 1].shoe
  }

  /** The shoe round `k` of `outcomes` started from. */
  function ShoeBefore(deck: seq<Card>, outcomes: seq<Outcome>, k: nat): seq<Card>
    requires k < |outcomes|
  {
    if k == 0 then deck else outcomes[k - 1].shoe
  }

  /** Every round of `outcomes` was played from the shoe the one before it refilled, the first from `deck`. */
  predicate Chained(deck: seq<Card>, outcomes: seq<Outcome>)
  {
    forall k {:trigger ShoeBefore(deck, outcomes, k)} ::
      0 <= k < |outcomes| ==> RoundOf(ShoeBefore(deck, outcomes, k), outcomes[k])
  }

  lemma ChainedSnoc(deck: seq<Card>, outcomes: seq<Outcome>, o: Outcome)
    requires Chained(deck, outcomes) && RoundOf(NextShoe(deck, outcomes), o)
    ensures Chained(deck, outcomes + [o])
  {
    var os := outcomes + [o];
    forall k | 0 <= k < |os|
      ensures RoundOf(ShoeBefore(deck, os, k), os[k])
    {
      if k < |outcomes| {
        assert ShoeBefore(deck, os, k) == ShoeBefore(deck, outcomes, k);
        assert os[k] == outcomes[k];
      } else {
        assert ShoeBefore(deck, os, k) == NextShoe(deck, outcomes);
      }
    }
  }

  /**
   * The simulation after the rounds of `outcomes`: they were played in a
   * chain from `deck`, and `st` is their tally.
   */
  predicate Ran(deck: seq<Card>, outcomes: seq<Outcome>, st: Stats)
  {
    Chained(deck, outcomes) && st == Tallies(Summaries(outcomes))
  }

  /** Playing and tallying one more round from the shoe the last one refilled extends the simulation. */
  lemma RanSnoc(deck: seq<Card>, outcomes: seq<Outcome>, st: Stats, shoe: seq<Card>, o: Outcome)
    requires Ran(deck, outcomes, st) && shoe == NextShoe(deck, outcomes)
    requires RoundOf(shoe, o)
    ensures Ran(deck, outcomes + [o], Record(st, |o.end.players|, o.end.result))
  {
    SummariesSnoc(outcomes, o);
    TalliesSnoc(Summaries(outcomes), Summary(o));
    ChainedSnoc(deck, outcomes, o);
  }

  /**
   * What the simulation promises once it stops after the rounds of
   * `outcomes`: the rounds were played in a chain from `deck`, each ends with
   * one or two hands and a result the tally accepts, and on success every
   * entry of `picks` played a round and the tallies are those of the rounds,
   * consistent and counting every round; on failure the round after them
   * ran out of cards.
   */
  lemma {:induction false} RanConsistent(deck: seq<Card>, picks: seq<seq<nat>>, outcomes: seq<Outcome>, st: Stats, r: Result<Stats>)
    requires Ran(deck, outcomes, st) && |outcomes| <= |picks|
    requires r.Ok? ==> r.value == st && |outcomes| == |picks|
    requires r.EmptyShoe? ==> |outcomes| < |picks| && ShuffledRunsOut(NextShoe(deck, outcomes))
    ensures |outcomes| <= |picks| && Chained(deck, outcomes)
    ensures forall k :: 0 <= k < |outcomes| ==> Possible(Summaries(outcomes)[k])
    ensures r.Ok? ==> |outcomes| == |picks| && r.value == Tallies(Summaries(outcomes))
    ensures r.Ok? ==> Consistent(r.value) && Rounds(r.value.totals) == |picks|
    ensures r.EmptyShoe? ==> |outcomes| < |picks| && ShuffledRunsOut(NextShoe(deck, outcomes))
  {
    forall k | 0 <= k < |outcomes|
      ensures Possible(Summaries(outcomes)[k])
    {
      assert RoundOf(ShoeBefore(deck, outcomes, k), outcomes[k]);
    }
    TalliesConsistent(Summaries(outcomes));
  }

  /**
   * One round of the simulation: shuffle the shoe with `picks`, play, and put
   * every card back. The refilled shoe holds the same cards, the round ends
   * with one or two hands and its result lies in [-8, 12]. It fails only when
   * the round from the shuffled shoe runs out of cards.
   */
  method Round(shoe: seq<Card>, picks: seq<nat>) returns (r: Result<Outcome>)
    requires ValidPicks(picks, |shoe|)
    ensures r.Ok? ==> RoundOf(shoe, r.value)
    ensures r.EmptyShoe? ==> ShuffledRunsOut(shoe)
    ensures |shoe| >= RoundNeed ==> r.Ok?
  {
    var shuffled := Shuffle(shoe, picks);
    var round := Play(shuffled);
    if round.EmptyShoe? {
      return EmptyShoe;
    }
    var end := round.value;
    r := Ok(Outcome(shuffled, end, EndRound(end.shoe, end.players, end.dealer)));
  }

  /** Plays the round after those of `outcomes`, from the shoe they left, extending the simulation by it. */
  method Step(deck: seq<Card>, outcomes: seq<Outcome>, st: Stats, picks: seq<nat>) returns (r: Result<Outcome>)
    requires Ran(deck, outcomes, st) && ValidPicks(picks, |NextShoe(deck, outcomes)|)
    ensures r.Ok? ==> Ran(deck, outcomes + [r.value], Record(st, |r.value.end.players|, r.value.end.result))
    ensures r.Ok? ==> |r.value.shoe| == |NextShoe(deck, outcomes)|
    ensures r.EmptyShoe? ==> ShuffledRunsOut(NextShoe(deck, outcomes))
    ensures |NextShoe(deck, outcomes)| >= RoundNeed ==> r.Ok?
  {
    var shoe := NextShoe(deck, outcomes);
    r := Round(shoe, picks);
    if r.Ok? {
      RanSnoc(deck, outcomes, st, shoe, r.value);
    }
  }

  /**
   * Runs one round per entry of `picks`, each shuffling the shoe with that
   * entry's random picks, playing, tallying and returning all cards to the
   * shoe; `outcomes` lists the rounds played. Each round was played from the
   * shoe the previous one refilled with the same cards, ends with one or two
   * hands and a result in
   * [-8, 12]; the tallies are those of the rounds played, stay consistent and
   * count every round. It stops early only when the round after those of
   * `outcomes`, from the shoe they left, runs out of cards, which a shoe of at
   * least `RoundNeed` cards never does.
   */
  method Simulate(deck: seq<Card>, picks: seq<seq<nat>>) returns (r: Result<Stats>, outcomes: seq<Outcome>)
    requires forall i :: 0 <= i < |picks| ==> ValidPicks(picks[i], |deck|)
    ensures |outcomes| <= |picks| && Chained(deck, outcomes)
    ensures forall k :: 0 <= k < |outcomes| ==> Possible(Summaries(outcomes)[k])
    ensures r.Ok? ==> |outcomes| == |picks| && r.value == Tallies(Summaries(outcomes))
    ensures r.Ok? ==> Consistent(r.value) && Rounds(r.value.totals) == |picks|
    ensures r.EmptyShoe? ==> |outcomes| < |picks| && ShuffledRunsOut(NextShoe(deck, outcomes))
    ensures |deck| >= RoundNeed ==> r.Ok?
  {
    var shoe := deck;
    var st := NoStats;
    outcomes := [];
    var i := 0;
    while i < |picks|
      invariant 0 <= i <= |picks|
      invariant |shoe| == |deck| && |outcomes| == i
      invariant Ran(deck, outcomes, st) && shoe == NextShoe(deck, outcomes)
    {
      var round := Step(deck, outcomes, st, picks[i]);
      if round.EmptyShoe? {
        r := EmptyShoe;
        RanConsistent(deck, picks, outcomes, st, r);
        return;
      }
      var o := round.value;
      outcomes := outcomes + [o];
      st := Record(st, |o.end.players|, o.end.result);
      shoe := o.shoe;
      i := i + 1;
    }
    r := Ok(st);
    RanConsistent(deck, picks, outcomes, st, r);
  }
}
