/**
 * One tally of round results: how many rounds were pushes, wins and losses,
 * and the amounts won and lost.
 */
module Buckets {

  /** Counts of pushes, wins and losses, the amounts won (positive) and the amounts lost (negative). */
  datatype Bucket = Bucket(nbTie: int, nbWin: int, nbLoss: int, winAmount: real, lossAmount: real)

  const EmptyBucket: Bucket := Bucket(0, 0, 0, 0.0, 0.0)

  /** Rounds tallied in a bucket. */
  function Rounds(b: Bucket): int
  {
    b.nbTie + b.nbWin + b.nbLoss
  }

  /** The net amount of a bucket: what was won plus what was lost. */
  function Net(b: Bucket): real
  {
    b.winAmount + b.lossAmount
  }

  /** Amounts won are never negative and amounts lost never positive. */
  predicate Signed(b: Bucket)
  {
    b.winAmount >= 0.0 && b.lossAmount <= 0.0
  }

  /** `t` is `a` and `b` added field by field. */
  predicate Sum(t: Bucket, a: Bucket, b: Bucket)
  {
    && t.nbTie == a.nbTie + b.nbTie && t.nbWin == a.nbWin + b.nbWin && t.nbLoss == a.nbLoss + b.nbLoss
    && t.winAmount == a.winAmount + b.winAmount && t.lossAmount == a.lossAmount + b.lossAmount
  }

  /**
   * Tallies one round's result: zero is a push, a positive result a win whose
   * amount is added to the winnings, a negative one a loss whose (negative)
   * amount is added to the losses.
   */
  function Count(b: Bucket, thisWin: real): Bucket
  {
    if thisWin == 0.0 then b.(nbTie := b.nbTie + 1)
    else if thisWin > 0.0 then b.(nbWin := b.nbWin + 1, winAmount := b.winAmount + thisWin)
    else b.(nbLoss := b.nbLoss + 1, lossAmount := b.lossAmount + thisWin)
  }

  /** Counting a result adds one round and the result to the net, and keeps the signs. */
  lemma CountFacts(b: Bucket, thisWin: real)
    ensures Rounds(Count(b, thisWin)) == Rounds(b) + 1
    ensures Net(Count(b, thisWin)) == Net(b) + thisWin
    ensures Signed(b) ==> Signed(Count(b, thisWin))
  {
  }

  /** Tallying a result into a sum of two buckets is tallying it into either part. */
  lemma CountSum(t: Bucket, a: Bucket, b: Bucket, w: real)
    requires Sum(t, a, b)
    ensures Sum(Count(t, w), Count(a, w), b)
    ensures Sum(Count(t, w), a, Count(b, w))
  {
  }

  /** Exactly the counter matching the result's sign grows. */
  lemma CountKind(b: Bucket, thisWin: real)
    ensures Count(b, thisWin).nbTie > b.nbTie <==> thisWin == 0.0
    ensures Count(b, thisWin).nbWin > b.nbWin <==> thisWin > 0.0
    ensures Count(b, thisWin).nbLoss > b.nbLoss <==> thisWin < 0.0
  {
  }

  /** A sum of two buckets counts the rounds of both, nets both, and keeps their signs. */
  lemma SumSplits(t: Bucket, a: Bucket, b: Bucket)
    requires Sum(t, a, b)
    ensures Rounds(t) == Rounds(a) + Rounds(b)
    ensures Net(t) == Net(a) + Net(b)
    ensures Signed(a) && Signed(b) ==> Signed(t)
  {
  }

  /** The empty bucket counts nothing, is signed, and is the sum of two empty buckets. */
  lemma EmptySum()
    ensures Rounds(EmptyBucket) == 0 && Net(EmptyBucket) == 0.0 && Signed(EmptyBucket)
    ensures Sum(EmptyBucket, EmptyBucket, EmptyBucket)
  {
  }

  /**
   * Two per-hand-count buckets `one` and `two` (each present exactly when it
   * counts a round) agree with the overall bucket `totals` and the net result
   * `win`: amounts carry their signs, `totals` is their sum and `win` its net.
   */
  predicate Agree(has1: bool, has2: bool, one: Bucket, two: Bucket, totals: Bucket, win: real)
  {
    && (has1 <==> Rounds(one) > 0) && (has2 <==> Rounds(two) > 0)
    && Signed(one) && Signed(two)
    && Sum(totals, one, two)
    && win == Net(totals)
  }

  lemma AgreeEmpty()
    ensures Agree(false, false, EmptyBucket, EmptyBucket, EmptyBucket, 0.0)
  {
  }

  /** Counting a result into the first per-hand-count bucket and into the totals keeps them in agreement. */
  lemma AgreeCountOne(has1: bool, has2: bool, one: Bucket, two: Bucket, totals: Bucket, win: real, w: real)
    requires Agree(has1, has2, one, two, totals, win)
    requires !has1 ==> one == EmptyBucket
    ensures Agree(true, has2, Count(one, w), two, Count(totals, w), win + w)
  {
    CountFacts(one, w);
    CountFacts(totals, w);
    CountSum(totals, one, two, w);
  }

  /** Counting a result into the second per-hand-count bucket and into the totals keeps them in agreement. */
  lemma AgreeCountTwo(has1: bool, has2: bool, one: Bucket, two: Bucket, totals: Bucket, win: real, w: real)
    requires Agree(has1, has2, one, two, totals, win)
    requires !has2 ==> two == EmptyBucket
    ensures Agree(has1, true, one, Count(two, w), Count(totals, w), win + w)
  {
    CountFacts(two, w);
    CountFacts(totals, w);
    CountSum(totals, one, two, w);
  }
}
