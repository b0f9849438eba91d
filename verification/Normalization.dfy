/**
 What placing a population on the bell curve means: standardized scores with
 mean zero and unit spread, in the order of the raw scores, and three for a
 population without spread. The cumulative distribution function is any monotone
 function that is one half at zero.
 */
module Normalization {
  import opened ScoreTable
  import opened Reals

  ghost predicate Monotone(f: real -> real) {
    forall x, y :: x <= y ==> f(x) <= f(y)
  }

  function ZScores(xs: seq<real>, mean: real, deviation: real): seq<real> {
    if xs == [] then [] else ZScores(xs[..|xs| - 1], mean, deviation) + [ZScore(xs[|xs| - 1], mean, deviation)]
  }

  lemma {:induction false} ZScoreAt(xs: seq<real>, mean: real, deviation: real, i: nat)
    requires i < |xs|
    ensures |ZScores(xs, mean, deviation)| == |xs|
    ensures ZScores(xs, mean, deviation)[i] == ZScore(xs[i], mean, deviation)
  {
    var front := xs[..|xs| - 1];
    if i < |front| {
      ZScoreAt(front, mean, deviation, i);
    } else if |front| > 0 {
      ZScoreAt(front, mean, deviation, 0);
    }
  }

  lemma ZScoresSnoc(xs: seq<real>, mean: real, deviation: real)
    requires xs != []
    ensures var zs := ZScores(xs[..|xs| - 1], mean, deviation); var z := ZScore(xs[|xs| - 1], mean, deviation);
      && Sum(ZScores(xs, mean, deviation)) == Sum(zs) + z
      && SquaredDistances(ZScores(xs, mean, deviation), 0.0) == SquaredDistances(zs, 0.0) + Square(z)
  {
    hide ZScore;
    var zs := ZScores(xs[..|xs| - 1], mean, deviation);
    var z := ZScore(xs[|xs| - 1], mean, deviation);
    assert (zs + [z])[..|zs|] == zs;
  }

  lemma ZScoreTimes(x: real, mean: real, deviation: real)
    requires deviation != 0.0
    ensures Times(ZScore(x, mean, deviation), deviation) == x - mean
  {
    DivideThenMultiply(x - mean, deviation);
  }

  lemma {:induction false} SumOfZScores(xs: seq<real>, mean: real, deviation: real)
    requires deviation != 0.0
    ensures Times(Sum(ZScores(xs, mean, deviation)), deviation) == Sum(xs) - Times(|xs| as real, mean)
  {
    ZeroProduct(0.0, deviation);
    ZeroProduct(0.0, mean);
    hide ZScore, Times;
    if xs != [] {
      var front := xs[..|xs| - 1];
      var x := xs[|xs| - 1];
      SumOfZScores(front, mean, deviation);
      ZScoresSnoc(xs, mean, deviation);
      ZScoreTimes(x, mean, deviation);
      hide ZScores, Sum;
      Distribute(Sum(ZScores(front, mean, deviation)), ZScore(x, mean, deviation), deviation);
      Distribute(|front| as real, 1.0, mean);
      Unit(mean);
      assert Sum(xs) == Sum(front) + x by { SumSnoc(xs); }
    }
  }

  lemma SumSnoc(xs: seq<real>)
    requires xs != []
    ensures Sum(xs) == Sum(xs[..|xs| - 1]) + xs[|xs| - 1]
  {
  }

  lemma {:induction false} SumOfZeros(xs: seq<real>, mean: real)
    ensures Sum(ZScores(xs, mean, 0.0)) == 0.0
  {
    if xs != [] {
      var zs := ZScores(xs[..|xs| - 1], mean, 0.0);
      SumOfZeros(xs[..|xs| - 1], mean);
      assert (zs + [0.0])[..|zs|] == zs;
    }
  }

  /** The standardized scores of a population sum to zero. */
  lemma ZScoresBalance(xs: seq<real>, deviation: real)
    requires xs != []
    ensures Sum(ZScores(xs, Mean(xs), deviation)) == 0.0
  {
    hide ZScores, Sum, Times;
    if deviation == 0.0 {
      SumOfZeros(xs, Mean(xs));
    } else {
      SumOfZScores(xs, Mean(xs), deviation);
      DivideThenMultiply(Sum(xs), |xs| as real);
      Commute(Mean(xs), |xs| as real);
      ZeroProduct(0.0, deviation);
      hide Mean;
      Cancel(Sum(ZScores(xs, Mean(xs), deviation)), 0.0, deviation);
    }
  }

  lemma {:induction false} SquaredZScores(xs: seq<real>, mean: real, deviation: real)
    requires deviation != 0.0
    ensures Times(SquaredDistances(ZScores(xs, mean, deviation), 0.0), Square(deviation)) == SquaredDistances(xs, mean)
  {
    ZeroProduct(0.0, Square(deviation));
    hide Times, Square;
    if xs != [] {
      var front := xs[..|xs| - 1];
      SquaredZScores(front, mean, deviation);
      ZScoresSnoc(xs, mean, deviation);
      var z := ZScore(xs[|xs| - 1], mean, deviation);
      ZScoreTimes(xs[|xs| - 1], mean, deviation);
      hide ZScores, ZScore;
      ProductOfSquares(z, deviation);
      Distribute(SquaredDistances(ZScores(front, mean, deviation), 0.0), Square(z), Square(deviation));
    }
  }

  /** With any spread at all the standardized scores have spread one. */
  lemma ZScoresHaveUnitSpread(xs: seq<real>, deviation: real)
    requires xs != [] && IsDeviation(deviation, xs) && deviation != 0.0
    ensures SquaredDistances(ZScores(xs, Mean(xs), deviation), 0.0) == |xs| as real
  {
    hide Mean, ZScores, SquaredDistances, Square, Times;
    Commute(Square(deviation), |xs| as real);
    SquaredZScores(xs, Mean(xs), deviation);
    Cancel(SquaredDistances(ZScores(xs, Mean(xs), deviation), 0.0), |xs| as real, Square(deviation));
  }

  lemma {:induction false} NoSpread(xs: seq<real>, mean: real)
    ensures SquaredDistances(xs, mean) >= 0.0
    ensures SquaredDistances(xs, mean) == 0.0 <==> forall i :: 0 <= i < |xs| ==> xs[i] == mean
  {
    hide Square;
    if xs != [] {
      NoSpread(xs[..|xs| - 1], mean);
    }
  }

  lemma {:induction false} SumOfEquals(xs: seq<real>, x: real)
    requires forall i :: 0 <= i < |xs| ==> xs[i] == x
    ensures Sum(xs) == |xs| as real * x
  {
    if xs != [] {
      SumOfEquals(xs[..|xs| - 1], x);
    }
  }

  /** The deviation is zero exactly when the whole population has one score, and then everyone sits in the middle. */
  lemma EqualPopulationIsCentred(xs: seq<real>, deviation: real, cdf: real -> real)
    requires xs != [] && IsDeviation(deviation, xs) && cdf(0.0) == 0.5
    ensures deviation == 0.0 <==> forall i, j :: 0 <= i < |xs| && 0 <= j < |xs| ==> xs[i] == xs[j]
    ensures deviation == 0.0 ==> forall x :: Relative(ZScore(x, Mean(xs), deviation), cdf) == 3.0
  {
    var m := Mean(xs);
    assert m == Sum(xs) / |xs| as real;
    hide Square, Mean;
    NoSpread(xs, m);
    if forall i, j :: 0 <= i < |xs| && 0 <= j < |xs| ==> xs[i] == xs[j] {
      assert forall i :: 0 <= i < |xs| ==> xs[i] == xs[0];
      SumOfEquals(xs, xs[0]);
      DivideThenMultiply(Sum(xs), |xs| as real);
      Cancel(m, xs[0], |xs| as real);
      Cancel(Square(deviation), 0.0, |xs| as real);
    }
    if deviation == 0.0 {
      assert forall i :: 0 <= i < |xs| ==> xs[i] == m;
    }
  }

  lemma ZScoreMonotone(x: real, y: real, mean: real, deviation: real)
    requires x <= y && deviation >= 0.0
    ensures ZScore(x, mean, deviation) <= ZScore(y, mean, deviation)
  {
    if deviation > 0.0 {
      DivideOrder(x - mean, y - mean, deviation);
    }
  }

  /** Normalization ranks the population as the raw scores do, and touches nothing else. */
  lemma NormalizationKeepsOrder(t: Table, population: seq<Key>, deviation: real, cdf: real -> real, i: nat, j: nat)
    requires forall k :: 0 <= k < |population| ==> population[k] in t
    requires i < |population| && j < |population|
    requires IsDeviation(deviation, ScoresOf(t, population)) && Monotone(cdf)
    requires t[population[i]].score5 <= t[population[j]].score5
    ensures var after := Normalize(t, population, deviation, cdf); var a := after[population[i]]; var b := after[population[j]];
      && a.bell.Some? && b.bell.Some?
      && 1.0 <= a.bell.value.relative <= b.bell.value.relative <= 5.0
      && a == t[population[i]].(bell := a.bell)
      && forall key :: key in t && key !in population ==> key in after && after[key] == t[key]
  {
    var mean := Mean(ScoresOf(t, population));
    ZScoreMonotone(t[population[i]].score5, t[population[j]].score5, mean, deviation);
  }

  predicate Placed(t: Table, population: seq<Key>) {
    forall i :: 0 <= i < |population| ==> population[i] in t && t[population[i]].bell.Some?
  }

  /** The standardized scores as they are stored. */
  function StoredZScores(t: Table, population: seq<Key>): seq<real>
    requires Placed(t, population)
  {
    seq(|population|, i requires 0 <= i < |population| => t[population[i]].bell.value.z)
  }

  lemma StoredIsComputed(t: Table, population: seq<Key>, deviation: real, cdf: real -> real)
    requires population != [] && forall i :: 0 <= i < |population| ==> population[i] in t
    ensures var xs := ScoresOf(t, population); var after := Normalize(t, population, deviation, cdf);
      Placed(after, population) && StoredZScores(after, population) == ZScores(xs, Mean(xs), deviation)
  {
    var xs := ScoresOf(t, population);
    var zs := ZScores(xs, Mean(xs), deviation);
    var stored := StoredZScores(Normalize(t, population, deviation, cdf), population);
    hide ZScore, Mean, ZScores, Relative;
    ZScoreAt(xs, Mean(xs), deviation, 0);
    forall i | 0 <= i < |xs| ensures stored[i] == zs[i] {
      ZScoreAt(xs, Mean(xs), deviation, i);
    }
    assert stored == zs;
  }

  /**
   After one normalization the stored standardized scores of the population sum
   to zero; they have unit spread, or the population was equal and stores three.
   */
  lemma NormalizationBalances(t: Table, population: seq<Key>, deviation: real, cdf: real -> real)
    requires population != [] && forall i :: 0 <= i < |population| ==> population[i] in t
    requires IsDeviation(deviation, ScoresOf(t, population)) && cdf(0.0) == 0.5
    ensures var after := Normalize(t, population, deviation, cdf);
      && Placed(after, population)
      && Sum(StoredZScores(after, population)) == 0.0
      && if forall i, j :: 0 <= i < |population| && 0 <= j < |population| ==> t[population[i]].score5 == t[population[j]].score5
         then forall i :: 0 <= i < |population| ==> after[population[i]].bell.value.relative == 3.0
         else SquaredDistances(StoredZScores(after, population), 0.0) == |population| as real
  {
    var xs := ScoresOf(t, population);
    StoredIsComputed(t, population, deviation, cdf);
    ZScoresBalance(xs, deviation);
    EqualPopulationIsCentred(xs, deviation, cdf);
    hide ZScores, Sum, SquaredDistances, Square, Mean, StoredZScores, IsDeviation;
    assert forall i :: 0 <= i < |population| ==> xs[i] == t[population[i]].score5;
    if deviation == 0.0 {
      assert forall i, j :: 0 <= i < |population| && 0 <= j < |population| ==> xs[i] == xs[j];
      forall i | 0 <= i < |population| ensures Normalize(t, population, deviation, cdf)[population[i]].bell.value.relative == 3.0 {
        assert Relative(ZScore(xs[i], Mean(xs), deviation), cdf) == 3.0;
      }
    } else {
      ZScoresHaveUnitSpread(xs, deviation);
      var i, j :| 0 <= i < |xs| && 0 <= j < |xs| && xs[i] != xs[j];
      assert t[population[i]].score5 != t[population[j]].score5;
    }
  }
}
