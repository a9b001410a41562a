/** The livability score of src/components/main.js: seven forecast values, each
    normalised to a sub-score, weighted and summed, the sum clamped to [0, 100]. */
module Livability {

  /** One value per indicator, in the key order of the score's `weights` and `scores`
      objects: crimeRates, populationCounts, hospitalCounts, kindergartenCounts,
      academyCounts, trafficAccidentCounts, parkCounts. */
  datatype Seven<T> = Seven(crime: T, population: T, hospital: T, kindergarten: T,
                            academy: T, traffic: T, park: T)
  {
    /** The seven values in key order, the order a `for...in` loop visits them. */
    function Values(): (r: seq<T>)
      ensures |r| == 7
      ensures r[0] == crime && r[1] == population && r[2] == hospital && r[3] == kindergarten
      ensures r[4] == academy && r[5] == traffic && r[6] == park
    {
      [crime, population, hospital, kindergarten, academy, traffic, park]
    }
  }

  /** The fixed weights, in key order. They add up to 1.03, not 1. */
  const Weights: seq<real> := [0.03, 0.2, 0.25, 0.3, 0.15, 0.05, 0.05]

  function Min(a: real, b: real): real { if a <= b then a else b }

  function Max(a: real, b: real): real { if a >= b then a else b }

  /** The normalised sub-scores. Only crime and traffic are floored at 0; the other
      five are only capped at 100. */
  function SubScores(d: Seven<real>): Seven<real>
  {
    Seven(Max(0.0, Min(100.0, 100.0 - d.crime * 100.0)),
          Min(100.0, d.population / 1000.0 * 100.0),
          Min(100.0, d.hospital / 50.0 * 100.0),
          Min(100.0, d.kindergarten / 30.0 * 100.0),
          Min(100.0, d.academy / 40.0 * 100.0),
          Max(0.0, Min(100.0, 100.0 - d.traffic * 5.0)),
          Min(100.0, d.park / 20.0 * 100.0))
  }

  /** The sum of `s[i] * w[i]`, accumulated from the front. */
  function WeightedSum(s: seq<real>, w: seq<real>): real
    requires |s| == |w|
    decreases |s|
  {
    if |s| == 0 then 0.0
    else WeightedSum(s[..|s| - 1], w[..|s| - 1]) + s[|s| - 1] * w[|s| - 1]
  }

  /** `totalScore` before the final clamp. */
  function RawScore(d: Seven<real>): real
  {
    WeightedSum(SubScores(d).Values(), Weights)
  }

  /** The score `calculateLivabilityScore` returns. */
  function LivabilityScore(d: Seven<real>): (r: real)
    ensures 0.0 <= r <= 100.0
  {
    Max(0.0, Min(100.0, RawScore(d)))
  }

  /** One more term of the accumulation. */
  lemma WeightedSumStep(s: seq<real>, w: seq<real>, i: nat)
    requires |s| == |w| && i < |s|
    ensures WeightedSum(s[..i + 1], w[..i + 1]) == WeightedSum(s[..i], w[..i]) + s[i] * w[i]
  {
    assert s[..i + 1][..i] == s[..i];
    assert w[..i + 1][..i] == w[..i];
  }

  /** The weighted sum, written out term by term. */
  lemma RawScoreFormula(d: Seven<real>)
    ensures var s := SubScores(d);
      RawScore(d) == 0.03 * s.crime + 0.2 * s.population + 0.25 * s.hospital
        + 0.3 * s.kindergarten + 0.15 * s.academy + 0.05 * s.traffic + 0.05 * s.park
  {
    var v := SubScores(d).Values();
    assert v[..0] == [] && Weights[..0] == [];
    WeightedSumStep(v, Weights, 0);
    WeightedSumStep(v, Weights, 1);
    WeightedSumStep(v, Weights, 2);
    WeightedSumStep(v, Weights, 3);
    WeightedSumStep(v, Weights, 4);
    WeightedSumStep(v, Weights, 5);
    WeightedSumStep(v, Weights, 6);
    assert v[..7] == v && Weights[..7] == Weights;
  }

  /** Crime and traffic sub-scores lie in [0, 100]; the other five are at most 100
      and go below 0 exactly when their input does. */
  lemma SubScoreBounds(d: Seven<real>)
    ensures var s := SubScores(d);
      && 0.0 <= s.crime <= 100.0 && 0.0 <= s.traffic <= 100.0
      && s.population <= 100.0 && s.hospital <= 100.0 && s.kindergarten <= 100.0
      && s.academy <= 100.0 && s.park <= 100.0
      && (s.population < 0.0 <==> d.population < 0.0)
      && (s.hospital < 0.0 <==> d.hospital < 0.0)
      && (s.kindergarten < 0.0 <==> d.kindergarten < 0.0)
      && (s.academy < 0.0 <==> d.academy < 0.0)
      && (s.park < 0.0 <==> d.park < 0.0)
  {
  }

  /** With every input 0 the score is 8: crime gives 100 * 0.03 and traffic 100 * 0.05. */
  lemma AllZeroScore()
    ensures LivabilityScore(Seven(0.0, 0.0, 0.0, 0.0, 0.0, 0.0, 0.0)) == 8.0
  {
    RawScoreFormula(Seven(0.0, 0.0, 0.0, 0.0, 0.0, 0.0, 0.0));
  }

  /** With every sub-score saturated the raw sum is 103, one point per weight
      percent; only the final clamp brings the score back to 100. */
  lemma SaturatedScore(d: Seven<real>)
    requires d.crime <= 0.0 && d.traffic <= 0.0
    requires d.population >= 1000.0 && d.hospital >= 50.0 && d.kindergarten >= 30.0
    requires d.academy >= 40.0 && d.park >= 20.0
    ensures RawScore(d) == 103.0
    ensures LivabilityScore(d) == 100.0
  {
    RawScoreFormula(d);
  }

  /** The score never falls when population, hospitals, kindergartens, academies or
      parks grow, or when crime rate or traffic accidents shrink. */
  lemma ScoreMonotone(d: Seven<real>, e: Seven<real>)
    requires e.crime <= d.crime && e.traffic <= d.traffic
    requires d.population <= e.population && d.hospital <= e.hospital
    requires d.kindergarten <= e.kindergarten && d.academy <= e.academy && d.park <= e.park
    ensures LivabilityScore(d) <= LivabilityScore(e)
  {
    var s, t := SubScores(d), SubScores(e);
    assert s.crime <= t.crime && s.traffic <= t.traffic;
    assert s.population <= t.population && s.hospital <= t.hospital;
    assert s.kindergarten <= t.kindergarten && s.academy <= t.academy && s.park <= t.park;
    RawScoreFormula(d);
    RawScoreFormula(e);
    assert RawScore(d) <= RawScore(e);
  }

  /** `calculateLivabilityScore`: builds the sub-scores, accumulates
      `totalScore += scores[key] * weights[key]` over the seven keys, then clamps. */
  method CalculateLivabilityScore(d: Seven<real>) returns (score: real)
    ensures score == LivabilityScore(d)
    ensures 0.0 <= score <= 100.0
  {
    var scores := SubScores(d).Values();
    var total := 0.0;
    for i := 0 to 7
      invariant total == WeightedSum(scores[..i], Weights[..i])
    {
      WeightedSumStep(scores, Weights, i);
      total := total + scores[i] * Weights[i];
    }
    assert scores[..7] == scores && Weights[..7] == Weights;
    score := Max(0.0, Min(100.0, total));
  }
}
