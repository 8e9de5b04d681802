/** Scoring of evaluation runs, over the reals. */
module Scoring {
  import opened Common

  datatype MitreF1 = MitreF1(precision: real, recall: real, f1: real, matched: set<string>, missed: set<string>,
                             extra: set<string>)

  datatype Weights = Weights(verdict: real, mitre: real, severity: real)

  datatype Thresholds = Thresholds(verdict: real, mitre: real, overall: real)

  datatype IncidentScore = IncidentScore(verdictCorrect: bool, severityScore: real, mitre: MitreF1, overall: real,
                                         failCategory: Option<string>, cost: Option<real>)

  datatype RunSummary = RunSummary(total: nat, verdictAccuracy: real, severityMean: real, mitreF1Mean: real,
                                   overallMean: real,
                                   verdictPass: bool, mitrePass: bool, overallPass: bool,
                                   failBuckets: map<string, nat>, totalCost: real)

  // ------------------------------------------------------------------- one incident

  function SetOf(names: seq<string>): set<string> { set n | n in names }

  function Ratio(part: nat, whole: nat): real { if whole == 0 then 0.0 else part as real / whole as real }

  function ScoreMitre(actual: Option<seq<string>>, expected: seq<string>): MitreF1 {
    var a, e := SetOf(actual.Or([])), SetOf(expected);
    if a == {} && e == {} then MitreF1(1.0, 1.0, 1.0, a * e, e - a, a - e)
    else
      var precision, recall := Ratio(|a * e|, |a|), Ratio(|a * e|, |e|);
      MitreF1(precision, recall, Harmonic(precision, recall), a * e, e - a, a - e)
  }

  function Harmonic(precision: real, recall: real): real {
    if precision + recall > 0.0 then 2.0 * precision * recall / (precision + recall) else 0.0
  }

  lemma {:induction false} SubsetSize(a: set<string>, b: set<string>)
    requires a <= b
    ensures |a| <= |b| && (|a| == |b| ==> a == b)
  {
    if a != {} {
      var x :| x in a;
      SubsetSize(a - {x}, b - {x});
    } else if b != {} {
      assert |b| > 0;
    }
  }

  /** The harmonic mean of m/p and m/q is 2m/(p + q). */
  lemma HarmonicMean(m: real, p: real, q: real)
    requires m > 0.0 && p > 0.0 && q > 0.0
    ensures m / p + m / q > 0.0 && 2.0 * (m / p) * (m / q) / (m / p + m / q) == 2.0 * m / (p + q)
  {
    var x, y := m / p, m / q;
    assert x > 0.0 && y > 0.0;
    assert x * p == m && y * q == m;
    var f := 2.0 * m / (p + q);
    assert f * (p + q) == 2.0 * m;
    CrossMultiplied(x, y, p, q, m, f);
    assert f == 2.0 * x * y / (x + y);
  }

  lemma CrossMultiplied(x: real, y: real, p: real, q: real, m: real, f: real)
    requires x * p == m && y * q == m && f * (p + q) == 2.0 * m && m > 0.0 && p > 0.0 && q > 0.0
    ensures f * (x + y) == 2.0 * x * y
  {
    assert p * q * (f * (x + y)) == f * (x * p * q + y * q * p) == f * (m * q + m * p);
    assert f * (m * q + m * p) == m * (f * (p + q)) == m * (2.0 * m);
    assert p * q * (2.0 * x * y) == 2.0 * (x * p) * (y * q) == 2.0 * m * m;
    assert p * q > 0.0;
  }

  function Dice(m: nat, p: nat, q: nat): real
    requires p + q > 0
  {
    2.0 * m as real / (p + q) as real
  }

  lemma HarmonicIsDice(m: nat, p: nat, q: nat)
    requires m <= p && m <= q && p + q > 0
    ensures Harmonic(Ratio(m, p), Ratio(m, q)) == Dice(m, p, q)
  {
    if m > 0 { HarmonicMean(m as real, p as real, q as real); }
  }

  lemma Positive(a: real, b: real)
    requires a > 0.0 && b > 0.0
    ensures a * b > 0.0
  {
  }

  lemma Fraction(f: real, x: real, n: real)
    requires n > 0.0 && 0.0 <= x <= n && f * n == x
    ensures 0.0 <= f <= 1.0 && (f == 1.0 <==> x == n)
  {
    if f < 0.0 { Positive(-f, n); assert false; }
    if f > 1.0 { Positive(f - 1.0, n); assert false; }
    if f < 1.0 { Positive(1.0 - f, n); }
  }

  lemma DiceIsOne(m: nat, p: nat, q: nat)
    requires m <= p && m <= q && p + q > 0
    ensures 0.0 <= Dice(m, p, q) <= 1.0 && (Dice(m, p, q) == 1.0 <==> m == p == q)
  {
    Fraction(Dice(m, p, q), 2.0 * m as real, (p + q) as real);
  }

  /** Precision is the matched share of what was named, recall of what was expected (none of nothing, and all
      of nothing when both are empty); missed and extra are what the other side does not have. */
  lemma PartsAddUp(actual: Option<seq<string>>, expected: seq<string>)
    ensures var a, e, s := SetOf(actual.Or([])), SetOf(expected), ScoreMitre(actual, expected);
            && (forall t :: t in s.matched <==> t in a && t in expected)
            && (forall t :: t in s.missed <==> t in expected && t !in a)
            && (forall t :: t in s.extra <==> t in a && t !in expected)
            && (a != {} || e != {} ==> IsShare(s.precision, |s.matched|, |a|) && IsShare(s.recall, |s.matched|, |e|))
            && (a == {} && e == {} ==> s.precision == s.recall == 1.0)
            && |s.matched| + |s.missed| == |e| && |s.matched| + |s.extra| == |a|
  {
    var a, e := SetOf(actual.Or([])), SetOf(expected);
    SplitSize(e, a);
    SplitSize(a, e);
    assert e * a == a * e;
    RatioIsShare(|a * e|, |a|);
    RatioIsShare(|a * e|, |e|);
  }

  /** The share of a part in a whole, and none of nothing. */
  predicate IsShare(r: real, part: nat, whole: nat) {
    if whole == 0 then r == 0.0 else r * whole as real == part as real
  }

  lemma RatioIsShare(part: nat, whole: nat)
    ensures IsShare(Ratio(part, whole), part, whole)
  {
  }

  lemma SplitSize(a: set<string>, b: set<string>)
    ensures |a * b| + |a - b| == |a|
  {
    assert a * b + (a - b) == a;
  }

  /** F1 is twice the matches over both sizes, and 1 exactly when the two sets are equal. */
  lemma F1IsDice(actual: Option<seq<string>>, expected: seq<string>)
    ensures var a, e, s := SetOf(actual.Or([])), SetOf(expected), ScoreMitre(actual, expected);
            && (a != {} || e != {} ==> |a| + |e| > 0 && s.f1 == Dice(|a * e|, |a|, |e|))
            && 0.0 <= s.f1 <= 1.0
            && (s.f1 == 1.0 <==> a == e)
  {
    var a, e := SetOf(actual.Or([])), SetOf(expected);
    if a != {} || e != {} {
      assert |a| + |e| > 0;
      SubsetSize(a * e, a);
      SubsetSize(a * e, e);
      HarmonicIsDice(|a * e|, |a|, |e|);
      DiceIsOne(|a * e|, |a|, |e|);
      if a == e { assert a * e == a; }
    }
  }

  /** Position on the severity scale. */
  function IndexOf(name: string): Option<nat> {
    if name == "info" then Some(0)
    else if name == "low" then Some(1)
    else if name == "medium" then Some(2)
    else if name == "high" then Some(3)
    else if name == "critical" then Some(4)
    else None
  }

  function ScoreSeverity(actual: Option<string>, expected: string): real {
    if actual.None? then 0.0
    else if actual.value == expected then 1.0
    else
      var i, j := IndexOf(actual.value), IndexOf(expected);
      if i.None? || j.None? then 0.0
      else if i.value == j.value + 1 || j.value == i.value + 1 then 0.5
      else 0.0
  }

  function One(b: bool): real { if b then 1.0 else 0.0 }

  function ScoreIncident(actualVerdict: Option<string>, expectedVerdict: string, actualSeverity: Option<string>,
                         expectedSeverity: string, actualTechniques: Option<seq<string>>,
                         expectedTechniques: seq<string>,
                         failCategory: Option<string>, cost: Option<real>, w: Weights): IncidentScore
  {
    var correct := actualVerdict == Some(expectedVerdict);
    var severity := ScoreSeverity(actualSeverity, expectedSeverity);
    var mitre := ScoreMitre(actualTechniques, expectedTechniques);
    IncidentScore(correct, severity, mitre, Overall(w, correct, mitre.f1, severity), failCategory, cost)
  }

  /** The rubric's weighted sum. */
  function Mix(w: Weights, verdict: real, mitre: real, severity: real): real {
    w.verdict * verdict + w.mitre * mitre + w.severity * severity
  }

  function Overall(w: Weights, correct: bool, f1: real, severity: real): real { Mix(w, One(correct), f1, severity) }

  /** The overall score is the rubric's weighted sum. */
  predicate Weighted(s: IncidentScore, w: Weights) {
    s.overall == Overall(w, s.verdictCorrect, s.mitre.f1, s.severityScore)
  }

  const SCALE := ["info", "low", "medium", "high", "critical"]

  lemma ScaleIndex(name: string, k: nat)
    ensures IndexOf(name) == Some(k) <==> k < |SCALE| && SCALE[k] == name
  {
  }

  /** Full marks for the expected severity only, half marks exactly for its neighbours on the scale. */
  lemma SeverityScoreGrades(actual: Option<string>, expected: string)
    ensures ScoreSeverity(actual, expected) in {0.0, 0.5, 1.0}
    ensures ScoreSeverity(actual, expected) == 1.0 <==> actual == Some(expected)
    ensures ScoreSeverity(actual, expected) == 0.5 <==> exists k: nat :: k < 4 && Neighbours(actual, expected, k)
  {
    if ScoreSeverity(actual, expected) == 0.5 {
      var i, j := IndexOf(actual.value).value, IndexOf(expected).value;
      ScaleIndex(actual.value, i);
      ScaleIndex(expected, j);
      assert Neighbours(actual, expected, if i < j then i else j);
    }
    if k: nat :| k < 4 && Neighbours(actual, expected, k) {
      ScaleIndex(SCALE[k], k);
      ScaleIndex(SCALE[k + 1], k + 1);
    }
  }

  predicate Neighbours(actual: Option<string>, expected: string, k: nat)
    requires k < 4
  {
    (actual == Some(SCALE[k]) && expected == SCALE[k + 1]) || (actual == Some(SCALE[k + 1]) && expected == SCALE[k])
  }

  lemma WeightedPart(weight: real, score: real) returns (part: real)
    requires weight > 0.0 && 0.0 <= score <= 1.0
    ensures part == weight * score && 0.0 <= part <= weight
    ensures part == weight <==> score == 1.0
  {
    part := weight * score;
    assert weight * (1.0 - score) >= 0.0;
    if score < 1.0 { assert weight * (1.0 - score) > 0.0; }
  }

  lemma FullParts(a: real, b: real, c: real, w: Weights)
    requires 0.0 <= a <= w.verdict && 0.0 <= b <= w.mitre && 0.0 <= c <= w.severity
    requires w.verdict + w.mitre + w.severity == 1.0
    ensures 0.0 <= a + b + c <= 1.0
    ensures a + b + c == 1.0 <==> a == w.verdict && b == w.mitre && c == w.severity
  {
  }

  lemma OverallRange(w: Weights, correct: bool, f1: real, severity: real)
    requires w.verdict > 0.0 && w.mitre > 0.0 && w.severity > 0.0 && w.verdict + w.mitre + w.severity == 1.0
    requires 0.0 <= f1 <= 1.0 && 0.0 <= severity <= 1.0
    ensures 0.0 <= Overall(w, correct, f1, severity) <= 1.0
    ensures Overall(w, correct, f1, severity) == 1.0 <==> correct && f1 == 1.0 && severity == 1.0
  {
    var a := WeightedPart(w.verdict, One(correct));
    var b := WeightedPart(w.mitre, f1);
    var c := WeightedPart(w.severity, severity);
    FullParts(a, b, c, w);
  }

  /** With positive weights adding up to one, the overall score lies between 0 and 1, and is 1 exactly for
      a right verdict, the expected severity and exactly the expected techniques. */
  lemma PerfectScoreIff(actualVerdict: Option<string>, expectedVerdict: string, actualSeverity: Option<string>,
                        expectedSeverity: string, actualTechniques: Option<seq<string>>,
                        expectedTechniques: seq<string>,
                        failCategory: Option<string>, cost: Option<real>, w: Weights)
    requires w.verdict > 0.0 && w.mitre > 0.0 && w.severity > 0.0 && w.verdict + w.mitre + w.severity == 1.0
    ensures var s := ScoreIncident(actualVerdict, expectedVerdict, actualSeverity, expectedSeverity,
                                   actualTechniques, expectedTechniques, failCategory, cost, w);
            && Weighted(s, w)
            && 0.0 <= s.overall <= 1.0
            && (s.overall == 1.0 <==> actualVerdict == Some(expectedVerdict) && actualSeverity == Some(expectedSeverity)
                                      && SetOf(actualTechniques.Or([])) == SetOf(expectedTechniques))
  {
    SeverityScoreGrades(actualSeverity, expectedSeverity);
    F1IsDice(actualTechniques, expectedTechniques);
    OverallRange(w, actualVerdict == Some(expectedVerdict), ScoreMitre(actualTechniques, expectedTechniques).f1,
                 ScoreSeverity(actualSeverity, expectedSeverity));
  }

  // ------------------------------------------------------------------------ one run

  function Sum(scores: seq<IncidentScore>, of: IncidentScore -> real): real {
    if scores == [] then 0.0 else Sum(scores[..|scores| - 1], of) + of(scores[|scores| - 1])
  }

  /** A sum over one incident is its value, and over two lists the sums of both: together the two laws
      determine every sum. */
  lemma {:induction false} SumConcat(a: seq<IncidentScore>, b: seq<IncidentScore>, of: IncidentScore -> real,
                                     s: IncidentScore)
    ensures Sum([s], of) == of(s)
    ensures Sum(a + b, of) == Sum(a, of) + Sum(b, of)
    decreases |b|
  {
    assert [s][..0] == [];
    if b == [] {
      assert a + b == a;
    } else {
      assert (a + b)[..|a| + |b| - 1] == a + b[..|b| - 1];
      SumConcat(a, b[..|b| - 1], of, s);
    }
  }

  /** The verdict sum counts the incidents with the right verdict. */
  lemma {:induction false} VerdictsCount(scores: seq<IncidentScore>)
    ensures Sum(scores, VERDICTS) == Right(scores) as real
  {
    if scores != [] { VerdictsCount(scores[..|scores| - 1]); }
  }

  function Right(scores: seq<IncidentScore>): nat {
    if scores == [] then 0
    else Right(scores[..|scores| - 1]) + if scores[|scores| - 1].verdictCorrect then 1 else 0
  }

  const VERDICTS: IncidentScore -> real := (s: IncidentScore) => One(s.verdictCorrect)
  const SEVERITIES: IncidentScore -> real := (s: IncidentScore) => s.severityScore
  const F1S: IncidentScore -> real := (s: IncidentScore) => s.mitre.f1
  const OVERALLS: IncidentScore -> real := (s: IncidentScore) => s.overall
  const COSTS: IncidentScore -> real := (s: IncidentScore) => s.cost.Or(0.0)

  predicate Categorised(s: IncidentScore) { s.failCategory.Or("") != "" }

  /** How many scores carry the category. */
  function CountOf(scores: seq<IncidentScore>, category: string): nat {
    if scores == [] then 0
    else CountOf(scores[..|scores| - 1], category)
         + if Categorised(scores[|scores| - 1]) && scores[|scores| - 1].failCategory.value == category then 1 else 0
  }

  function Categories(scores: seq<IncidentScore>): nat {
    if scores == [] then 0
    else Categories(scores[..|scores| - 1]) + if Categorised(scores[|scores| - 1]) then 1 else 0
  }

  /** The total cost grows with each incident by what it cost, and a NULL cost counts as zero. */
  lemma CostsAddUp(scores: seq<IncidentScore>, s: IncidentScore)
    ensures Sum(scores + [s], COSTS) == Sum(scores, COSTS) + match s.cost case Some(x) => x case None => 0.0
  {
    assert (scores + [s])[..|scores|] == scores;
  }

  /** Each bucket holds the number of incidents of its category, and only categories that occur have one. */
  ghost predicate CountsEach(buckets: map<string, nat>, scores: seq<IncidentScore>) {
    forall c :: (c in buckets <==> CountOf(scores, c) > 0) && (c in buckets ==> buckets[c] == CountOf(scores, c))
  }

  /** The sum of a dictionary's values. */
  ghost function Total(buckets: map<string, nat>): nat
    decreases |buckets|
  {
    if buckets == map[] then 0
    else
      var c :| c in buckets;
      Shrinks(buckets, c);
      buckets[c] + Total(buckets - {c})
  }

  lemma Shrinks(buckets: map<string, nat>, c: string)
    requires c in buckets
    ensures |buckets - {c}| < |buckets|
  {
    assert (buckets - {c}).Keys == buckets.Keys - {c};
    assert |buckets.Keys - {c}| < |buckets.Keys|;
  }

  /** Any key may be summed first. */
  lemma {:induction false} TotalOf(buckets: map<string, nat>, k: string)
    requires k in buckets
    ensures Total(buckets) == buckets[k] + Total(buckets - {k})
    decreases |buckets|
  {
    var c :| c in buckets && Total(buckets) == buckets[c] + Total(buckets - {c});
    Shrinks(buckets, c);
    Shrinks(buckets, k);
    if c != k {
      TotalOf(buckets - {c}, k);
      TotalOf(buckets - {k}, c);
      assert buckets - {c} - {k} == buckets - {k} - {c};
    }
  }

  lemma TotalAfterIncrement(buckets: map<string, nat>, k: string)
    ensures Total(buckets[k := (if k in buckets then buckets[k] else 0) + 1]) == Total(buckets) + 1
  {
    var after := buckets[k := (if k in buckets then buckets[k] else 0) + 1];
    TotalOf(after, k);
    if k in buckets {
      TotalOf(buckets, k);
      assert after - {k} == buckets - {k};
    } else {
      assert after - {k} == buckets;
    }
  }

  method SumOf(scores: seq<IncidentScore>, of: IncidentScore -> real) returns (sum: real)
    ensures sum == Sum(scores, of)
  {
    sum := 0.0;
    for i := 0 to |scores|
      invariant sum == Sum(scores[..i], of)
    {
      assert scores[..i + 1][..i] == scores[..i];
      sum := sum + of(scores[i]);
    }
    assert scores[..|scores|] == scores;
  }

  method FailBuckets(scores: seq<IncidentScore>) returns (buckets: map<string, nat>)
    ensures CountsEach(buckets, scores)
    ensures Total(buckets) == Categories(scores)
  {
    buckets := map[];
    for i := 0 to |scores|
      invariant CountsEach(buckets, scores[..i])
      invariant Total(buckets) == Categories(scores[..i])
    {
      assert scores[..i + 1][..i] == scores[..i];
      if scores[i].failCategory.Or("") != "" {
        var category := scores[i].failCategory.value;
        TotalAfterIncrement(buckets, category);
        buckets := buckets[category := (if category in buckets then buckets[category] else 0) + 1];
      }
    }
    assert scores[..|scores|] == scores;
  }

  /** summarize: the means are means of one list, so the overall mean is the rubric's combination of
      the others, and the buckets account for every categorised incident. */
  method Summarize(scores: seq<IncidentScore>, w: Weights, t: Thresholds) returns (r: RunSummary)
    requires forall s :: s in scores ==> Weighted(s, w)
    ensures r.total == |scores|
    ensures scores == [] ==> r == RunSummary(0, 0.0, 0.0, 0.0, 0.0, false, false, false, map[], 0.0)
    ensures scores != [] ==>
      && r.verdictAccuracy == Sum(scores, VERDICTS) / |scores| as real
      && r.mitreF1Mean == Sum(scores, F1S) / |scores| as real
      && r.severityMean == Sum(scores, SEVERITIES) / |scores| as real
      && r.overallMean == Mix(w, r.verdictAccuracy, r.mitreF1Mean, r.severityMean)
      && r.totalCost == Sum(scores, COSTS)
      && (r.verdictPass <==> r.verdictAccuracy >= t.verdict)
      && (r.mitrePass <==> r.mitreF1Mean >= t.mitre)
      && (r.overallPass <==> r.overallMean >= t.overall)
    ensures CountsEach(r.failBuckets, scores) && Total(r.failBuckets) == Categories(scores)
  {
    if scores == [] {
      return RunSummary(0, 0.0, 0.0, 0.0, 0.0, false, false, false, map[], 0.0);
    }
    var total := |scores| as real;
    var verdicts := SumOf(scores, VERDICTS);
    var severities := SumOf(scores, SEVERITIES);
    var f1s := SumOf(scores, F1S);
    var overalls := SumOf(scores, OVERALLS);
    var cost := SumOf(scores, COSTS);
    var buckets := FailBuckets(scores);
    OverallIsWeightedSum(scores, w);
    MeansCombine(overalls, verdicts, f1s, severities, w, total);
    r := RunSummary(|scores|, verdicts / total, severities / total, f1s / total, overalls / total,
                    verdicts / total >= t.verdict, f1s / total >= t.mitre, overalls / total >= t.overall,
                    buckets, cost);
  }

  lemma {:induction false} OverallIsWeightedSum(scores: seq<IncidentScore>, w: Weights)
    requires forall s :: s in scores ==> Weighted(s, w)
    ensures Sum(scores, OVERALLS) == Mix(w, Sum(scores, VERDICTS), Sum(scores, F1S), Sum(scores, SEVERITIES))
  {
    if scores != [] {
      var n := |scores| - 1;
      var last := scores[n];
      assert last in scores && Weighted(last, w);
      OverallIsWeightedSum(scores[..n], w);
      MixAdds(w, Sum(scores[..n], VERDICTS), Sum(scores[..n], F1S), Sum(scores[..n], SEVERITIES),
              One(last.verdictCorrect), last.mitre.f1, last.severityScore);
    }
  }

  lemma Distributes(k: real, a: real, b: real)
    ensures k * (a + b) == k * a + k * b
  {
  }

  lemma MixAdds(w: Weights, a: real, b: real, c: real, x: real, y: real, z: real)
    ensures Mix(w, a + x, b + y, c + z) == Mix(w, a, b, c) + Mix(w, x, y, z)
  {
    Distributes(w.verdict, a, x);
    Distributes(w.mitre, b, y);
    Distributes(w.severity, c, z);
  }

  lemma DividedProduct(k: real, a: real, n: real)
    requires n > 0.0
    ensures k * a / n == k * (a / n)
  {
  }

  lemma MeansCombine(overall: real, a: real, b: real, c: real, w: Weights, n: real)
    requires n > 0.0 && overall == Mix(w, a, b, c)
    ensures overall / n == Mix(w, a / n, b / n, c / n)
  {
    var x, y, z := w.verdict * a, w.mitre * b, w.severity * c;
    assert (x + y + z) / n == x / n + y / n + z / n;
    DividedProduct(w.verdict, a, n);
    DividedProduct(w.mitre, b, n);
    DividedProduct(w.severity, c, n);
  }
}
