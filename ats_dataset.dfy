/** The dataset path of the ATS engine, from the point where the rows of the
    public resume dataset have arrived: selecting the high-scoring sample,
    cutting the pattern suggestions down to three to five, and estimating a
    score from weighted text patterns. The network request itself and every
    `Math.random` draw are parameters. */
module AtsDataset {
  import opened Wrappers
  import opened Text
  import opened AtsRules
  import opened AtsScore
  import FrontResume

  // ---------------------------------------------------------------------------
  // The sample (`fetchHighScoringResumeExamples`, after the request).

  /** A dataset row as it arrives; either field may be absent. */
  datatype Row = Row(text: Option<string>, atsScore: Option<real>)

  datatype Example = Example(text: string, atsScore: real)

  /** `{ text: row.text || '', ats_score: row.ats_score || 0 }`. */
  function ToExample(row: Row): Example {
    Example(row.text.GetOr(""), row.atsScore.GetOr(0.0))
  }

  /** The filter `ex.text && ex.ats_score > 70`. */
  predicate HighScoring(e: Example) { e.text != "" && e.atsScore > 70.0 }

  /** The rows that pass the filter, in row order. */
  function HighScoringExamples(rows: seq<Row>): (r: seq<Example>)
    ensures |r| <= |rows|
    ensures forall i :: 0 <= i < |r| ==> HighScoring(r[i])
  {
    if rows == [] then []
    else
      var e := ToExample(rows[|rows| - 1]);
      HighScoringExamples(rows[..|rows| - 1]) + (if HighScoring(e) then [e] else [])
  }

  /** An example is kept exactly when some row yields it and it passes the filter. */
  lemma {:induction false} HighScoringKept(rows: seq<Row>, e: Example)
    ensures e in HighScoringExamples(rows) <==>
      HighScoring(e) && exists i :: 0 <= i < |rows| && ToExample(rows[i]) == e
  {
    if rows != [] {
      var init := rows[..|rows| - 1];
      HighScoringKept(init, e);
      if exists i :: 0 <= i < |rows| && ToExample(rows[i]) == e {
        var i :| 0 <= i < |rows| && ToExample(rows[i]) == e;
        if i < |rows| - 1 {
          assert ToExample(init[i]) == e;
        }
      }
      if exists i :: 0 <= i < |init| && ToExample(init[i]) == e {
        var i :| 0 <= i < |init| && ToExample(init[i]) == e;
        assert ToExample(rows[i]) == e;
      }
    }
  }

  /** Scores never increase along the sequence. */
  predicate SortedDesc(s: seq<Example>) {
    forall i, j :: 0 <= i < j < |s| ==> s[i].atsScore >= s[j].atsScore
  }

  /** Puts `e` in front of the first example scoring no more than it, so that
      it stays ahead of the examples with an equal score. */
  function InsertDesc(e: Example, s: seq<Example>): (r: seq<Example>)
    ensures |r| == |s| + 1
    ensures r[0] == e || (s != [] && r[0] == s[0])
    ensures multiset(r) == multiset(s) + multiset{e}
  {
    if s == [] || s[0].atsScore <= e.atsScore then [e] + s
    else
      assert s == [s[0]] + s[1..];
      [s[0]] + InsertDesc(e, s[1..])
  }

  /** Inserting into a sorted sequence keeps it sorted. */
  lemma {:induction false} InsertDescSorted(e: Example, s: seq<Example>)
    requires SortedDesc(s)
    ensures SortedDesc(InsertDesc(e, s))
  {
    if s != [] && s[0].atsScore > e.atsScore {
      var t := InsertDesc(e, s[1..]);
      InsertDescSorted(e, s[1..]);
      var r := [s[0]] + t;
      forall i, j | 0 <= i < j < |r| ensures r[i].atsScore >= r[j].atsScore {
        if i == 0 {
          assert r[j] in multiset(t);
          assert r[j] == e || r[j] in multiset(s[1..]);
        }
      }
    }
  }

  /** `examples.sort((a, b) => b.ats_score - a.ats_score)`, a stable sort. */
  function SortDesc(s: seq<Example>): (r: seq<Example>)
    ensures multiset(r) == multiset(s)
    ensures SortedDesc(r)
  {
    if s == [] then []
    else
      assert s == [s[0]] + s[1..];
      var t := SortDesc(s[1..]);
      InsertDescSorted(s[0], t);
      InsertDesc(s[0], t)
  }

  /** What the fetch returns once the rows are in: the high-scoring examples
      in the order of the injected shuffle, the first `limit` of them, sorted
      by score, highest first; `None` rather than an empty list. */
  function SelectSample(rows: seq<Row>, shuffled: seq<Example>, limit: nat): (r: Option<seq<Example>>)
    requires multiset(shuffled) == multiset(HighScoringExamples(rows))
  {
    var sample := SortDesc(shuffled[..Min(limit, |shuffled|)]);
    if |sample| > 0 then Some(sample) else None
  }

  /** A prefix holds some of the elements of the whole. */
  lemma PrefixSubMultiset<T>(s: seq<T>, k: nat)
    requires k <= |s|
    ensures multiset(s[..k]) <= multiset(s)
  {
    assert s == s[..k] + s[k..];
  }

  /** The sample is empty only when nothing passes the filter or the limit is
      zero; otherwise it holds at most `limit` high-scoring examples taken
      from the rows, highest score first. */
  lemma SampleProperties(rows: seq<Row>, shuffled: seq<Example>, limit: nat)
    requires multiset(shuffled) == multiset(HighScoringExamples(rows))
    ensures var r := SelectSample(rows, shuffled, limit);
      && (r.None? <==> limit == 0 || HighScoringExamples(rows) == [])
      && (r.Some? ==>
            && 0 < |r.value| <= limit
            && |r.value| == Min(limit, |HighScoringExamples(rows)|)
            && multiset(r.value) <= multiset(HighScoringExamples(rows))
            && SortedDesc(r.value)
            && (forall i :: 0 <= i < |r.value| ==> HighScoring(r.value[i])))
  {
    var high := HighScoringExamples(rows);
    assert |shuffled| == |multiset(shuffled)| == |high|;
    var k := Min(limit, |shuffled|);
    var sample := SortDesc(shuffled[..k]);
    assert |sample| == |multiset(sample)| == k;
    PrefixSubMultiset(shuffled, k);
    forall i | 0 <= i < |sample| ensures HighScoring(sample[i]) {
      assert sample[i] in multiset(high);
    }
  }

  // ---------------------------------------------------------------------------
  // Cutting the pattern suggestions down (end of `analyzeWithDatasetPatterns`).

  /** The count kept: `min(n, max(3, floor(random * 3) + 3))`, the random
      digit being `draw % 3`. */
  function KeepCount(n: nat, draw: nat): nat {
    Min(n, Max(3, draw % 3 + 3))
  }

  /** The shuffled suggestions cut to three, four or five (all of them when
      fewer); `None` when there are no suggestions at all. */
  function Truncate<T>(suggestions: seq<T>, shuffled: seq<T>, draw: nat): (r: Option<seq<T>>)
    requires multiset(shuffled) == multiset(suggestions)
  {
    if |suggestions| > 0 then Some(shuffled[..KeepCount(|shuffled|, draw)]) else None
  }

  lemma TruncateBounds<T>(suggestions: seq<T>, shuffled: seq<T>, draw: nat)
    requires multiset(shuffled) == multiset(suggestions)
    ensures var r := Truncate(suggestions, shuffled, draw);
      var n := |suggestions|;
      && (r.None? <==> n == 0)
      && (r.Some? ==>
            && Min(n, 3) <= |r.value| <= Min(n, 5)
            && multiset(r.value) <= multiset(suggestions))
  {
    assert |shuffled| == |multiset(shuffled)| == |suggestions|;
    PrefixSubMultiset(shuffled, KeepCount(|shuffled|, draw));
  }

  // ---------------------------------------------------------------------------
  // Weighted patterns (`calculateDatasetBasedScore`).

  datatype Pattern = Percentage | Duration | ActionWord | ModernTech | Achievement | Credential

  /** The patterns in the order the score visits them. */
  const Patterns: seq<Pattern> := [Percentage, Duration, ActionWord, ModernTech, Achievement, Credential]

  function Weight(p: Pattern): nat {
    match p
    case Percentage => 3
    case Duration => 2
    case ActionWord => 3
    case ModernTech => 2
    case Achievement => 3
    case Credential => 1
  }

  function Desc(p: Pattern): string {
    match p
    case Percentage => "quantifiable metrics"
    case Duration => "experience duration"
    case ActionWord => "action verbs"
    case ModernTech => "modern technologies"
    case Achievement => "quantifiable achievements"
    case Credential => "education credentials"
  }

  /** A character matched by `\w`. */
  predicate IsWordChar(c: char) { IsLowerLetter(c) || IsUpper(c) || IsDigit(c) || c == '_' }

  /** `w` occurs at `i` with a word boundary on both sides (`\bw\b`). */
  predicate WordAt(t: string, w: string, i: nat) {
    && StartsWithAt(t, w, i)
    && (i == 0 || !IsWordChar(t[i - 1]))
    && (i + |w| == |t| || !IsWordChar(t[i + |w|]))
  }

  /** `\b(w1|w2|…)\b`. */
  predicate HasWord(t: string, words: seq<string>) {
    exists j, i :: 0 <= j < |words| && 0 <= i <= |t| && WordAt(t, words[j], i)
  }

  /** `\d+(t1|t2|…)`: a digit directly followed by one of `tails`. */
  predicate DigitThen(t: string, tails: seq<string>) {
    exists i, j :: 0 <= i < |t| && 0 <= j < |tails| && IsDigit(t[i]) && StartsWithAt(t, tails[j], i + 1)
  }

  /** The regular expression of each pattern, on lower-cased text (the
      case-insensitive flag then changes nothing). */
  predicate Matches(p: Pattern, t: string) {
    match p
    case Percentage => HasPercent(t)
    case Duration => DigitThen(t, ["+ year", "+ month"])
    case ActionWord =>
      HasWord(t, ["developed", "implemented", "led", "designed", "optimized", "created", "delivered", "achieved"])
    case ModernTech => HasWord(t, ["aws", "azure", "kubernetes", "docker", "jenkins", "terraform"])
    case Achievement => DigitThen(t, [" project", " team", " user"])
    case Credential => ContainsAny(t, ["bachelor", "master", "degree", "certification"])
  }

  /** How many examples show the pattern in their lower-cased text. */
  function CountMatching(p: Pattern, exs: seq<Example>): (n: nat)
    ensures n <= |exs|
  {
    if exs == [] then 0
    else CountMatching(p, exs[..|exs| - 1]) + (if Matches(p, Lower(exs[|exs| - 1].text)) then 1 else 0)
  }

  /** JavaScript's `Math.round`: halves go up. */
  function Round(x: real): int { (x + 0.5).Floor }

  lemma RoundMonotone(x: real, y: real)
    requires x <= y
    ensures Round(x) <= Round(y)
  {
  }

  /** The share of the sample showing the pattern, between 0 and 1. */
  function Frequency(p: Pattern, exs: seq<Example>): (f: real)
    requires |exs| > 0
    ensures 0.0 <= f <= 1.0
  {
    RatioInUnit(CountMatching(p, exs) as real, |exs| as real);
    CountMatching(p, exs) as real / |exs| as real
  }

  lemma RatioInUnit(n: real, d: real)
    requires 0.0 <= n <= d && d > 0.0
    ensures 0.0 <= n / d <= 1.0
  {
    assert n / d * d == n;
  }

  /** The percentage shown for a frequency in [0, 1]. */
  function PercentOf(f: real): (n: nat)
    requires 0.0 <= f <= 1.0
    ensures n <= 100
  {
    Round(f * 100.0)
  }

  function MissingLine(p: Pattern, f: real): string
    requires 0.0 <= f <= 1.0
  {
    "Missing " + Desc(p) + " found in " + NatToString(PercentOf(f)) + "% of high-scoring resumes"
  }

  /** The line a pattern contributes: only when the resume lacks it and more
      than 70% of the sample has it. */
  function MissingOption(p: Pattern, t: string, exs: seq<Example>): (o: Option<string>)
    requires |exs| > 0
  {
    var f := Frequency(p, exs);
    if !Matches(p, t) && f > 0.7 then Some(MissingLine(p, f)) else None
  }

  function MissingOptions(t: string, exs: seq<Example>): (os: seq<Option<string>>)
    requires |exs| > 0
    ensures |os| == |Patterns|
    ensures forall k :: 0 <= k < |os| ==> os[k] == MissingOption(Patterns[k], t, exs)
  {
    seq(|Patterns|, k requires 0 <= k < |Patterns| => MissingOption(Patterns[k], t, exs))
  }

  /** The weight of the first `k` patterns. */
  function TotalWeight(k: nat): nat
    requires k <= |Patterns|
  {
    if k == 0 then 0 else TotalWeight(k - 1) + Weight(Patterns[k - 1])
  }

  /** The weight of those of the first `k` patterns the text shows. */
  function MatchedWeight(t: string, k: nat): (w: nat)
    requires k <= |Patterns|
    ensures w <= TotalWeight(k)
  {
    if k == 0 then 0 else MatchedWeight(t, k - 1) + (if Matches(Patterns[k - 1], t) then Weight(Patterns[k - 1]) else 0)
  }

  lemma AllWeights()
    ensures TotalWeight(|Patterns|) == 14
  {
    assert TotalWeight(1) == 3;
    assert TotalWeight(2) == 5;
    assert TotalWeight(3) == 8;
    assert TotalWeight(4) == 10;
    assert TotalWeight(5) == 13;
  }

  // ---------------------------------------------------------------------------
  // Statistics of the sample.

  function SumScores(exs: seq<Example>): real {
    if exs == [] then 0.0 else SumScores(exs[..|exs| - 1]) + exs[|exs| - 1].atsScore
  }

  function MinScore(exs: seq<Example>): (m: real)
    requires |exs| > 0
    ensures forall i :: 0 <= i < |exs| ==> m <= exs[i].atsScore
    ensures exists i :: 0 <= i < |exs| && m == exs[i].atsScore
  {
    if |exs| == 1 then exs[0].atsScore
    else
      var m := MinScore(exs[..|exs| - 1]);
      var last := exs[|exs| - 1].atsScore;
      if last < m then last else m
  }

  function MaxScore(exs: seq<Example>): (m: real)
    requires |exs| > 0
    ensures forall i :: 0 <= i < |exs| ==> exs[i].atsScore <= m
    ensures exists i :: 0 <= i < |exs| && m == exs[i].atsScore
  {
    if |exs| == 1 then exs[0].atsScore
    else
      var m := MaxScore(exs[..|exs| - 1]);
      var last := exs[|exs| - 1].atsScore;
      if last > m then last else m
  }

  function Average(exs: seq<Example>): real
    requires |exs| > 0
  {
    SumScores(exs) / |exs| as real
  }

  /** The sum lies between `n` times the lowest score and `n` times the highest. */
  lemma {:induction false} SumBetween(exs: seq<Example>, lo: real, hi: real)
    requires forall i :: 0 <= i < |exs| ==> lo <= exs[i].atsScore <= hi
    ensures |exs| as real * lo <= SumScores(exs) <= |exs| as real * hi
  {
    if exs != [] {
      var init := exs[..|exs| - 1];
      assert forall i :: 0 <= i < |init| ==> init[i] == exs[i];
      SumBetween(init, lo, hi);
    }
  }

  /** The average score lies between the lowest and the highest. */
  lemma AverageBetween(exs: seq<Example>)
    requires |exs| > 0
    ensures MinScore(exs) <= Average(exs) <= MaxScore(exs)
  {
    AverageWithin(exs, MinScore(exs), MaxScore(exs));
  }

  lemma AverageWithin(exs: seq<Example>, lo: real, hi: real)
    requires |exs| > 0
    requires forall i :: 0 <= i < |exs| ==> lo <= exs[i].atsScore <= hi
    ensures lo <= Average(exs) <= hi
  {
    SumBetween(exs, lo, hi);
    DivideBetween(SumScores(exs), |exs| as real, lo, hi);
  }

  lemma DivideBetween(s: real, n: real, lo: real, hi: real)
    requires n > 0.0 && n * lo <= s <= n * hi
    ensures lo <= s / n <= hi
  {
    assert s / n * n == s;
  }

  // ---------------------------------------------------------------------------
  // The score.

  /** `toFixed(1)` on an exact real: the nearest tenth, halves away from zero. */
  function ToFixed1(x: real): string {
    var a := if x < 0.0 then -x else x;
    var n := Round(a * 10.0);
    (if x < 0.0 then "-" else "") + NatToString(n / 10) + "." + NatToString(n % 10)
  }

  function DatasetVerdict(finalScore: real, avg: real): string {
    var f := ToFixed1(avg);
    if finalScore >= 80.0 then
      "Based on dataset analysis, your resume matches patterns from high-scoring resumes (avg dataset score: " + f + ")"
    else if finalScore >= 60.0 then
      "Your resume has some elements of high-scoring resumes (dataset avg: " + f + "), but improvements are needed."
    else
      "Compared to high-scoring resumes in the dataset (avg: " + f + "), your resume needs significant improvements."
  }

  /** 60% pattern match and 40% sample average, rounded. */
  function Estimate(matched: nat, total: nat, avg: real): int
    requires total > 0
  {
    Round(matched as real / total as real * 100.0 * 0.6 + avg * 0.4)
  }

  /** The estimate held within the sample's range. */
  function Clamp(lo: real, hi: real, x: real): real {
    var capped := if hi < x then hi else x;
    if lo > capped then lo else capped
  }

  lemma ClampBetween(lo: real, hi: real, x: real)
    requires lo <= hi
    ensures lo <= Clamp(lo, hi, x) <= hi
    ensures lo <= x <= hi ==> Clamp(lo, hi, x) == x
  {
  }

  /** The final score before the verdict is put in front. */
  function FinalScore(t: string, exs: seq<Example>): real
    requires |exs| > 0
  {
    Clamp(MinScore(exs), MaxScore(exs),
          Estimate(MatchedWeight(t, |Patterns|), TotalWeight(|Patterns|), Average(exs)) as real)
  }

  /** What `calculateDatasetBasedScore` returns for the lower-cased resume
      text `t` and the sample. */
  function DatasetScore(t: string, exs: seq<Example>): Option<ScoreResult> {
    if |exs| == 0 then None
    else
      var final := FinalScore(t, exs);
      Some(ScoreResult(Round(final),
                       [DatasetVerdict(final, Average(exs))] + Present(MissingOptions(t, exs), |Patterns|)))
  }

  /** The score stays within the rounded range of the sample's scores; the
      verdict comes first and the other lines are, in pattern order, the
      missing-pattern lines of exactly the patterns the text lacks and more
      than 70% of the sample shows. */
  lemma DatasetScoreProperties(t: string, exs: seq<Example>)
    requires |exs| > 0
    ensures var r := DatasetScore(t, exs);
      var os := MissingOptions(t, exs);
      var idx := PresentIndices(os, |Patterns|);
      && r.Some?
      && Round(MinScore(exs)) <= r.value.score <= Round(MaxScore(exs))
      && |r.value.feedback| == 1 + |idx|
      && r.value.feedback[0] == DatasetVerdict(FinalScore(t, exs), Average(exs))
      && (forall j1, j2 :: 0 <= j1 < j2 < |idx| ==> idx[j1] < idx[j2])
      && (forall j :: 0 <= j < |idx| ==>
            var p := Patterns[idx[j]];
            && !Matches(p, t)
            && Frequency(p, exs) > 0.7
            && r.value.feedback[j + 1] == MissingLine(p, Frequency(p, exs)))
      && (forall k :: 0 <= k < |Patterns| ==>
            (k in idx <==> !Matches(Patterns[k], t) && Frequency(Patterns[k], exs) > 0.7))
  {
    var lo, hi := MinScore(exs), MaxScore(exs);
    var x := Estimate(MatchedWeight(t, |Patterns|), TotalWeight(|Patterns|), Average(exs)) as real;
    ClampBetween(lo, hi, x);
    RoundMonotone(lo, Clamp(lo, hi, x));
    RoundMonotone(Clamp(lo, hi, x), hi);
    var os := MissingOptions(t, exs);
    PresentIndexed(os, |Patterns|);
    PresentIncreasing(os, |Patterns|);
    DatasetVerdictFirst(t, exs);
  }

  /** The feedback is the verdict followed by the missing-pattern lines. */
  lemma DatasetVerdictFirst(t: string, exs: seq<Example>)
    requires |exs| > 0
    ensures DatasetScore(t, exs).Some?
    ensures DatasetScore(t, exs).value.feedback ==
      [DatasetVerdict(FinalScore(t, exs), Average(exs))] + Present(MissingOptions(t, exs), |Patterns|)
  {
  }

  /** One more pattern adds its weight to the total, and to the matched
      weight when the text shows it. */
  lemma WeightStep(t: string, k: nat)
    requires k < |Patterns|
    ensures TotalWeight(k + 1) == TotalWeight(k) + Weight(Patterns[k])
    ensures MatchedWeight(t, k + 1) == MatchedWeight(t, k) + (if Matches(Patterns[k], t) then Weight(Patterns[k]) else 0)
  {
  }

  /** The weighted pattern loop of `calculateDatasetBasedScore`: the weight
      matched, the total weight and the lines for frequent patterns the
      text misses. */
  method PatternLoop(t: string, examples: seq<Example>) returns (matched: int, total: int, feedback: seq<string>)
    requires |examples| > 0
    ensures total == TotalWeight(|Patterns|)
    ensures matched == MatchedWeight(t, |Patterns|)
    ensures feedback == Present(MissingOptions(t, examples), |Patterns|)
  {
    feedback := [];
    matched, total := 0, 0;
    ghost var os := MissingOptions(t, examples);
    for k := 0 to |Patterns|
      invariant total == TotalWeight(k)
      invariant matched == MatchedWeight(t, k)
      invariant feedback == [] + Present(os, k)
    {
      var p := Patterns[k];
      WeightStep(t, k);
      total := total + Weight(p);
      var frequency := Frequency(p, examples);
      ghost var before := feedback;
      if Matches(p, t) {
        matched := matched + Weight(p);
      } else if frequency > 0.7 {
        feedback := feedback + [MissingLine(p, frequency)];
      }
      PresentLoopStep([], before, feedback, os, k, MissingOption(p, t, examples));
    }
    assert feedback == Present(os, |Patterns|);
  }

  /** `calculateDatasetBasedScore`: the weighted pattern loop, then the
      estimate, the clamp and the verdict. */
  method CalculateDatasetBasedScore(resumeText: string, examples: seq<Example>) returns (r: Option<ScoreResult>)
    ensures r == DatasetScore(Lower(resumeText), examples)
  {
    if |examples| == 0 {
      return None;
    }
    var t := Lower(resumeText);
    var matched, total, feedback := PatternLoop(t, examples);
    var avg := Average(examples);
    var estimate := Estimate(matched, total, avg);
    var final := Clamp(MinScore(examples), MaxScore(examples), estimate as real);
    assert final == FinalScore(t, examples);
    feedback := [DatasetVerdict(final, avg)] + feedback;
    r := Some(ScoreResult(Round(final), feedback));
  }

  /** `calculateATSScore` with its dataset step: the analysed text (built as
      the source builds it) scored against the sample, or the rule-based
      score when the sample is empty. */
  method ScoreResume(data: FrontResume.ResumeData, examples: seq<Example>) returns (r: ScoreResult)
    ensures |examples| > 0 ==> r == DatasetScore(Lower(AnalysedText(data)), examples).value
    ensures |examples| == 0 ==> r == RuleScore(data) && 20 <= r.score <= 100
  {
    var datasetScore := CalculateDatasetBasedScore(AnalysedText(data), examples);
    r := CalculateATSScore(data, datasetScore);
  }
}
