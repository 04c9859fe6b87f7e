/** The rule-based ATS score (`calculateATSScore` when the dataset score is
    unavailable): start at 100, take off a fixed number of points for each
    weakness found, and put a verdict line in front of the feedback. */
module AtsScore {
  import opened Wrappers
  import opened Text
  import opened FrontResume
  import opened AtsRules

  datatype ScoreResult = ScoreResult(score: int, feedback: seq<string>)

  // ---------------------------------------------------------------------------
  // The checks, in the order the source makes them.

  predicate SummaryWeak(data: ResumeData) {
    data.personalInfo.summary == "" || |data.personalInfo.summary| < 50
  }

  /** A description that is missing or shorter than 30 characters (untrimmed). */
  predicate ShortDescription(e: Experience) { e.description == "" || |e.description| < 30 }

  /** The number of entries with a short description
      (`experience.filter(...).length`). */
  function ShortCount(exps: seq<Experience>): (n: nat)
    ensures n <= |exps|
    ensures n == 0 <==> forall i :: 0 <= i < |exps| ==> !ShortDescription(exps[i])
  {
    if exps == [] then 0
    else (if ShortDescription(exps[|exps| - 1]) then 1 else 0) + ShortCount(exps[..|exps| - 1])
  }

  /** The lower-cased descriptions joined with spaces. */
  function ExperienceText(data: ResumeData): string {
    Lower(Join(" ", Descriptions(data.experience)))
  }

  predicate HasMetrics(t: string) { HasPercent(t) || HasDigitPlus(t) }

  predicate ContactIncomplete(data: ResumeData) {
    data.personalInfo.email == "" || data.personalInfo.phone == ""
  }

  const SummaryMessage := "Professional summary is missing or too short"
  const SkillsMessage := "Add more relevant skills (aim for 5-10)"
  const VerbsMessage := "Use strong action verbs in experience descriptions"
  const MetricsMessage := "Add quantifiable results (percentages, numbers) to show impact"
  const ContactMessage := "Ensure contact information is complete"
  const EducationMessage := "Add education details"

  /** "1 experience entry …", "2 experience entries …". */
  function ExperienceMessage(n: nat): string {
    NatToString(n) + " experience" + (if n > 1 then " entries" else " entry")
      + " missing detailed descriptions"
  }

  const Excellent := "Your resume is well-optimized for ATS systems!"
  const Good := "Your resume is good but could be improved for better ATS compatibility."
  const Poor := "Your resume needs significant improvements for ATS compatibility."

  function Verdict(score: int): string {
    if score >= 80 then Excellent else if score >= 60 then Good else Poor
  }

  /** The outcome of the seven checks, in the order the source makes them. */
  datatype Checks = Checks(
    summaryWeak: bool, fewSkills: bool, shortCount: nat, noActionVerb: bool,
    noMetrics: bool, contactIncomplete: bool, noEducation: bool)

  function Inspect(data: ResumeData): Checks {
    var t := ExperienceText(data);
    Checks(SummaryWeak(data), |data.skills| < 5, ShortCount(data.experience), !HasActionVerb(t),
           !HasMetrics(t), ContactIncomplete(data), |data.education| == 0)
  }

  /** The cost of a check: its points when it applies, otherwise nothing. */
  function Cost(applies: bool, points: nat): nat { if applies then points else 0 }

  /** The feedback line of a check: its message when it applies. */
  function Line(applies: bool, message: string): seq<string> { if applies then [message] else [] }

  /** The points taken off, check by check. */
  function Penalty(c: Checks): nat {
    Cost(c.summaryWeak, 15) + Cost(c.fewSkills, 10) + Cost(c.shortCount > 0, 20)
      + Cost(c.noActionVerb, 10) + Cost(c.noMetrics, 10) + Cost(c.contactIncomplete, 5)
      + Cost(c.noEducation, 10)
  }

  /** The number of checks that apply. */
  function AppliedCount(c: Checks): nat {
    Cost(c.summaryWeak, 1) + Cost(c.fewSkills, 1) + Cost(c.shortCount > 0, 1)
      + Cost(c.noActionVerb, 1) + Cost(c.noMetrics, 1) + Cost(c.contactIncomplete, 1)
      + Cost(c.noEducation, 1)
  }

  /** The feedback lines of the checks that apply, in check order. */
  function Lines(c: Checks): seq<string> {
    Line(c.summaryWeak, SummaryMessage) + Line(c.fewSkills, SkillsMessage)
      + Line(c.shortCount > 0, ExperienceMessage(c.shortCount)) + Line(c.noActionVerb, VerbsMessage)
      + Line(c.noMetrics, MetricsMessage) + Line(c.contactIncomplete, ContactMessage)
      + Line(c.noEducation, EducationMessage)
  }

  /** The score and feedback for given check outcomes. */
  function ScoreFor(c: Checks): ScoreResult {
    var score := 100 - Penalty(c);
    ScoreResult(Max(0, score), [Verdict(score)] + Lines(c))
  }

  /** What the rule path returns. */
  function RuleScore(data: ResumeData): ScoreResult {
    ScoreFor(Inspect(data))
  }

  // ---------------------------------------------------------------------------
  // Properties.

  /** No check applies. */
  predicate Clean(c: Checks) {
    && !c.summaryWeak && !c.fewSkills && c.shortCount == 0 && !c.noActionVerb
    && !c.noMetrics && !c.contactIncomplete && !c.noEducation
  }

  /** The score lies in [20, 100], since the seven costs total 80; it is 100
      exactly when no check applies, and no single check can take it below 80. */
  lemma ScoreBounds(c: Checks)
    ensures var r := ScoreFor(c);
      && 20 <= r.score <= 100
      && r.score == 100 - Penalty(c)
      && (r.score == 100 <==> Clean(c))
      && (AppliedCount(c) <= 1 ==> r.score >= 80)
  {
  }

  /** A resume scores 100 on the rule path exactly when its summary has at
      least 50 characters, it lists at least five skills, every description has
      at least 30 characters, the descriptions use an action verb and a metric,
      email and phone are given, and there is some education. */
  lemma PerfectRuleScore(data: ResumeData)
    ensures RuleScore(data).score == 100 <==>
      && !SummaryWeak(data)
      && |data.skills| >= 5
      && ShortCount(data.experience) == 0
      && HasActionVerb(ExperienceText(data))
      && HasMetrics(ExperienceText(data))
      && !ContactIncomplete(data)
      && |data.education| > 0
  {
    ScoreBounds(Inspect(data));
  }

  /** The verdict line comes first and is followed by one line per check that
      applies; the verdict follows the 80 / 60 thresholds of the score. */
  lemma FeedbackShape(c: Checks)
    ensures var r := ScoreFor(c);
      && |r.feedback| == 1 + AppliedCount(c)
      && (r.score >= 80 ==> r.feedback[0] == Excellent)
      && (60 <= r.score < 80 ==> r.feedback[0] == Good)
      && (r.score < 60 ==> r.feedback[0] == Poor)
  {
  }

  // ---------------------------------------------------------------------------
  // The rule path, step by step.

  /** One check of the source: when it applies, take its points off and add
      its message to the feedback. */
  method Deduct(score: int, feedback: seq<string>, applies: bool, points: nat, message: string)
    returns (score': int, feedback': seq<string>)
    ensures score' == score - Cost(applies, points)
    ensures feedback' == feedback + Line(applies, message)
  {
    score', feedback' := score, feedback;
    if applies {
      score' := score' - points;
      feedback' := feedback' + [message];
    }
  }

  /** The deductions as the source makes them: `score` goes down and
      `feedback` grows one check at a time, then the verdict is put in front. */
  method ApplyDeductions(c: Checks) returns (r: ScoreResult)
    ensures r == ScoreFor(c)
  {
    var score := 100;
    var feedback: seq<string> := [];
    score, feedback := Deduct(score, feedback, c.summaryWeak, 15, SummaryMessage);
    assert feedback == Line(c.summaryWeak, SummaryMessage);
    score, feedback := Deduct(score, feedback, c.fewSkills, 10, SkillsMessage);
    score, feedback := Deduct(score, feedback, c.shortCount > 0, 20, ExperienceMessage(c.shortCount));
    score, feedback := Deduct(score, feedback, c.noActionVerb, 10, VerbsMessage);
    score, feedback := Deduct(score, feedback, c.noMetrics, 10, MetricsMessage);
    score, feedback := Deduct(score, feedback, c.contactIncomplete, 5, ContactMessage);
    score, feedback := Deduct(score, feedback, c.noEducation, 10, EducationMessage);
    assert score == 100 - Penalty(c) && feedback == Lines(c);
    if score >= 80 {
      feedback := [Excellent] + feedback;
    } else if score >= 60 {
      feedback := [Good] + feedback;
    } else {
      feedback := [Poor] + feedback;
    }
    r := ScoreResult(Max(0, score), feedback);
  }

  /** `calculateATSScore`: a dataset result, when there is one, is returned
      as it is; otherwise the rule path decides. */
  method CalculateATSScore(data: ResumeData, datasetScore: Option<ScoreResult>) returns (r: ScoreResult)
    ensures datasetScore.Some? ==> r == datasetScore.value
    ensures datasetScore.None? ==> r == RuleScore(data) && 20 <= r.score <= 100
  {
    if datasetScore.Some? {
      return datasetScore.value;
    }
    r := ApplyDeductions(Inspect(data));
    ScoreBounds(Inspect(data));
  }
}
