/** The rule-based analyser of the ATS engine (`generateATSSuggestions` in
    src/lib/atsSuggestions.ts) with its template fallbacks. Every
    `Math.random` choice is an injected number that indexes the candidate
    list modulo its length. */
module AtsSuggestions {
  import opened Wrappers
  import opened Text
  import opened FrontResume
  import opened AtsRules

  datatype Suggestion = Suggestion(field: string, value: string, kind: string, priority: string, reason: string)

  /** A suggestion produced by the dataset pattern analysis, before it gets a field. */
  datatype DatasetSuggestion = DatasetSuggestion(value: string, kind: string, priority: string, reason: string)

  /** The random draws of one run: the summary lead-in, the missing skill
      offered, and one draw per experience entry (the verb of the template
      description, of the rewrite, or the metric of the hint). */
  datatype Choices = Choices(summaryLeadIn: nat, skillPick: nat, experience: seq<nat>)

  function ChoiceAt(s: seq<nat>, i: nat): nat { if i < |s| then s[i] else 0 }

  function OrElse(s: string, d: string): string { if s == "" then d else s }

  // ---------------------------------------------------------------------------
  // Fields.

  function DatasetField(i: nat): string { "dataset-pattern-" + NatToString(i) }

  function ExperienceField(i: nat): string { "experience-" + NatToString(i) + "-description" }

  function EducationField(i: nat): string { "education-" + NatToString(i) }

  lemma ExperienceFieldInjective(i: nat, j: nat)
    requires ExperienceField(i) == ExperienceField(j)
    ensures i == j
  {
    var a, b := NatToString(i), NatToString(j);
    var fa, fb := ExperienceField(i), ExperienceField(j);
    assert fa[11..11 + |a|] == a;
    assert fb[11..11 + |b|] == b;
    NatToStringInjective(i, j);
  }

  // ---------------------------------------------------------------------------
  // Dataset suggestions come first, numbered in order.

  const DatasetReason := "Pattern analysis based on high-scoring resumes from ATS dataset"

  function FromDataset(d: DatasetSuggestion, i: nat): Suggestion {
    Suggestion(DatasetField(i), d.value, OrElse(d.kind, "keyword"), OrElse(d.priority, "high"),
               OrElse(d.reason, DatasetReason))
  }

  function DatasetPart(ds: seq<DatasetSuggestion>, k: nat): (r: seq<Suggestion>)
    requires k <= |ds|
    ensures |r| == k
    ensures forall i :: 0 <= i < k ==> r[i].field == DatasetField(i) && r[i].value == ds[i].value
  {
    if k == 0 then [] else DatasetPart(ds, k - 1) + [FromDataset(ds[k - 1], k - 1)]
  }

  // ---------------------------------------------------------------------------
  // Summary.

  const SummaryLeadIns: seq<string> := ["Experienced", "Skilled", "Proven", "Dedicated"]

  const SummaryTail :=
    ". Proven track record of delivering high-quality solutions and collaborating with cross-functional teams. Strong problem-solving abilities with a focus on continuous improvement and best practices."

  function TakeSkills(skills: seq<Skill>, n: nat): seq<Skill> {
    if |skills| <= n then skills else skills[..n]
  }

  /** The template summary (the fallback of `generateSummarySuggestion`). */
  function SummaryFallback(data: ResumeData, leadIn: nat): string {
    var role := OrElse(data.personalInfo.title, "Professional");
    var n := |data.experience|;
    var topSkills := Join(", ", SkillNames(TakeSkills(data.skills, 3)));
    SummaryLeadIns[leadIn % 4] + " " + Lower(role)
      + (if n > 0 then " with " + NatToString(n) + "+ years of experience" else "")
      + (if topSkills != "" then " specializing in " + topSkills else "")
      + SummaryTail
  }

  /** The template summary is always longer than 200 characters, so a resume
      that takes it is then told that its summary is too long. */
  lemma SummaryFallbackTooLong(data: ResumeData, leadIn: nat)
    ensures |SummaryFallback(data, leadIn)| > 200
  {
    assert |SummaryTail| == 197;
    assert forall j :: 0 <= j < 4 ==> |SummaryLeadIns[j]| >= 6;
    assert |OrElse(data.personalInfo.title, "Professional")| >= 1;
  }

  const SummaryShortReason := "Professional summary should be 50-150 words and highlight key skills and experience"

  const SummaryLongReason := "Summary is too long. ATS-friendly summaries should be 50-150 words"

  function SummaryPart(data: ResumeData, leadIn: nat): (r: seq<Suggestion>)
    ensures |r| <= 1
    ensures forall j :: 0 <= j < |r| ==> r[j].field == "summary" && r[j].kind == "summary"
    ensures var s := data.personalInfo.summary;
      && (r != [] && r[0].priority == "high" <==> |s| < 50)
      && (r != [] && r[0].priority == "high" ==> r[0].value == SummaryFallback(data, leadIn))
      && (r != [] && r[0].priority == "medium" <==> |s| > 200)
      && (r != [] && r[0].priority == "medium" ==> r[0].value == s[..150] + "...")
      && (r == [] <==> 50 <= |s| <= 200)
  {
    var s := data.personalInfo.summary;
    if s == "" || |s| < 50 then
      [Suggestion("summary", SummaryFallback(data, leadIn), "summary", "high", SummaryShortReason)]
    else if |s| > 200 then
      [Suggestion("summary", s[..150] + "...", "summary", "medium", SummaryLongReason)]
    else []
  }

  // ---------------------------------------------------------------------------
  // Skills.

  /** The keywords of `ks`, in order, whose lower-cased form `lks` some
      existing skill contains (`present`) or none contains (not `present`). */
  function KeywordsBy(ks: seq<string>, lks: seq<string>, existing: seq<string>, present: bool): (r: seq<string>)
    requires |ks| == |lks|
    ensures |r| <= |ks|
  {
    if ks == [] then []
    else
      var rest := KeywordsBy(ks[1..], lks[1..], existing, present);
      if AnyContains(existing, lks[0]) == present then [ks[0]] + rest else rest
  }

  /** The filter keeps exactly the keywords with the asked-for presence. */
  lemma {:induction false} KeywordsByMembers(ks: seq<string>, lks: seq<string>, existing: seq<string>, present: bool)
    requires |ks| == |lks|
    ensures forall t :: t in KeywordsBy(ks, lks, existing, present) <==>
      exists i :: 0 <= i < |ks| && ks[i] == t && AnyContains(existing, lks[i]) == present
  {
    if ks != [] {
      KeywordsByMembers(ks[1..], lks[1..], existing, present);
      forall t | (exists i :: 0 <= i < |ks| && ks[i] == t && AnyContains(existing, lks[i]) == present)
        ensures t in KeywordsBy(ks, lks, existing, present)
      {
        var i :| 0 <= i < |ks| && ks[i] == t && AnyContains(existing, lks[i]) == present;
        if i > 0 {
          assert ks[1..][i - 1] == t && lks[1..][i - 1] == lks[i];
        }
      }
      forall t | t in KeywordsBy(ks[1..], lks[1..], existing, present)
        ensures exists i :: 0 <= i < |ks| && ks[i] == t && AnyContains(existing, lks[i]) == present
      {
        var i :| 0 <= i < |ks| - 1 && ks[1..][i] == t && AnyContains(existing, lks[1..][i]) == present;
        assert ks[i + 1] == t;
      }
    }
  }

  function SkillReason(s: string): string {
    "Adding relevant technical skills like \"" + s + "\" can improve ATS keyword matching"
  }

  /** The skill suggestion, given the missing keywords and the number of
      existing skills: one of the first five missing keywords, picked at
      random, when any is missing and there are fewer than ten skills. */
  function SkillOffer(missing: seq<string>, count: nat, pick: nat): (r: seq<Suggestion>)
    ensures |r| <= 1
    ensures r != [] <==> missing != [] && count < 10
    ensures r != [] ==>
      && r[0].field == "skill" && r[0].priority == "medium"
      && r[0].value in missing[..Min(|missing|, 5)] && r[0].value in missing
  {
    if |missing| > 0 && count < 10 then
      var s := missing[pick % Min(|missing|, 5)];
      assert missing[..Min(|missing|, 5)] <= missing;
      [Suggestion("skill", s, "skill", "medium", SkillReason(s))]
    else []
  }

  function SkillPart(skills: seq<Skill>, pick: nat): seq<Suggestion> {
    var existing := LowerNames(skills);
    SkillOffer(KeywordsBy(Technical, TechnicalLower, existing, false), |existing|, pick)
  }

  /** A skill is offered exactly when some technical keyword is missing from
      the skills and there are fewer than ten of them; the one offered is a
      technical keyword that no skill mentions. */
  lemma SkillSuggestionOffersMissing(skills: seq<Skill>, pick: nat)
    ensures var r := SkillPart(skills, pick);
      var existing := LowerNames(skills);
      && (r != [] <==>
            (exists i :: 0 <= i < |Technical| && !AnyContains(existing, TechnicalLower[i])) && |skills| < 10)
      && (r != [] ==>
            exists i :: 0 <= i < |Technical| && r[0].value == Technical[i] && !AnyContains(existing, TechnicalLower[i]))
  {
    var existing := LowerNames(skills);
    var r := SkillPart(skills, pick);
    MissingKeywords(Technical, TechnicalLower, existing);
    if r != [] {
      MissingOffered(Technical, TechnicalLower, existing, r[0].value);
    }
  }

  lemma MissingOffered(ks: seq<string>, lks: seq<string>, existing: seq<string>, t: string)
    requires |ks| == |lks| && t in KeywordsBy(ks, lks, existing, false)
    ensures exists i :: 0 <= i < |ks| && ks[i] == t && !AnyContains(existing, lks[i])
  {
    KeywordsByMembers(ks, lks, existing, false);
  }

  /** Some keyword is missing exactly when the missing list is not empty,
      and every keyword on it is one no existing skill mentions. */
  lemma MissingKeywords(ks: seq<string>, lks: seq<string>, existing: seq<string>)
    requires |ks| == |lks|
    ensures var missing := KeywordsBy(ks, lks, existing, false);
      missing != [] <==> exists i :: 0 <= i < |ks| && !AnyContains(existing, lks[i])
  {
    var missing := KeywordsBy(ks, lks, existing, false);
    KeywordsByMembers(ks, lks, existing, false);
    if exists i :: 0 <= i < |ks| && !AnyContains(existing, lks[i]) {
      var i :| 0 <= i < |ks| && !AnyContains(existing, lks[i]);
      assert ks[i] in missing;
    }
  }

  // ---------------------------------------------------------------------------
  // Experience entries.

  const ExperienceVerbs: seq<string> := ["Developed", "Implemented", "Led", "Designed", "Optimized"]

  const ExperienceMiddle := " and maintained scalable solutions using "

  const ExperienceEnd :=
    ", resulting in improved performance and user satisfaction. Collaborated with cross-functional teams to deliver projects on time and within budget. Identified and resolved technical challenges, contributing to overall team success."

  function TakeStrings(s: seq<string>, n: nat): seq<string> {
    if |s| <= n then s else s[..n]
  }

  /** The template description (the fallback of `generateExperienceSuggestion`):
      up to three technical keywords the skills already name, in list order. */
  function ExperienceFallback(existing: seq<string>, verb: nat): string {
    var techStack := OrElse(Join(", ", TakeStrings(KeywordsBy(Technical, TechnicalLower, existing, true), 3)),
                            "modern technologies");
    ExperienceVerbs[verb % 5] + ExperienceMiddle + techStack + ExperienceEnd
  }

  /** The template description is long enough: taking it clears the
      high-priority check of its entry. */
  lemma ExperienceFallbackLongEnough(existing: seq<string>, verb: nat)
    ensures var r := ExperienceFallback(existing, verb); r != "" && |Trim(r)| >= 30
  {
    var r := ExperienceFallback(existing, verb);
    assert forall j :: 0 <= j < 5 ==> ExperienceVerbs[j] != [] && !IsJsSpace(ExperienceVerbs[j][0]);
    assert r[0] == ExperienceVerbs[verb % 5][0];
    assert r[|r| - 1] == '.';
    TrimIdentity(r);
  }

  const ImproveVerbs: seq<string> := ["Developed", "Implemented", "Led", "Designed", "Created"]

  /** A text led by one of the verbs starts with a capital once trimmed. */
  lemma ImprovedStartsUpper(t: string, j: nat)
    requires j < |ImproveVerbs|
    ensures StartsUpper(Trim(ImproveVerbs[j] + " " + t))
  {
    var r := ImproveVerbs[j] + " " + t;
    assert ImproveVerbs[j] != [] && IsUpper(ImproveVerbs[j][0]);
    assert r[0] == ImproveVerbs[j][0];
    TrimKeepsFirst(r);
  }

  predicate StartsUpper(s: string) { s != [] && IsUpper(s[0]) }

  /** `improveExperienceDescription`: unless the trimmed description starts
      with a capital letter, a verb is put in front of it, lower-cased. */
  function ImproveExperienceDescription(description: string, verb: nat): (r: string)
    ensures StartsUpper(Trim(r))
    ensures StartsUpper(Trim(description)) ==> r == description
    ensures !StartsUpper(Trim(description)) ==>
      exists v :: v in ImproveVerbs && r == v + " " + Lower(Trim(description))
  {
    var t := Trim(description);
    if StartsUpper(t) then description
    else
      ImprovedStartsUpper(Lower(t), verb % 5);
      ImproveVerbs[verb % 5] + " " + Lower(t)
  }

  /** A rewritten description is left alone by a second rewrite. */
  lemma ImproveIdempotent(description: string, v1: nat, v2: nat)
    ensures var once := ImproveExperienceDescription(description, v1);
      ImproveExperienceDescription(once, v2) == once
  {
  }

  const Metrics: seq<string> := [
    "by 30%", "by 25%", "by 40%", "by 50%", "for 100+ users", "with 99.9% uptime",
    "reducing costs by 20%"]

  lemma MetricsHaveDigits()
    ensures forall j :: 0 <= j < |Metrics| ==> HasDigit(Metrics[j])
  {
    assert IsDigit(Metrics[0][3]) && IsDigit(Metrics[1][3]) && IsDigit(Metrics[2][3]);
    assert IsDigit(Metrics[3][3]) && IsDigit(Metrics[4][4]) && IsDigit(Metrics[5][5]);
    assert IsDigit(Metrics[6][19]);
  }

  lemma HasDigitInside(a: string, m: string, b: string)
    requires HasDigit(m)
    ensures HasDigit(a + m + b)
  {
    var i :| 0 <= i < |m| && IsDigit(m[i]);
    assert (a + m + b)[|a| + i] == m[i];
  }

  function MetricsHint(t: string, m: string): string {
    t + " (Consider adding quantifiable results, e.g., \"" + m + "\")"
  }

  /** `addMetricsToDescription`: a description without a digit gets a hint
      with a sample metric appended to its trimmed text. */
  function AddMetricsToDescription(description: string, metric: nat): (r: string)
    ensures HasDigit(r)
    ensures HasDigit(description) ==> r == description
    ensures !HasDigit(description) ==>
      exists m :: m in Metrics && r == MetricsHint(Trim(description), m)
  {
    if !HasDigit(description) then
      var m := Metrics[metric % 7];
      MetricsHaveDigits();
      HasDigitInside(Trim(description) + " (Consider adding quantifiable results, e.g., \"", m, "\")");
      MetricsHint(Trim(description), m)
    else description
  }

  /** A description that already carries the hint is left alone by a second call. */
  lemma AddMetricsIdempotent(description: string, m1: nat, m2: nat)
    ensures var once := AddMetricsToDescription(description, m1);
      AddMetricsToDescription(once, m2) == once
  {
  }

  /** The description is missing, or shorter than 30 characters once trimmed. */
  predicate TooShort(d: string) { d == "" || |Trim(d)| < 30 }

  /** No action verb occurs and the lower-cased description does not start
      with a letter a-z (the test of the source, which is not "does not start
      with a capital"). */
  predicate NeedsVerb(d: string) {
    !HasActionVerb(Lower(d)) && !(Lower(d) != [] && IsLowerLetter(Lower(d)[0]))
  }

  predicate NeedsSuggestion(d: string) { TooShort(d) || NeedsVerb(d) || !HasDigit(d) }

  const ExperienceShortReason := "Experience descriptions should be detailed with action verbs and quantifiable achievements"

  const ExperienceVerbReason := "Start bullet points with strong action verbs (e.g., \"Developed\", \"Led\", \"Implemented\")"

  const ExperienceMetricsReason := "Add quantifiable results (percentages, numbers) to demonstrate impact"

  /** The check of one experience entry: at most one suggestion, decided in
      the order length, action verb, digits. */
  function ExperienceCheck(exp: Experience, i: nat, existing: seq<string>, draw: nat): (r: Option<Suggestion>)
    ensures r.Some? ==> r.value.field == ExperienceField(i) && r.value.kind == "experience"
  {
    var d := exp.description;
    if TooShort(d) then
      Some(Suggestion(ExperienceField(i), ExperienceFallback(existing, draw), "experience", "high",
                      ExperienceShortReason))
    else if NeedsVerb(d) then
      Some(Suggestion(ExperienceField(i), ImproveExperienceDescription(d, draw), "experience", "medium",
                      ExperienceVerbReason))
    else if !HasDigit(d) then
      Some(Suggestion(ExperienceField(i), AddMetricsToDescription(d, draw), "experience", "medium",
                      ExperienceMetricsReason))
    else None
  }

  /** An entry gets a suggestion exactly when its description needs one; it
      is high priority, with the template text, exactly when the description
      is too short, and otherwise medium priority with the rewritten text or
      the metrics hint. */
  lemma ExperienceCheckCases(exp: Experience, i: nat, existing: seq<string>, draw: nat)
    ensures var r := ExperienceCheck(exp, i, existing, draw);
      var d := exp.description;
      && (r.Some? <==> NeedsSuggestion(d))
      && (r.Some? ==> (r.value.priority == "high" <==> TooShort(d)))
      && (TooShort(d) ==> r == Some(Suggestion(ExperienceField(i), ExperienceFallback(existing, draw),
                                               "experience", "high", ExperienceShortReason)))
      && (!TooShort(d) && NeedsVerb(d) ==>
            r.Some? && r.value.priority == "medium" && r.value.value == ImproveExperienceDescription(d, draw))
      && (!TooShort(d) && !NeedsVerb(d) && !HasDigit(d) ==>
            r.Some? && r.value.priority == "medium" && r.value.value == AddMetricsToDescription(d, draw))
  {
  }

  /** The check of every experience entry, in entry order. */
  function ExperienceChecks(exps: seq<Experience>, existing: seq<string>, draws: seq<nat>): seq<Option<Suggestion>> {
    seq(|exps|, i requires 0 <= i < |exps| => ExperienceCheck(exps[i], i, existing, ChoiceAt(draws, i)))
  }

  /** The experience suggestions, in entry order. */
  function ExperiencePart(exps: seq<Experience>, existing: seq<string>, draws: seq<nat>): seq<Suggestion> {
    var checks := ExperienceChecks(exps, existing, draws);
    Present(checks, |checks|)
  }

  /** Every check's suggestion, if any, carries the field of its entry. */
  predicate FieldsIndexed(checks: seq<Option<Suggestion>>) {
    forall i :: 0 <= i < |checks| && checks[i].Some? ==> checks[i].value.field == ExperienceField(i)
  }

  lemma ExperienceChecksIndexed(exps: seq<Experience>, existing: seq<string>, draws: seq<nat>)
    ensures FieldsIndexed(ExperienceChecks(exps, existing, draws))
  {
    var checks := ExperienceChecks(exps, existing, draws);
    forall i | 0 <= i < |checks| && checks[i].Some? ensures checks[i].value.field == ExperienceField(i) {
      assert checks[i] == ExperienceCheck(exps[i], i, existing, ChoiceAt(draws, i));
    }
  }

  /** Over any indexed checks: each suggestion belongs to one entry and no
      entry gets two. */
  lemma IndexedFieldsDistinct(checks: seq<Option<Suggestion>>)
    requires FieldsIndexed(checks)
    ensures var r := Present(checks, |checks|);
      && (forall j :: 0 <= j < |r| ==> exists i :: 0 <= i < |checks| && r[j].field == ExperienceField(i))
      && (forall j1, j2 :: 0 <= j1 < j2 < |r| ==> r[j1].field != r[j2].field)
  {
    var r := Present(checks, |checks|);
    var idx := PresentIndices(checks, |checks|);
    IndexedFieldsAt(checks);
    PresentIncreasing(checks, |checks|);
    forall j1, j2 | 0 <= j1 < j2 < |r| ensures r[j1].field != r[j2].field {
      if r[j1].field == r[j2].field {
        ExperienceFieldInjective(idx[j1], idx[j2]);
      }
    }
  }

  /** Each suggestion carries the field of the entry it was found at. */
  lemma IndexedFieldsAt(checks: seq<Option<Suggestion>>)
    requires FieldsIndexed(checks)
    ensures var r := Present(checks, |checks|);
      var idx := PresentIndices(checks, |checks|);
      && |idx| == |r|
      && (forall j :: 0 <= j < |r| ==> idx[j] < |checks| && r[j].field == ExperienceField(idx[j]))
  {
    var r := Present(checks, |checks|);
    var idx := PresentIndices(checks, |checks|);
    PresentIndexed(checks, |checks|);
    forall j | 0 <= j < |r| ensures r[j].field == ExperienceField(idx[j]) {
      assert checks[idx[j]] == Some(r[j]);
    }
  }

  /** Over any indexed checks: an entry has a suggestion in the result
      exactly when its check made one. */
  lemma IndexedEntryCovered(checks: seq<Option<Suggestion>>, i: nat)
    requires FieldsIndexed(checks) && i < |checks|
    ensures var r := Present(checks, |checks|);
      checks[i].Some? <==> exists j :: 0 <= j < |r| && r[j].field == ExperienceField(i)
  {
    var r := Present(checks, |checks|);
    var idx := PresentIndices(checks, |checks|);
    PresentIndexed(checks, |checks|);
    PresentIncreasing(checks, |checks|);
    if checks[i].Some? {
      assert i in idx;
      var j :| 0 <= j < |idx| && idx[j] == i;
      assert checks[i] == Some(r[j]);
    }
    if exists j :: 0 <= j < |r| && r[j].field == ExperienceField(i) {
      var j :| 0 <= j < |r| && r[j].field == ExperienceField(i);
      assert checks[idx[j]] == Some(r[j]);
      ExperienceFieldInjective(idx[j], i);
    }
  }

  /** Each experience suggestion belongs to one entry and no entry gets two. */
  lemma ExperienceFieldsDistinct(exps: seq<Experience>, existing: seq<string>, draws: seq<nat>)
    ensures var r := ExperiencePart(exps, existing, draws);
      && (forall j :: 0 <= j < |r| ==> exists i :: 0 <= i < |exps| && r[j].field == ExperienceField(i))
      && (forall j1, j2 :: 0 <= j1 < j2 < |r| ==> r[j1].field != r[j2].field)
  {
    var checks := ExperienceChecks(exps, existing, draws);
    ExperienceChecksIndexed(exps, existing, draws);
    IndexedFieldsDistinct(checks);
    assert |checks| == |exps|;
    assert ExperiencePart(exps, existing, draws) == Present(checks, |checks|);
  }

  /** An entry gets a suggestion exactly when its description needs one. */
  lemma ExperienceEntryCovered(exps: seq<Experience>, existing: seq<string>, draws: seq<nat>, i: nat)
    requires i < |exps|
    ensures var r := ExperiencePart(exps, existing, draws);
      NeedsSuggestion(exps[i].description) <==> exists j :: 0 <= j < |r| && r[j].field == ExperienceField(i)
  {
    var checks := ExperienceChecks(exps, existing, draws);
    ExperienceChecksIndexed(exps, existing, draws);
    IndexedEntryCovered(checks, i);
    assert ExperiencePart(exps, existing, draws) == Present(checks, |checks|);
    ExperienceCheckCases(exps[i], i, existing, ChoiceAt(draws, i));
    assert checks[i] == ExperienceCheck(exps[i], i, existing, ChoiceAt(draws, i));
  }

  // ---------------------------------------------------------------------------
  // Education, format, keywords.

  const EducationValue := "Complete education details improve ATS parsing"

  const EducationReason := "Education section should include degree, school name, and graduation date"

  predicate Incomplete(e: Education) { e.degree == "" || e.school == "" }

  /** The suggestion for incomplete entry i. */
  function EducationSuggestion(i: nat): Suggestion {
    Suggestion(EducationField(i), EducationValue, "education", "high", EducationReason)
  }

  function IncompleteCount(edus: seq<Education>, k: nat): nat
    requires k <= |edus|
  {
    if k == 0 then 0 else IncompleteCount(edus, k - 1) + (if Incomplete(edus[k - 1]) then 1 else 0)
  }

  function EducationPart(edus: seq<Education>, k: nat): (r: seq<Suggestion>)
    requires k <= |edus|
    ensures |r| == IncompleteCount(edus, k)
    ensures forall j :: 0 <= j < |r| ==>
      && r[j].priority == "high" && r[j].kind == "education"
      && exists i :: 0 <= i < k && Incomplete(edus[i]) && r[j].field == EducationField(i)
  {
    if k == 0 then []
    else
      var r := EducationPart(edus, k - 1);
      if Incomplete(edus[k - 1]) then
        r + [EducationSuggestion(k - 1)]
      else r
  }

  lemma EducationFieldInjective(i: nat, j: nat)
    requires EducationField(i) == EducationField(j)
    ensures i == j
  {
    var a, b := NatToString(i), NatToString(j);
    assert EducationField(i)[10..] == a;
    assert EducationField(j)[10..] == b;
    NatToStringInjective(i, j);
  }

  /** Every education suggestion carries the fixed value and reason. */
  lemma {:induction false} EducationPartValues(edus: seq<Education>, k: nat)
    requires k <= |edus|
    ensures forall j :: 0 <= j < |EducationPart(edus, k)| ==>
      EducationPart(edus, k)[j].value == EducationValue && EducationPart(edus, k)[j].reason == EducationReason
  {
    if k > 0 {
      EducationPartValues(edus, k - 1);
      var p := EducationPart(edus, k - 1);
      var r := EducationPart(edus, k);
      forall j | 0 <= j < |r| ensures r[j].value == EducationValue && r[j].reason == EducationReason {
        if j < |p| {
          assert r[j] == p[j];
        } else {
          assert r[j] == EducationSuggestion(k - 1);
        }
      }
    }
  }

  /** A field already in the first `k` entries' suggestions names an entry
      before `k`. */
  lemma EducationFieldsBefore(edus: seq<Education>, k: nat, j: nat, i: nat)
    requires k <= |edus| && j < |EducationPart(edus, k)|
    requires EducationPart(edus, k)[j].field == EducationField(i)
    ensures i < k
  {
    var p := EducationPart(edus, k);
    var i' :| 0 <= i' < k && Incomplete(edus[i']) && p[j].field == EducationField(i');
    EducationFieldInjective(i, i');
  }

  /** An incomplete entry gets an education suggestion, at position `j`. */
  lemma {:induction false} EducationPartCovered(edus: seq<Education>, k: nat, i: nat) returns (j: nat)
    requires i < k <= |edus| && Incomplete(edus[i])
    ensures j < |EducationPart(edus, k)| && EducationPart(edus, k)[j].field == EducationField(i)
  {
    var p := EducationPart(edus, k - 1);
    var r := EducationPart(edus, k);
    if i == k - 1 {
      assert r == p + [EducationSuggestion(i)];
      j := |p|;
    } else {
      j := EducationPartCovered(edus, k - 1, i);
      assert r[j] == p[j];
    }
  }

  /** Entry i gets an education suggestion iff it is incomplete. */
  lemma EducationPartCovers(edus: seq<Education>, k: nat, i: nat)
    requires i < k <= |edus|
    ensures Incomplete(edus[i]) <==>
      exists j :: 0 <= j < |EducationPart(edus, k)| && EducationPart(edus, k)[j].field == EducationField(i)
  {
    var r := EducationPart(edus, k);
    if Incomplete(edus[i]) {
      var j := EducationPartCovered(edus, k, i);
    }
    if exists j :: 0 <= j < |r| && r[j].field == EducationField(i) {
      var j :| 0 <= j < |r| && r[j].field == EducationField(i);
      var i' :| 0 <= i' < k && Incomplete(edus[i']) && r[j].field == EducationField(i');
      EducationFieldInjective(i, i');
    }
  }

  /** The education suggestions follow entry order, so no entry gets two. */
  lemma {:induction false} EducationPartOrdered(edus: seq<Education>, k: nat, j1: nat, j2: nat, i1: nat, i2: nat)
    requires k <= |edus|
    requires j1 < j2 < |EducationPart(edus, k)|
    requires EducationPart(edus, k)[j1].field == EducationField(i1)
    requires EducationPart(edus, k)[j2].field == EducationField(i2)
    ensures i1 < i2
  {
    var p := EducationPart(edus, k - 1);
    var r := EducationPart(edus, k);
    assert k > 0;
    if j2 == |p| {
      assert r == p + [EducationSuggestion(k - 1)];
      assert r[j1] == p[j1];
      EducationFieldsBefore(edus, k - 1, j1, i1);
      EducationFieldInjective(i2, k - 1);
    } else {
      assert r[j1] == p[j1] && r[j2] == p[j2];
      EducationPartOrdered(edus, k - 1, j1, j2, i1, i2);
    }
  }

  const FormatSuggestion := Suggestion("format", "Ensure email format is correct", "format", "high",
    "ATS systems parse contact information. Ensure email format is valid")

  function FormatPart(email: string): (r: seq<Suggestion>)
    ensures |r| <= 1
    ensures r != [] <==> email != "" && '@' !in email
    ensures forall j :: 0 <= j < |r| ==> r[j].field == "format" && r[j].priority == "high"
  {
    if email != "" && '@' !in email then
      [FormatSuggestion]
    else []
  }

  /** The keywords of `ks`, in order, whose lower-cased form `lks` occurs
      in `text`. The technical list has no repeated entry, so its length is
      the size of the set the source builds. */
  function KeywordsIn(ks: seq<string>, lks: seq<string>, text: string): (r: seq<string>)
    requires |ks| == |lks|
    ensures |r| <= |ks|
  {
    if ks == [] then []
    else
      var rest := KeywordsIn(ks[1..], lks[1..], text);
      if Contains(text, lks[0]) then [ks[0]] + rest else rest
  }

  lemma {:induction false} KeywordsInMembers(ks: seq<string>, lks: seq<string>, text: string, i: nat)
    requires |ks| == |lks| && i < |ks| && Contains(text, lks[i])
    ensures ks[i] in KeywordsIn(ks, lks, text)
  {
    if i > 0 {
      KeywordsInMembers(ks[1..], lks[1..], text, i - 1);
    }
  }

  /** Only occurring keywords are counted. */
  lemma {:induction false} KeywordsInOnly(ks: seq<string>, lks: seq<string>, text: string, x: string)
    requires |ks| == |lks| && x in KeywordsIn(ks, lks, text)
    ensures exists i :: 0 <= i < |ks| && ks[i] == x && Contains(text, lks[i])
  {
    var rest := KeywordsIn(ks[1..], lks[1..], text);
    if !(Contains(text, lks[0]) && x == ks[0]) {
      assert x in rest;
      KeywordsInOnly(ks[1..], lks[1..], text, x);
      var i :| 0 <= i < |ks[1..]| && ks[1..][i] == x && Contains(text, lks[1..][i]);
      assert ks[i + 1] == x && lks[i + 1] == lks[1..][i];
    }
  }

  const KeywordSuggestion := Suggestion("keyword", "Add more industry-relevant keywords", "keyword", "medium",
    "ATS systems match resumes to job descriptions using keywords. Add more relevant technical terms")

  /** The keyword check: fewer than five technical keywords in the analysed
      text (`AtsRules.AnalysedText`, built as the source builds it) and
      fewer than eight skills. */
  function KeywordPart(data: ResumeData): (r: seq<Suggestion>)
    ensures |r| <= 1
    ensures r != [] <==> |KeywordsIn(Technical, TechnicalLower, AnalysedText(data))| < 5 && |data.skills| < 8
    ensures forall j :: 0 <= j < |r| ==> r[j] == KeywordSuggestion
  {
    if |KeywordsIn(Technical, TechnicalLower, AnalysedText(data))| < 5 && |data.skills| < 8 then
      [KeywordSuggestion]
    else []
  }

  /** No keyword whose lower-cased form occurs in `text` leaves the list empty. */
  lemma {:induction false} KeywordsInNone(ks: seq<string>, lks: seq<string>, text: string)
    requires |ks| == |lks|
    requires forall j :: 0 <= j < |lks| ==> !Contains(text, lks[j])
    ensures KeywordsIn(ks, lks, text) == []
  {
    if ks != [] {
      KeywordsInNone(ks[1..], lks[1..], text);
    }
  }

  /** When the first `n` keywords all occur, at least `n` are counted. */
  lemma {:induction false} KeywordsInPrefix(ks: seq<string>, lks: seq<string>, text: string, n: nat)
    requires |ks| == |lks| && n <= |ks|
    requires forall j :: 0 <= j < n ==> Contains(text, lks[j])
    ensures |KeywordsIn(ks, lks, text)| >= n
  {
    if n > 0 {
      KeywordsInPrefix(ks[1..], lks[1..], text, n - 1);
    }
  }

  /** Every technical keyword starts with two characters that are not spaces. */
  lemma TechnicalStarts(k: nat)
    requires k < |TechnicalLower|
    ensures |TechnicalLower[k]| >= 2 && TechnicalLower[k][0] != ' ' && TechnicalLower[k][1] != ' '
  {
  }

  /** The source's keyword check never sees the skills or the descriptions:
      with an empty summary it asks for more keywords whenever there are
      fewer than eight skills, whatever those skills are called. */
  lemma KeywordCheckIgnoresSkills(data: ResumeData)
    requires data.personalInfo.summary == "" && |data.skills| < 8
    ensures KeywordPart(data) == [KeywordSuggestion]
  {
    var text := AnalysedText(data);
    forall j | 0 <= j < |TechnicalLower| ensures !Contains(text, TechnicalLower[j]) {
      TechnicalStarts(j);
      SummaryFreeText(data, TechnicalLower[j]);
    }
    KeywordsInNone(Technical, TechnicalLower, text);
  }

  /** The check evidently intended: the same thresholds over the summary,
      the descriptions and the skill names joined with spaces
      (`AtsRules.IntendedText`). */
  function IntendedKeywordPart(data: ResumeData): (r: seq<Suggestion>)
    ensures |r| <= 1
    ensures r != [] <==> |KeywordsIn(Technical, TechnicalLower, IntendedText(data))| < 5 && |data.skills| < 8
    ensures forall j :: 0 <= j < |r| ==> r[j] == KeywordSuggestion
  {
    if |KeywordsIn(Technical, TechnicalLower, IntendedText(data))| < 5 && |data.skills| < 8 then
      [KeywordSuggestion]
    else []
  }

  /** In the intended check a technical keyword named by a skill counts
      towards the five, and a resume with eight or more skills never gets
      the keyword suggestion. */
  lemma KeywordCheckSeesSkills(data: ResumeData, i: nat, k: nat)
    requires i < |data.skills| && k < |Technical| && Contains(Lower(data.skills[i].name), TechnicalLower[k])
    ensures Technical[k] in KeywordsIn(Technical, TechnicalLower, IntendedText(data))
    ensures |data.skills| >= 8 ==> IntendedKeywordPart(data) == []
  {
    IntendedTextSeesSkill(data, i, TechnicalLower[k]);
    KeywordsInMembers(Technical, TechnicalLower, IntendedText(data), k);
  }

  /** The skills java, python, javascript, typescript and react, with an
      empty summary: the source still asks for more keywords, the intended
      check does not. */
  lemma KeywordSkillsExample()
    ensures var names := ["java", "python", "javascript", "typescript", "react"];
      var data := ResumeData(EmptyPersonalInfo, [], [],
                             seq(5, j requires 0 <= j < 5 => Skill("s", names[j], "80")), [], None);
      KeywordPart(data) == [KeywordSuggestion] && IntendedKeywordPart(data) == []
  {
    var names := ["java", "python", "javascript", "typescript", "react"];
    var data := ResumeData(EmptyPersonalInfo, [], [],
                           seq(5, j requires 0 <= j < 5 => Skill("s", names[j], "80")), [], None);
    KeywordCheckIgnoresSkills(data);
    forall j | 0 <= j < 5 ensures Contains(IntendedText(data), TechnicalLower[j]) {
      assert names[j] == TechnicalLower[j];
      LowerSelf(names[j]);
      assert StartsWithAt(names[j], names[j], 0);
      IntendedTextSeesSkill(data, j, TechnicalLower[j]);
    }
    KeywordsInPrefix(Technical, TechnicalLower, IntendedText(data), 5);
  }

  // ---------------------------------------------------------------------------
  // The whole analysis.

  function DatasetList(dataset: Option<seq<DatasetSuggestion>>): seq<DatasetSuggestion> {
    match dataset
    case Some(ds) => ds
    case None => []
  }

  /** The rule-based suggestions, in the order the source pushes them. */
  function RuleSuggestions(data: ResumeData, c: Choices): seq<Suggestion> {
    SummaryPart(data, c.summaryLeadIn)
      + SkillPart(data.skills, c.skillPick)
      + ExperiencePart(data.experience, LowerNames(data.skills), c.experience)
      + EducationPart(data.education, |data.education|)
      + FormatPart(data.personalInfo.email)
      + KeywordPart(data)
  }

  /** What `generateATSSuggestions` returns, given the dataset analysis
      (`None` when the dataset is unavailable) and the random draws. */
  function ATSSuggestions(data: ResumeData, dataset: Option<seq<DatasetSuggestion>>, c: Choices): seq<Suggestion> {
    var ds := DatasetList(dataset);
    DatasetPart(ds, |ds|) + RuleSuggestions(data, c)
  }

  predicate IsDatasetField(f: string) { |f| >= 16 && f[..16] == "dataset-pattern-" }

  /** Every field from position `n` on is not a dataset field. */
  predicate NoDatasetFieldFrom(s: seq<Suggestion>, n: nat) {
    forall j :: n <= j < |s| ==> s[j].field != [] && s[j].field[0] != 'd'
  }

  lemma NoDatasetFieldAppend(a: seq<Suggestion>, b: seq<Suggestion>, n: nat)
    requires n <= |a| && NoDatasetFieldFrom(a, n) && NoDatasetFieldFrom(b, 0)
    ensures NoDatasetFieldFrom(a + b, n)
  {
    forall j | n <= j < |a + b| ensures (a + b)[j].field != [] && (a + b)[j].field[0] != 'd' {
      if j >= |a| {
        assert (a + b)[j] == b[j - |a|];
      }
    }
  }

  /** No rule-based suggestion carries a field starting with 'd'. */
  lemma RuleFieldsNotDataset(data: ResumeData, c: Choices)
    ensures NoDatasetFieldFrom(RuleSuggestions(data, c), 0)
  {
    var existing := LowerNames(data.skills);
    var sp := SummaryPart(data, c.summaryLeadIn);
    var kp := SkillPart(data.skills, c.skillPick);
    var xp := ExperiencePart(data.experience, existing, c.experience);
    var ep := EducationPart(data.education, |data.education|);
    var fp := FormatPart(data.personalInfo.email);
    var wp := KeywordPart(data);
    ExperienceFieldsDistinct(data.experience, existing, c.experience);
    assert NoDatasetFieldFrom(xp, 0);
    assert NoDatasetFieldFrom(ep, 0);
    NoDatasetFieldAppend(sp, kp, 0);
    NoDatasetFieldAppend(sp + kp, xp, 0);
    NoDatasetFieldAppend(sp + kp + xp, ep, 0);
    NoDatasetFieldAppend(sp + kp + xp + ep, fp, 0);
    NoDatasetFieldAppend(sp + kp + xp + ep + fp, wp, 0);
  }

  /** Dataset suggestions numbered from 0, followed by suggestions none of
      which carries a dataset field. */
  lemma DatasetPrefix(ds: seq<DatasetSuggestion>, rules: seq<Suggestion>)
    requires NoDatasetFieldFrom(rules, 0)
    ensures var r := DatasetPart(ds, |ds|) + rules;
      && |r| >= |ds|
      && (forall i :: 0 <= i < |ds| ==> r[i].field == DatasetField(i) && r[i].value == ds[i].value)
      && (forall j :: |ds| <= j < |r| ==> !IsDatasetField(r[j].field))
  {
    var r := DatasetPart(ds, |ds|) + rules;
    forall j | |ds| <= j < |r| ensures !IsDatasetField(r[j].field) {
      assert r[j] == rules[j - |ds|];
    }
  }

  /** Dataset suggestions come first, in their order and numbered from 0; no
      rule-based suggestion after them carries a dataset field. */
  lemma DatasetSuggestionsFirst(data: ResumeData, dataset: Option<seq<DatasetSuggestion>>, c: Choices)
    ensures var r := ATSSuggestions(data, dataset, c);
      var ds := DatasetList(dataset);
      && |r| >= |ds|
      && (forall i :: 0 <= i < |ds| ==> r[i].field == DatasetField(i) && r[i].value == ds[i].value)
      && (forall j :: |ds| <= j < |r| ==> !IsDatasetField(r[j].field))
  {
    RuleFieldsNotDataset(data, c);
    DatasetPrefix(DatasetList(dataset), RuleSuggestions(data, c));
  }

  /** `generateATSSuggestions`: the suggestions are pushed onto one list
      step by step, in the order of the source. */
  method GenerateATSSuggestions(data: ResumeData, dataset: Option<seq<DatasetSuggestion>>, c: Choices)
    returns (suggestions: seq<Suggestion>)
    ensures suggestions == ATSSuggestions(data, dataset, c)
  {
    suggestions := [];
    var ds := DatasetList(dataset);
    var i := 0;
    while i < |ds|
      invariant 0 <= i <= |ds|
      invariant suggestions == DatasetPart(ds, i)
    {
      suggestions := suggestions + [FromDataset(ds[i], i)];
      i := i + 1;
    }
    ghost var datasetPart := suggestions;
    var summary := SummaryPart(data, c.summaryLeadIn);
    ghost var rules := summary;
    suggestions := suggestions + summary;
    var skill := SkillPart(data.skills, c.skillPick);
    AppendStep(datasetPart, rules, suggestions, skill);
    suggestions, rules := suggestions + skill, rules + skill;
    ghost var before := suggestions;
    var checks := ExperienceChecks(data.experience, LowerNames(data.skills), c.experience);
    suggestions := AppendPresent(suggestions, checks);
    AppendStep(datasetPart, rules, before, ExperiencePart(data.experience, LowerNames(data.skills), c.experience));
    rules := rules + ExperiencePart(data.experience, LowerNames(data.skills), c.experience);
    before := suggestions;
    suggestions := AppendEducationSuggestions(suggestions, data.education);
    AppendStep(datasetPart, rules, before, EducationPart(data.education, |data.education|));
    rules := rules + EducationPart(data.education, |data.education|);
    var format := FormatPart(data.personalInfo.email);
    AppendStep(datasetPart, rules, suggestions, format);
    suggestions, rules := suggestions + format, rules + format;
    var keyword := KeywordPart(data);
    AppendStep(datasetPart, rules, suggestions, keyword);
    suggestions, rules := suggestions + keyword, rules + keyword;
    assert rules == RuleSuggestions(data, c);
  }

  /** The loop over the education entries of `generateATSSuggestions`. */
  method AppendEducationSuggestions(acc: seq<Suggestion>, edus: seq<Education>) returns (suggestions: seq<Suggestion>)
    ensures suggestions == acc + EducationPart(edus, |edus|)
  {
    suggestions := acc;
    var i := 0;
    while i < |edus|
      invariant 0 <= i <= |edus|
      invariant suggestions == acc + EducationPart(edus, i)
    {
      if Incomplete(edus[i]) {
        suggestions := suggestions
          + [EducationSuggestion(i)];
      }
      i := i + 1;
    }
  }
}
