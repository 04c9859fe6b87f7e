/** The suggestion panel of the editor: the fixed rules that propose up to
    three suggestions, and applying one of them, which forwards a field to
    the editor page and marks the suggestion as applied. The delay before
    the rules run is left out; they run on the resume as it is. */
module AiSuggestions {
  import opened Wrappers
  import opened Text
  import opened FrontResume
  import IndexPage

  datatype Suggestion = Suggestion(field: string, value: string, applied: bool)

  /** The two fixed texts the rules propose. The rules take them as a
      parameter, `PanelAdvice` being the panel's own. */
  datatype Advice = Advice(summary: string, experience: string)

  const PanelAdvice := Advice(
    "Detail-oriented software engineer with 5+ years of experience developing user-focused applications using Java, Spring Boot, and React. Proven track record of improving application performance and implementing innovative solutions that meet business needs.",
    "Led development of RESTful APIs using Spring Boot, reducing response time by 30%. Collaborated with cross-functional teams to implement features that increased user engagement by 25%.")

  const TechStack: seq<string> := ["Java", "Spring Boot", "React.js", "HTML", "CSS", "MongoDB"]

  /** The technologies as the check compares them, lower-cased. */
  const LowerTechStack: seq<string> := ["java", "spring boot", "react.js", "html", "css", "mongodb"]

  lemma LowerWord(w: string, low: string)
    requires |w| == |low| && forall i :: 0 <= i < |w| ==> LowerChar(w[i]) == low[i]
    ensures Lower(w) == low
  {
  }

  /** The lower-cased table lists the technologies lower-cased. */
  lemma LowerTechAt(k: nat)
    requires k < |TechStack|
    ensures |LowerTechStack| == |TechStack| && Lower(TechStack[k]) == LowerTechStack[k]
  {
    if k == 0 {
      LowerWord(TechStack[k], LowerTechStack[k]);
    } else if k == 1 {
      LowerWord(TechStack[k], LowerTechStack[k]);
    } else if k == 2 {
      LowerWord(TechStack[k], LowerTechStack[k]);
    } else if k == 3 {
      LowerWord(TechStack[k], LowerTechStack[k]);
    } else if k == 4 {
      LowerWord(TechStack[k], LowerTechStack[k]);
    } else {
      LowerWord(TechStack[k], LowerTechStack[k]);
    }
  }

  // ---------------------------------------------------------------------------
  // The rules.

  /** A missing or short summary (under 50 characters) is worth a suggestion. */
  predicate ShortSummary(data: ResumeData) {
    |data.personalInfo.summary| < 50
  }

  /** Some existing skill name, lower-cased, contains the lower-cased
      technology. */
  predicate Covered(existing: seq<string>, lowTech: string) {
    exists j :: 0 <= j < |existing| && Contains(Lower(existing[j]), lowTech)
  }

  /** The lower-cased names of the resume's skills. */
  function ExistingSkills(data: ResumeData): (r: seq<string>)
    ensures |r| == |data.skills|
    ensures forall j :: 0 <= j < |r| ==> r[j] == Lower(data.skills[j].name)
  {
    seq(|data.skills|, j requires 0 <= j < |data.skills| => Lower(data.skills[j].name))
  }

  /** The first technology from the `k`-th on that no skill covers. */
  function FirstMissingTech(existing: seq<string>, k: nat): (r: Option<nat>)
    requires k <= |TechStack|
    ensures r.Some? ==> k <= r.value < |TechStack| && !Covered(existing, LowerTechStack[r.value])
                        && forall j :: k <= j < r.value ==> Covered(existing, LowerTechStack[j])
    ensures r.None? ==> forall j :: k <= j < |TechStack| ==> Covered(existing, LowerTechStack[j])
    decreases |TechStack| - k
  {
    if k == |TechStack| then None
    else if !Covered(existing, LowerTechStack[k]) then Some(k)
    else FirstMissingTech(existing, k + 1)
  }

  /** An entry whose description is missing or under 30 characters. */
  predicate ShortDescription(e: Experience) {
    |e.description| < 30
  }

  /** `findIndex` of a short description, from the `k`-th entry on. */
  function FirstShort(exps: seq<Experience>, k: nat): (r: Option<nat>)
    requires k <= |exps|
    ensures r.Some? ==> k <= r.value < |exps| && ShortDescription(exps[r.value])
                        && forall j :: k <= j < r.value ==> !ShortDescription(exps[j])
    ensures r.None? ==> forall j :: k <= j < |exps| ==> !ShortDescription(exps[j])
    decreases |exps| - k
  {
    if k == |exps| then None
    else if ShortDescription(exps[k]) then Some(k)
    else FirstShort(exps, k + 1)
  }

  function SummaryPart(data: ResumeData, advice: Advice): seq<Suggestion> {
    if ShortSummary(data) then [Suggestion("summary", advice.summary, false)] else []
  }

  function SkillPart(data: ResumeData): seq<Suggestion> {
    match FirstMissingTech(ExistingSkills(data), 0)
    case None => []
    case Some(k) => [Suggestion("skill", TechStack[k], false)]
  }

  /** Only the first short entry is looked at, and only when its title
      mentions a developer. */
  function ExperiencePart(data: ResumeData, advice: Advice): seq<Suggestion> {
    match FirstShort(data.experience, 0)
    case None => []
    case Some(i) =>
      if Contains(Lower(data.experience[i].title), "developer")
      then [Suggestion(IndexPage.DescriptionField(i), advice.experience, false)]
      else []
  }

  /** The suggestions the rules produce, in rule order. */
  function Generated(data: ResumeData, advice: Advice): seq<Suggestion> {
    SummaryPart(data, advice) + SkillPart(data) + ExperiencePart(data, advice)
  }

  /** The loop over the technologies in `generateSuggestions`: it stops
      at the first one that no skill covers. */
  method MissingTech(existing: seq<string>) returns (found: Option<nat>)
    ensures found == FirstMissingTech(existing, 0)
  {
    found := None;
    var k := 0;
    while k < |TechStack|
      invariant k <= |TechStack|
      invariant found.None?
      invariant FirstMissingTech(existing, 0) == FirstMissingTech(existing, k)
    {
      var tech := TechStack[k];
      LowerTechAt(k);
      if !Covered(existing, Lower(tech)) {
        found := Some(k);
        break;
      }
      k := k + 1;
    }
  }

  /** The experience rule of `generateSuggestions`: the suggestion it
      pushes, if any. */
  method ExperienceSuggestion(data: ResumeData, advice: Advice) returns (part: seq<Suggestion>)
    ensures part == ExperiencePart(data, advice)
  {
    part := [];
    var short := FirstShort(data.experience, 0);
    if short.Some? {
      var i := short.value;
      if Contains(Lower(data.experience[i].title), "developer") {
        part := [Suggestion(IndexPage.DescriptionField(i), advice.experience, false)];
      }
    }
  }

  /** `generateSuggestions`: the rules in order, each pushing its
      suggestion. */
  method GenerateSuggestions(data: ResumeData, advice: Advice) returns (suggestions: seq<Suggestion>)
    ensures suggestions == Generated(data, advice)
  {
    suggestions := [];
    if |data.personalInfo.summary| < 50 {
      suggestions := suggestions + [Suggestion("summary", advice.summary, false)];
    }
    assert suggestions == SummaryPart(data, advice);
    var found := MissingTech(ExistingSkills(data));
    if found.Some? {
      suggestions := suggestions + [Suggestion("skill", TechStack[found.value], false)];
    }
    assert suggestions == SummaryPart(data, advice) + SkillPart(data);
    var experiencePart := ExperienceSuggestion(data, advice);
    suggestions := suggestions + experiencePart;
  }

  /** The rules give at most three suggestions, none applied yet; a summary
      suggestion exactly when the summary is short; at most one skill
      suggestion, for the first technology no skill covers; and an
      experience suggestion only for the first short entry, when its title
      mentions a developer. */
  lemma GeneratedShape(data: ResumeData, advice: Advice)
    ensures var s := Generated(data, advice);
      |s| <= 3 && (forall j :: 0 <= j < |s| ==> !s[j].applied)
      && (ShortSummary(data) <==> |s| > 0 && s[0].field == "summary")
      && (ShortSummary(data) ==> s[0].value == advice.summary)
      && (forall j :: 0 <= j < |s| && s[j].field == "skill" ==>
            exists k :: 0 <= k < |TechStack| && s[j].value == TechStack[k] && !Covered(ExistingSkills(data), LowerTechStack[k])
              && forall k' :: 0 <= k' < k ==> Covered(ExistingSkills(data), LowerTechStack[k']))
      && (forall j :: 0 <= j < |s| && s[j].field != "summary" && s[j].field != "skill" ==>
            exists i :: 0 <= i < |data.experience| && s[j].field == IndexPage.DescriptionField(i)
              && ShortDescription(data.experience[i]) && Contains(Lower(data.experience[i].title), "developer")
              && forall i' :: 0 <= i' < i ==> !ShortDescription(data.experience[i']))
  {
    var s := Generated(data, advice);
    var a, b, c := SummaryPart(data, advice), SkillPart(data), ExperiencePart(data, advice);
    assert s == a + b + c;
    forall i: nat ensures IndexPage.DescriptionField(i) != "summary" && IndexPage.DescriptionField(i) != "skill" {
      assert IndexPage.DescriptionField(i)[0] == 'e';
    }
  }

  /** Exactly one skill suggestion when some technology is not covered, and
      none when every one is. */
  lemma SkillSuggestionIff(data: ResumeData)
    ensures |SkillPart(data)| == 1 <==> exists k :: 0 <= k < |TechStack| && !Covered(ExistingSkills(data), LowerTechStack[k])
    ensures |SkillPart(data)| <= 1
  {
  }

  // ---------------------------------------------------------------------------
  // Applying a suggestion.

  /** The field handed to the editor page: `skill` becomes `newSkill`, an
      experience field becomes `experience-<n>-description` with `n` read
      back by `parseInt` ("NaN" when there is no number); any other field
      is not forwarded. */
  function Forwarded(field: string): (r: Option<string>)
    ensures field == "summary" ==> r == Some("summary")
    ensures field == "skill" ==> r == Some("newSkill")
    ensures r.Some? && field != "summary" && field != "skill" ==> StartsWithAt(r.value, IndexPage.ExperiencePrefix, 0)
  {
    if field == "summary" then Some("summary")
    else if field == "skill" then Some("newSkill")
    else if StartsWithAt(field, IndexPage.ExperiencePrefix, 0) then
      assert field[|IndexPage.ExperienceWord|] == '-';
      SplitSeparated(field, '-');
      var n := match ParseInt(Split(field, '-')[1]) case Some(n) => NatToString(n) case None => "NaN";
      var f := IndexPage.ExperienceWord + ['-'] + n + ['-'] + IndexPage.DescriptionWord;
      assert f[..|IndexPage.ExperiencePrefix|] == IndexPage.ExperiencePrefix;
      Some(f)
    else None
  }

  /** The suggestion at `index` marked as applied; the others unchanged. */
  function MarkApplied(suggestions: seq<Suggestion>, index: nat): (r: seq<Suggestion>)
    requires index < |suggestions|
    ensures |r| == |suggestions| && r[index].applied
    ensures r[index].(applied := suggestions[index].applied) == suggestions[index]
    ensures forall j :: 0 <= j < |r| && j != index ==> r[j] == suggestions[j]
  {
    suggestions[index := suggestions[index].(applied := true)]
  }

  /** `handleApplySuggestion(index)`: the new suggestion list, and the
      field and value handed to the editor page, if any. */
  function ApplyAt(suggestions: seq<Suggestion>, index: nat): (r: (seq<Suggestion>, Option<(string, string)>))
    requires index < |suggestions|
    ensures r.0 == MarkApplied(suggestions, index)
    ensures r.1.Some? <==> Forwarded(suggestions[index].field).Some?
    ensures r.1.Some? ==> r.1.value == (Forwarded(suggestions[index].field).value, suggestions[index].value)
  {
    var s := suggestions[index];
    (MarkApplied(suggestions, index),
     match Forwarded(s.field) case Some(f) => Some((f, s.value)) case None => None)
  }

  /** The experience field the rules produce is forwarded as it is. */
  lemma ForwardDescription(i: nat)
    ensures Forwarded(IndexPage.DescriptionField(i)) == Some(IndexPage.DescriptionField(i))
  {
    var f := IndexPage.DescriptionField(i);
    assert f != "summary" && f != "skill" by { assert f[0] == 'e'; }
    IndexPage.DescriptionFieldTarget(i);
  }

  /** A field that is none of the three kinds is not forwarded. */
  lemma ForwardOther(field: string)
    requires field != "summary" && field != "skill" && !StartsWithAt(field, IndexPage.ExperiencePrefix, 0)
    ensures Forwarded(field).None?
  {
  }

  /** A generated suggestion that is neither the summary nor the skill one
      is the experience suggestion: the description field of an entry,
      carrying the experience advice. */
  lemma GeneratedExperienceAt(data: ResumeData, advice: Advice, index: nat)
    requires index < |Generated(data, advice)|
    requires Generated(data, advice)[index].field != "summary" && Generated(data, advice)[index].field != "skill"
    ensures exists i ::
              0 <= i < |data.experience| &&
              Generated(data, advice)[index] == Suggestion(IndexPage.DescriptionField(i), advice.experience, false)
  {
    GeneratedShape(data, advice);
    var a, b, c := SummaryPart(data, advice), SkillPart(data), ExperiencePart(data, advice);
    assert Generated(data, advice) == a + b + c;
  }

  /** Applying the generated experience suggestion through the page sets
      the description of that entry to the advice and changes nothing else. */
  lemma ApplyGeneratedExperience(data: ResumeData, advice: Advice, suggestions: seq<Suggestion>, index: nat, skillId: string)
    requires suggestions == Generated(data, advice) && index < |suggestions|
    requires suggestions[index].field != "summary" && suggestions[index].field != "skill"
    ensures var (_, call) := ApplyAt(suggestions, index);
      call.Some? &&
      exists i :: 0 <= i < |data.experience| &&
        var r := IndexPage.ApplySuggestion(data, call.value.0, call.value.1, skillId);
        r.Some? && |r.value.experience| == |data.experience|
        && r.value.experience[i].description == advice.experience
        && (forall j :: 0 <= j < |data.experience| && j != i ==> r.value.experience[j] == data.experience[j])
        && r.value.(experience := data.experience) == data
  {
    GeneratedExperienceAt(data, advice, index);
    var i :| 0 <= i < |data.experience|
      && suggestions[index] == Suggestion(IndexPage.DescriptionField(i), advice.experience, false);
    ForwardDescription(i);
    IndexPage.ApplyDescription(data, i, advice.experience, skillId);
    assert ApplyAt(suggestions, index).1 == Some((IndexPage.DescriptionField(i), advice.experience));
  }
}
