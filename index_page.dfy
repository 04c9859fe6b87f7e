/** The editor page: applying a suggestion to the resume being edited, and
    choosing which resume to edit. Both build a new state from the old one;
    the fetch of a saved resume is a parameter (`None` when it failed). */
module IndexPage {
  import opened Wrappers
  import opened Text
  import opened FrontResume

  const InitialSkill := Skill("1", "", "80")

  /** The page's starting resume: empty personal information and one blank
      entry per list; it has no achievements. */
  const InitialResumeData := ResumeData(
    EmptyPersonalInfo, [BlankExperience], [BlankEducation], [InitialSkill], [BlankProject], None)

  const ExperienceWord := "experience"

  const DescriptionWord := "description"

  /** The prefix `startsWith` looks for. */
  const ExperiencePrefix := ExperienceWord + "-"

  lemma WordsWithoutDash()
    ensures '-' !in ExperienceWord && '-' !in DescriptionWord
  {
    assert forall k :: 0 <= k < |ExperienceWord| ==> ExperienceWord[k] != '-';
    assert forall k :: 0 <= k < |DescriptionWord| ==> DescriptionWord[k] != '-';
  }

  // ---------------------------------------------------------------------------
  // handleApplySuggestion

  /** The experience entry a field names: `experience-<i>-description`
      split on '-', with `parseInt` of the second piece. `None` when the
      third piece is not "description" or the index is not a number. */
  function DescriptionTarget(field: string): (r: Option<nat>)
    requires StartsWithAt(field, ExperiencePrefix, 0)
    ensures r.Some? ==> |Split(field, '-')| > 2 && Split(field, '-')[2] == DescriptionWord
  {
    assert field[|ExperienceWord|] == '-';
    SplitSeparated(field, '-');
    var parts := Split(field, '-');
    if |parts| > 2 && parts[2] == DescriptionWord then ParseInt(parts[1]) else None
  }

  /** `handleApplySuggestion(field, value)`; `skillId` stands for the
      `skill-<timestamp>` id. `None` when the write lands past the end of
      the experience list, where the browser's array would get holes. */
  function ApplySuggestion(data: ResumeData, field: string, value: string, skillId: string): (r: Option<ResumeData>)
    ensures r.Some? ==>
      r.value.education == data.education && r.value.projects == data.projects && r.value.achievements == data.achievements
  {
    if field == "summary" then
      Some(data.(personalInfo := data.personalInfo.(summary := value)))
    else if field == "newSkill" then
      Some(data.(skills := data.skills + [Skill(skillId, value, "80")]))
    else if StartsWithAt(field, ExperiencePrefix, 0) then
      match DescriptionTarget(field)
      case None => Some(data)
      case Some(i) =>
        if i < |data.experience| then
          Some(data.(experience := data.experience[i := data.experience[i].(description := value)]))
        else if i == |data.experience| then
          Some(data.(experience := data.experience + [Experience("", "", "", "", "", "", value)]))
        else None
    else Some(data)
  }

  /** `summary` replaces the summary and nothing else. */
  lemma ApplySummary(data: ResumeData, value: string, skillId: string)
    ensures var r := ApplySuggestion(data, "summary", value, skillId);
      r.Some? && r.value.personalInfo.summary == value
      && r.value.personalInfo.(summary := data.personalInfo.summary) == data.personalInfo
      && r.value.(personalInfo := data.personalInfo) == data
  {
  }

  /** `newSkill` appends exactly one skill, named by the value, at level 80. */
  lemma ApplyNewSkill(data: ResumeData, value: string, skillId: string)
    ensures var r := ApplySuggestion(data, "newSkill", value, skillId);
      r.Some? && |r.value.skills| == |data.skills| + 1
      && r.value.skills[..|data.skills|] == data.skills
      && r.value.skills[|data.skills|].name == value && r.value.skills[|data.skills|].level == "80"
      && r.value.(skills := data.skills) == data
  {
    var r := ApplySuggestion(data, "newSkill", value, skillId);
    assert r.value.skills[..|data.skills|] == data.skills;
  }

  /** The field name the suggestions use for entry `i`. */
  function DescriptionField(i: nat): (f: string)
    ensures StartsWithAt(f, ExperiencePrefix, 0)
  {
    var f := ExperienceWord + ['-'] + NatToString(i) + ['-'] + DescriptionWord;
    assert f[..|ExperiencePrefix|] == ExperiencePrefix;
    f
  }

  /** `experience-<i>-description` names entry `i`. */
  lemma DescriptionFieldTarget(i: nat)
    ensures DescriptionTarget(DescriptionField(i)) == Some(i)
  {
    ParseIntNatToString(i);
    WordsWithoutDash();
    SplitThree(ExperienceWord, NatToString(i), DescriptionWord, '-');
  }

  /** `experience-<i>-description` for an existing entry replaces that
      entry's description; every other entry, every other field of the
      entry and the rest of the resume are unchanged. */
  lemma ApplyDescription(data: ResumeData, i: nat, value: string, skillId: string)
    requires i < |data.experience|
    ensures var r := ApplySuggestion(data, DescriptionField(i), value, skillId);
      r.Some? && |r.value.experience| == |data.experience|
      && r.value.experience[i].description == value
      && r.value.experience[i].(description := data.experience[i].description) == data.experience[i]
      && (forall j :: 0 <= j < |data.experience| && j != i ==> r.value.experience[j] == data.experience[j])
      && r.value.(experience := data.experience) == data
  {
    DescriptionFieldTarget(i);
    var f := DescriptionField(i);
    assert f != "summary" by { assert |f| > |"summary"|; }
    assert f != "newSkill" by { assert f[0] != 'n'; }
  }

  /** An experience field whose third piece is not "description" changes
      nothing. */
  lemma ApplyOtherExperienceField(data: ResumeData, field: string, value: string, skillId: string)
    requires StartsWithAt(field, ExperiencePrefix, 0)
    requires |Split(field, '-')| <= 2 || Split(field, '-')[2] != DescriptionWord
    ensures ApplySuggestion(data, field, value, skillId) == Some(data)
  {
    assert field != "summary" && field != "newSkill" by { assert field[0] == 'e'; }
  }

  /** Any other field name changes nothing. */
  lemma ApplyUnknownField(data: ResumeData, field: string, value: string, skillId: string)
    requires field != "summary" && field != "newSkill" && !StartsWithAt(field, ExperiencePrefix, 0)
    ensures ApplySuggestion(data, field, value, skillId) == Some(data)
  {
  }

  // ---------------------------------------------------------------------------
  // handleSelectResume

  /** A resume as the server sends it: any part may be missing. */
  datatype LoadedResume = LoadedResume(
    id: Option<string>,
    template: string,
    personalInfo: Option<PersonalInfo>,
    experience: Option<seq<Experience>>,
    education: Option<seq<Education>>,
    skills: Option<seq<Skill>>,
    projects: Option<seq<Project>>)

  /** What the page holds: the resume being edited, the id it was loaded
      from (none for a new one) and the chosen template. */
  datatype EditorState = EditorState(data: ResumeData, currentId: Option<string>, template: string)

  /** A list, unless it is missing or empty. */
  function NonEmptyOr<T>(xs: Option<seq<T>>, initial: seq<T>): (r: seq<T>)
    ensures xs.Some? && xs.value != [] ==> r == xs.value
    ensures xs.None? || xs.value == [] ==> r == initial
  {
    if xs.Some? && |xs.value| > 0 then xs.value else initial
  }

  /** The resume data a loaded resume is shown as. */
  function Loaded(res: LoadedResume): ResumeData {
    ResumeData(
      res.personalInfo.GetOr(InitialResumeData.personalInfo),
      NonEmptyOr(res.experience, InitialResumeData.experience),
      NonEmptyOr(res.education, InitialResumeData.education),
      NonEmptyOr(res.skills, InitialResumeData.skills),
      NonEmptyOr(res.projects, InitialResumeData.projects),
      None)
  }

  /** `handleSelectResume(resumeId)`; `fetched` is the answer of the fetch. */
  function SelectResume(s: EditorState, resumeId: string, fetched: Option<LoadedResume>): (r: EditorState)
    ensures resumeId == "new" ==> r.data == InitialResumeData && r.currentId.None? && r.template == s.template
    ensures resumeId != "new" && fetched.None? ==> r == s
  {
    if resumeId == "new" then s.(data := InitialResumeData, currentId := None)
    else match fetched
      case None => s
      case Some(res) =>
        EditorState(Loaded(res), res.id, if res.template != "" then res.template else s.template)
  }

  /** A loaded resume is shown with every list non-empty: a missing personal
      information or a missing or empty list is replaced by the page's
      starting value, anything else is kept; it has no achievements, and its
      template is taken when it names one. */
  lemma SelectLoaded(s: EditorState, resumeId: string, res: LoadedResume)
    requires resumeId != "new"
    ensures var r := SelectResume(s, resumeId, Some(res));
      r.currentId == res.id
      && r.data.experience != [] && r.data.education != [] && r.data.skills != [] && r.data.projects != []
      && (res.personalInfo.Some? ==> r.data.personalInfo == res.personalInfo.value)
      && (res.personalInfo.None? ==> r.data.personalInfo == EmptyPersonalInfo)
      && (res.experience.Some? && res.experience.value != [] ==> r.data.experience == res.experience.value)
      && (res.skills.None? ==> r.data.skills == [InitialSkill])
      && r.data.achievements.None?
      && (res.template != "" ==> r.template == res.template)
      && (res.template == "" ==> r.template == s.template)
  {
  }
}
