/** The resume form: its starting state and the handlers that change one
    field of one entry, add an entry or remove one. Every handler builds a
    new resume from the old one; the result is both the form's new state
    and what it hands to the page. A handler that returns early hands over
    nothing (`None`). The `Date.now()` of new ids is the parameter `now`. */
module ResumeForm {
  import opened Wrappers
  import opened Text
  import opened FrontResume

  /** The form's own default: one blank entry per list, achievements
      included. */
  const DefaultResumeData := ResumeData(
    EmptyPersonalInfo, [BlankExperience], [BlankEducation], [Skill("1", "", "80")], [BlankProject],
    Some([BlankAchievement]))

  // ---------------------------------------------------------------------------
  // Starting state.

  /** The resume with an achievements list: a blank one is added when it is
      missing (an empty list is kept, since `[]` is truthy). */
  function WithAchievements(d: ResumeData): (r: ResumeData)
    ensures r.achievements.Some?
    ensures d.achievements.Some? ==> r == d
    ensures d.achievements.None? ==> r.achievements == Some([BlankAchievement])
    ensures r.(achievements := d.achievements) == d
  {
    if d.achievements.None? then d.(achievements := Some([BlankAchievement])) else d
  }

  /** The resume object the page passes in; the form writes into it. */
  class ResumeObject {
    var data: ResumeData

    constructor(d: ResumeData)
      ensures data == d
    {
      data := d;
    }
  }

  /** The `useState` initializer: the page's object, or the default. The
      achievements list is added to the page's own object, so the page
      sees it too. */
  method InitialState(initialData: ResumeObject?) returns (state: ResumeData)
    modifies initialData
    ensures state.achievements.Some?
    ensures initialData == null ==> state == DefaultResumeData
    ensures initialData != null ==>
      initialData.data == WithAchievements(old(initialData.data)) && state == initialData.data
  {
    if initialData == null {
      state := DefaultResumeData;
    } else {
      if initialData.data.achievements.None? {
        initialData.data := initialData.data.(achievements := Some([BlankAchievement]));
      }
      state := initialData.data;
    }
  }

  /** The effect on a new `initialData`: a copy of it, with an achievements
      list; without one the state stays as it is. */
  function Refreshed(initialData: Option<ResumeData>, state: ResumeData): (r: ResumeData)
    ensures r.achievements.Some? || r == state
    ensures initialData.None? ==> r == state
    ensures initialData.Some? ==> r.achievements.Some? && r.(achievements := initialData.value.achievements) == initialData.value
  {
    if initialData.Some? then WithAchievements(initialData.value) else state
  }

  // ---------------------------------------------------------------------------
  // The list operations the handlers share.

  /** Entry `index` replaced by `f` of it. */
  function ChangeAt<T>(xs: seq<T>, index: nat, f: T -> T): (r: seq<T>)
    requires index < |xs|
    ensures |r| == |xs| && r[index] == f(xs[index])
    ensures forall j :: 0 <= j < |xs| && j != index ==> r[j] == xs[j]
  {
    xs[index := f(xs[index])]
  }

  /** `filter((_, i) => i !== index)` over the first `k` entries. */
  function KeepOthers<T>(xs: seq<T>, index: nat, k: nat): (r: seq<T>)
    requires k <= |xs|
    ensures |r| <= k
  {
    if k == 0 then [] else KeepOthers(xs, index, k - 1) + (if k - 1 != index then [xs[k - 1]] else [])
  }

  /** The filter drops exactly the entry at `index` and keeps the others in
      order; an index past the end drops nothing. */
  lemma {:induction false} KeepOthersSlices<T>(xs: seq<T>, index: nat, k: nat)
    requires k <= |xs|
    ensures KeepOthers(xs, index, k) == if index < k then xs[..index] + xs[index + 1..k] else xs[..k]
  {
    if k > 0 {
      KeepOthersSlices(xs, index, k - 1);
      if index < k - 1 {
        assert xs[index + 1..k] == xs[index + 1..k - 1] + [xs[k - 1]];
      } else if index == k - 1 {
        assert xs[index + 1..k] == [];
      } else {
        assert xs[..k] == xs[..k - 1] + [xs[k - 1]];
      }
    }
  }

  /** A remove handler on one list: nothing happens when the list has a
      single entry; otherwise the entry at `index` is filtered out. */
  function RemoveAt<T>(xs: seq<T>, index: nat): (r: Option<seq<T>>)
    ensures r.None? <==> |xs| == 1
  {
    if |xs| == 1 then None else Some(KeepOthers(xs, index, |xs|))
  }

  /** Removing drops exactly the entry at the index and keeps the rest in
      order; an index that names no entry removes nothing. */
  lemma RemoveAtCases<T>(xs: seq<T>, index: nat)
    requires |xs| != 1
    ensures index < |xs| ==> RemoveAt(xs, index) == Some(xs[..index] + xs[index + 1..])
    ensures index >= |xs| ==> RemoveAt(xs, index) == Some(xs)
  {
    KeepOthersSlices(xs, index, |xs|);
    assert xs[..|xs|] == xs;
  }

  /** No remove makes a non-empty list empty. */
  lemma RemoveAtKeepsOne<T>(xs: seq<T>, index: nat)
    ensures |xs| >= 1 ==> RemoveAt(xs, index).None? || |RemoveAt(xs, index).value| >= 1
  {
    if |xs| != 1 {
      KeepOthersSlices(xs, index, |xs|);
    }
  }

  // ---------------------------------------------------------------------------
  // `{ ...entry, [field]: value }` for each kind of entry.

  const PersonalKeys := {"name", "title", "email", "phone", "location", "summary", "linkedin", "github"}

  function PersonalGet(p: PersonalInfo, key: string): string
    requires key in PersonalKeys
  {
    match key
    case "name" => p.name
    case "title" => p.title
    case "email" => p.email
    case "phone" => p.phone
    case "location" => p.location
    case "summary" => p.summary
    case "linkedin" => p.linkedin
    case _ => p.github
  }

  function PersonalSet(p: PersonalInfo, key: string, value: string): (r: PersonalInfo)
    requires key in PersonalKeys
    ensures forall k :: k in PersonalKeys ==> PersonalGet(r, k) == if k == key then value else PersonalGet(p, k)
  {
    match key
    case "name" => p.(name := value)
    case "title" => p.(title := value)
    case "email" => p.(email := value)
    case "phone" => p.(phone := value)
    case "location" => p.(location := value)
    case "summary" => p.(summary := value)
    case "linkedin" => p.(linkedin := value)
    case _ => p.(github := value)
  }

  const ExperienceKeys := {"id", "title", "company", "location", "startDate", "endDate", "description"}

  function ExperienceGet(e: Experience, key: string): string
    requires key in ExperienceKeys
  {
    match key
    case "id" => e.id
    case "title" => e.title
    case "company" => e.company
    case "location" => e.location
    case "startDate" => e.startDate
    case "endDate" => e.endDate
    case _ => e.description
  }

  function ExperienceSet(e: Experience, key: string, value: string): (r: Experience)
    requires key in ExperienceKeys
    ensures forall k :: k in ExperienceKeys ==> ExperienceGet(r, k) == if k == key then value else ExperienceGet(e, k)
  {
    match key
    case "id" => e.(id := value)
    case "title" => e.(title := value)
    case "company" => e.(company := value)
    case "location" => e.(location := value)
    case "startDate" => e.(startDate := value)
    case "endDate" => e.(endDate := value)
    case _ => e.(description := value)
  }

  const EducationKeys := {"id", "degree", "school", "location", "startDate", "endDate", "description"}

  function EducationGet(e: Education, key: string): string
    requires key in EducationKeys
  {
    match key
    case "id" => e.id
    case "degree" => e.degree
    case "school" => e.school
    case "location" => e.location
    case "startDate" => e.startDate
    case "endDate" => e.endDate
    case _ => e.description
  }

  function EducationSet(e: Education, key: string, value: string): (r: Education)
    requires key in EducationKeys
    ensures forall k :: k in EducationKeys ==> EducationGet(r, k) == if k == key then value else EducationGet(e, k)
  {
    match key
    case "id" => e.(id := value)
    case "degree" => e.(degree := value)
    case "school" => e.(school := value)
    case "location" => e.(location := value)
    case "startDate" => e.(startDate := value)
    case "endDate" => e.(endDate := value)
    case _ => e.(description := value)
  }

  const SkillKeys := {"id", "name", "level"}

  function SkillGet(s: Skill, key: string): string
    requires key in SkillKeys
  {
    match key
    case "id" => s.id
    case "name" => s.name
    case _ => s.level
  }

  function SkillSet(s: Skill, key: string, value: string): (r: Skill)
    requires key in SkillKeys
    ensures forall k :: k in SkillKeys ==> SkillGet(r, k) == if k == key then value else SkillGet(s, k)
  {
    match key
    case "id" => s.(id := value)
    case "name" => s.(name := value)
    case _ => s.(level := value)
  }

  const ProjectKeys := {"id", "name", "description", "technologies", "startDate", "endDate", "url"}

  function ProjectGet(p: Project, key: string): string
    requires key in ProjectKeys
  {
    match key
    case "id" => p.id
    case "name" => p.name
    case "description" => p.description
    case "technologies" => p.technologies
    case "startDate" => p.startDate
    case "endDate" => p.endDate
    case _ => p.url
  }

  function ProjectSet(p: Project, key: string, value: string): (r: Project)
    requires key in ProjectKeys
    ensures forall k :: k in ProjectKeys ==> ProjectGet(r, k) == if k == key then value else ProjectGet(p, k)
  {
    match key
    case "id" => p.(id := value)
    case "name" => p.(name := value)
    case "description" => p.(description := value)
    case "technologies" => p.(technologies := value)
    case "startDate" => p.(startDate := value)
    case "endDate" => p.(endDate := value)
    case _ => p.(url := value)
  }

  const AchievementKeys := {"id", "name", "description", "technologies", "url"}

  function AchievementGet(a: Achievement, key: string): string
    requires key in AchievementKeys
  {
    match key
    case "id" => a.id
    case "name" => a.name
    case "description" => a.description
    case "technologies" => a.technologies
    case _ => a.url
  }

  function AchievementSet(a: Achievement, key: string, value: string): (r: Achievement)
    requires key in AchievementKeys
    ensures forall k :: k in AchievementKeys ==> AchievementGet(r, k) == if k == key then value else AchievementGet(a, k)
  {
    match key
    case "id" => a.(id := value)
    case "name" => a.(name := value)
    case "description" => a.(description := value)
    case "technologies" => a.(technologies := value)
    case _ => a.(url := value)
  }

  // ---------------------------------------------------------------------------
  // The change handlers: one field of one entry, nothing else.

  function PersonalInfoChange(d: ResumeData, name: string, value: string): (r: ResumeData)
    requires name in PersonalKeys
    ensures r.personalInfo == PersonalSet(d.personalInfo, name, value)
    ensures r.(personalInfo := d.personalInfo) == d
  {
    d.(personalInfo := PersonalSet(d.personalInfo, name, value))
  }

  function ExperienceChange(d: ResumeData, index: nat, field: string, value: string): (r: ResumeData)
    requires index < |d.experience| && field in ExperienceKeys
    ensures |r.experience| == |d.experience|
    ensures r.experience[index] == ExperienceSet(d.experience[index], field, value)
    ensures forall j :: 0 <= j < |d.experience| && j != index ==> r.experience[j] == d.experience[j]
    ensures r.(experience := d.experience) == d
  {
    d.(experience := ChangeAt(d.experience, index, e => ExperienceSet(e, field, value)))
  }

  function EducationChange(d: ResumeData, index: nat, field: string, value: string): (r: ResumeData)
    requires index < |d.education| && field in EducationKeys
    ensures |r.education| == |d.education|
    ensures r.education[index] == EducationSet(d.education[index], field, value)
    ensures forall j :: 0 <= j < |d.education| && j != index ==> r.education[j] == d.education[j]
    ensures r.(education := d.education) == d
  {
    d.(education := ChangeAt(d.education, index, e => EducationSet(e, field, value)))
  }

  function SkillChange(d: ResumeData, index: nat, field: string, value: string): (r: ResumeData)
    requires index < |d.skills| && field in SkillKeys
    ensures |r.skills| == |d.skills|
    ensures r.skills[index] == SkillSet(d.skills[index], field, value)
    ensures forall j :: 0 <= j < |d.skills| && j != index ==> r.skills[j] == d.skills[j]
    ensures r.(skills := d.skills) == d
  {
    d.(skills := ChangeAt(d.skills, index, s => SkillSet(s, field, value)))
  }

  function ProjectChange(d: ResumeData, index: nat, field: string, value: string): (r: ResumeData)
    requires index < |d.projects| && field in ProjectKeys
    ensures |r.projects| == |d.projects|
    ensures r.projects[index] == ProjectSet(d.projects[index], field, value)
    ensures forall j :: 0 <= j < |d.projects| && j != index ==> r.projects[j] == d.projects[j]
    ensures r.(projects := d.projects) == d
  {
    d.(projects := ChangeAt(d.projects, index, p => ProjectSet(p, field, value)))
  }

  function AchievementChange(d: ResumeData, index: nat, field: string, value: string): (r: ResumeData)
    requires d.achievements.Some? && index < |d.achievements.value| && field in AchievementKeys
    ensures r.achievements.Some? && |r.achievements.value| == |d.achievements.value|
    ensures r.achievements.value[index] == AchievementSet(d.achievements.value[index], field, value)
    ensures forall j :: 0 <= j < |d.achievements.value| && j != index ==>
      r.achievements.value[j] == d.achievements.value[j]
    ensures r.(achievements := d.achievements) == d
  {
    d.(achievements := Some(ChangeAt(d.achievements.value, index, a => AchievementSet(a, field, value))))
  }

  // ---------------------------------------------------------------------------
  // The add handlers: one blank entry at the end.

  function AddExperience(d: ResumeData, now: nat): (r: ResumeData)
    ensures |r.experience| == |d.experience| + 1 && r.experience[..|d.experience|] == d.experience
    ensures r.experience[|d.experience|] == Experience("exp-" + NatToString(now), "", "", "", "", "", "")
    ensures r.(experience := d.experience) == d
  {
    var r := d.(experience := d.experience + [Experience("exp-" + NatToString(now), "", "", "", "", "", "")]);
    assert r.experience[..|d.experience|] == d.experience;
    r
  }

  function AddEducation(d: ResumeData, now: nat): (r: ResumeData)
    ensures |r.education| == |d.education| + 1 && r.education[..|d.education|] == d.education
    ensures r.education[|d.education|] == Education("edu-" + NatToString(now), "", "", "", "", "", "")
    ensures r.(education := d.education) == d
  {
    var r := d.(education := d.education + [Education("edu-" + NatToString(now), "", "", "", "", "", "")]);
    assert r.education[..|d.education|] == d.education;
    r
  }

  /** A new skill starts at level 50. */
  function AddSkill(d: ResumeData, now: nat): (r: ResumeData)
    ensures |r.skills| == |d.skills| + 1 && r.skills[..|d.skills|] == d.skills
    ensures r.skills[|d.skills|] == Skill("skill-" + NatToString(now), "", "50")
    ensures r.(skills := d.skills) == d
  {
    var r := d.(skills := d.skills + [Skill("skill-" + NatToString(now), "", "50")]);
    assert r.skills[..|d.skills|] == d.skills;
    r
  }

  function AddProject(d: ResumeData, now: nat): (r: ResumeData)
    ensures |r.projects| == |d.projects| + 1 && r.projects[..|d.projects|] == d.projects
    ensures r.projects[|d.projects|] == Project("project-" + NatToString(now), "", "", "", "", "", "")
    ensures r.(projects := d.projects) == d
  {
    var r := d.(projects := d.projects + [Project("project-" + NatToString(now), "", "", "", "", "", "")]);
    assert r.projects[..|d.projects|] == d.projects;
    r
  }

  function AddAchievement(d: ResumeData, now: nat): (r: ResumeData)
    requires d.achievements.Some?
    ensures r.achievements.Some? && |r.achievements.value| == |d.achievements.value| + 1
    ensures r.achievements.value[..|d.achievements.value|] == d.achievements.value
    ensures r.achievements.value[|d.achievements.value|] == Achievement("achievement-" + NatToString(now), "", "", "", "")
    ensures r.(achievements := d.achievements) == d
  {
    var xs := d.achievements.value;
    var r := d.(achievements := Some(xs + [Achievement("achievement-" + NatToString(now), "", "", "", "")]));
    assert r.achievements.value[..|xs|] == xs;
    r
  }

  // ---------------------------------------------------------------------------
  // The remove handlers: `None` when the list has a single entry.

  function RemoveExperience(d: ResumeData, index: nat): (r: Option<ResumeData>)
    ensures r.None? <==> |d.experience| == 1
    ensures r.Some? ==> r.value.(experience := d.experience) == d
    ensures r.Some? && index < |d.experience| ==> r.value.experience == d.experience[..index] + d.experience[index + 1..]
    ensures r.Some? && index >= |d.experience| ==> r.value == d
    ensures |d.experience| >= 1 && r.Some? ==> |r.value.experience| >= 1
  {
    match RemoveAt(d.experience, index)
    case None => None
    case Some(xs) =>
      RemoveAtKeepsOne(d.experience, index);
      RemoveAtCases(d.experience, index);
      Some(d.(experience := xs))
  }

  function RemoveEducation(d: ResumeData, index: nat): (r: Option<ResumeData>)
    ensures r.None? <==> |d.education| == 1
    ensures r.Some? ==> r.value.(education := d.education) == d
    ensures r.Some? && index < |d.education| ==> r.value.education == d.education[..index] + d.education[index + 1..]
    ensures r.Some? && index >= |d.education| ==> r.value == d
    ensures |d.education| >= 1 && r.Some? ==> |r.value.education| >= 1
  {
    match RemoveAt(d.education, index)
    case None => None
    case Some(xs) =>
      RemoveAtKeepsOne(d.education, index);
      RemoveAtCases(d.education, index);
      Some(d.(education := xs))
  }

  function RemoveSkill(d: ResumeData, index: nat): (r: Option<ResumeData>)
    ensures r.None? <==> |d.skills| == 1
    ensures r.Some? ==> r.value.(skills := d.skills) == d
    ensures r.Some? && index < |d.skills| ==> r.value.skills == d.skills[..index] + d.skills[index + 1..]
    ensures r.Some? && index >= |d.skills| ==> r.value == d
    ensures |d.skills| >= 1 && r.Some? ==> |r.value.skills| >= 1
  {
    match RemoveAt(d.skills, index)
    case None => None
    case Some(xs) =>
      RemoveAtKeepsOne(d.skills, index);
      RemoveAtCases(d.skills, index);
      Some(d.(skills := xs))
  }

  function RemoveProject(d: ResumeData, index: nat): (r: Option<ResumeData>)
    ensures r.None? <==> |d.projects| == 1
    ensures r.Some? ==> r.value.(projects := d.projects) == d
    ensures r.Some? && index < |d.projects| ==> r.value.projects == d.projects[..index] + d.projects[index + 1..]
    ensures r.Some? && index >= |d.projects| ==> r.value == d
    ensures |d.projects| >= 1 && r.Some? ==> |r.value.projects| >= 1
  {
    match RemoveAt(d.projects, index)
    case None => None
    case Some(xs) =>
      RemoveAtKeepsOne(d.projects, index);
      RemoveAtCases(d.projects, index);
      Some(d.(projects := xs))
  }

  function RemoveAchievement(d: ResumeData, index: nat): (r: Option<ResumeData>)
    requires d.achievements.Some?
    ensures r.None? <==> |d.achievements.value| == 1
    ensures r.Some? ==> r.value.achievements.Some? && r.value.(achievements := d.achievements) == d
    ensures r.Some? && index < |d.achievements.value| ==>
      r.value.achievements.value == d.achievements.value[..index] + d.achievements.value[index + 1..]
    ensures r.Some? && index >= |d.achievements.value| ==> r.value == d
    ensures |d.achievements.value| >= 1 && r.Some? ==> |r.value.achievements.value| >= 1
  {
    var all := d.achievements.value;
    match RemoveAt(all, index)
    case None => None
    case Some(xs) =>
      RemoveAtKeepsOne(all, index);
      RemoveAtCases(all, index);
      Some(d.(achievements := Some(xs)))
  }
}
