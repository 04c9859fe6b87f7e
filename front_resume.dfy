/** The resume as the browser holds it (the `ResumeData` shape of the
    editor page and the form). Every text field is a plain string: a missing
    or `undefined` field and the empty string are both falsy in the source,
    so both are written "" here. */
module FrontResume {
  import opened Wrappers

  datatype PersonalInfo = PersonalInfo(
    name: string, title: string, email: string, phone: string,
    location: string, summary: string, linkedin: string, github: string)

  datatype Experience = Experience(
    id: string, title: string, company: string, location: string,
    startDate: string, endDate: string, description: string)

  datatype Education = Education(
    id: string, degree: string, school: string, location: string,
    startDate: string, endDate: string, description: string)

  datatype Skill = Skill(id: string, name: string, level: string)

  datatype Project = Project(
    id: string, name: string, description: string, technologies: string,
    startDate: string, endDate: string, url: string)

  datatype Achievement = Achievement(
    id: string, name: string, description: string, technologies: string, url: string)

  /** `achievements` is optional: the editor page builds resumes without it,
      and the form adds it only when it is absent. */
  datatype ResumeData = ResumeData(
    personalInfo: PersonalInfo,
    experience: seq<Experience>,
    education: seq<Education>,
    skills: seq<Skill>,
    projects: seq<Project>,
    achievements: Option<seq<Achievement>>)

  const EmptyPersonalInfo := PersonalInfo("", "", "", "", "", "", "", "")

  const BlankExperience := Experience("1", "", "", "", "", "", "")

  const BlankEducation := Education("1", "", "", "", "", "", "")

  const BlankProject := Project("1", "", "", "", "", "", "")

  const BlankAchievement := Achievement("1", "", "", "", "")
}
