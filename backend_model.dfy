/** The back end's stored documents (the `Resume` and `User` documents) and the
    two repositories that hold them, as in-memory maps from id to document.
    A Java `null` is `None`. */
module Model {
  import opened Wrappers

  datatype PersonalInfo = PersonalInfo(
    name: Option<string>, title: Option<string>, email: Option<string>, phone: Option<string>,
    location: Option<string>, summary: Option<string>, linkedin: Option<string>, github: Option<string>)

  datatype Experience = Experience(
    id: Option<string>, title: Option<string>, company: Option<string>, location: Option<string>,
    startDate: Option<string>, endDate: Option<string>, description: Option<string>)

  datatype Education = Education(
    id: Option<string>, degree: Option<string>, school: Option<string>, location: Option<string>,
    startDate: Option<string>, endDate: Option<string>, description: Option<string>)

  datatype Skill = Skill(id: Option<string>, name: Option<string>, level: Option<string>)

  datatype Project = Project(
    id: Option<string>, name: Option<string>, description: Option<string>, technologies: Option<string>,
    startDate: Option<string>, endDate: Option<string>, url: Option<string>)

  datatype Achievement = Achievement(
    id: Option<string>, name: Option<string>, description: Option<string>, technologies: Option<string>,
    url: Option<string>)

  /** A resume document. Every stored resume has an owner: the controllers set
      `userId` before every save. */
  datatype Resume = Resume(
    id: Option<string>, userId: string, name: Option<string>,
    createdAt: Option<string>, updatedAt: Option<string>, template: Option<string>,
    personalInfo: Option<PersonalInfo>,
    experience: Option<seq<Experience>>, education: Option<seq<Education>>, skills: Option<seq<Skill>>,
    projects: Option<seq<Project>>, achievements: Option<seq<Achievement>>)

  /** A user document; the role set may be missing. */
  datatype User = User(id: string, username: string, email: string, password: string, roles: Option<set<string>>)

  /** The HTTP status a controller answers with. */
  datatype Status = Ok | BadRequest | Forbidden | NotFound

  const RoleUser := "ROLE_USER"
  const RoleAdmin := "ROLE_ADMIN"

  predicate IsAdmin(u: User) { u.roles.Some? && RoleAdmin in u.roles.value }

  /** The users collection. */
  class UserRepository {
    var users: map<string, User>

    /** Every user is stored under its own id. */
    predicate Valid()
      reads this
    {
      forall id :: id in users ==> users[id].id == id
    }

    constructor (initial: map<string, User>)
      requires forall id :: id in initial ==> initial[id].id == id
      ensures users == initial
      ensures Valid()
    {
      users := initial;
    }

    /** `existsByUsername`. */
    predicate ExistsByUsername(name: string)
      reads this
    {
      exists id :: id in users && users[id].username == name
    }

    /** `existsByEmail`. */
    predicate ExistsByEmail(email: string)
      reads this
    {
      exists id :: id in users && users[id].email == email
    }

    /** `save`: insert or replace the document with the user's id. */
    method Save(u: User)
      modifies this
      ensures users == old(users)[u.id := u]
    {
      users := users[u.id := u];
    }

    /** `deleteById`. */
    method DeleteById(id: string)
      modifies this
      ensures users == old(users) - {id}
    {
      users := users - {id};
    }
  }

  /** The resumes collection. */
  class ResumeRepository {
    var resumes: map<string, Resume>

    /** Every resume is stored under its own id. */
    predicate Valid()
      reads this
    {
      forall id :: id in resumes ==> resumes[id].id == Some(id)
    }

    constructor (initial: map<string, Resume>)
      requires forall id :: id in initial ==> initial[id].id == Some(id)
      ensures resumes == initial
      ensures Valid()
    {
      resumes := initial;
    }

    /** `save`: a resume without an id is inserted under a fresh one, which the
        caller draws; one with an id replaces whatever is stored under it. */
    method Save(r: Resume, freshId: string) returns (saved: Resume)
      requires r.id.None? ==> freshId !in resumes
      modifies this
      ensures saved == if r.id.Some? then r else r.(id := Some(freshId))
      ensures resumes == old(resumes)[saved.id.value := saved]
    {
      saved := if r.id.Some? then r else r.(id := Some(freshId));
      resumes := resumes[saved.id.value := saved];
    }

    /** `deleteById`. */
    method DeleteById(id: string)
      modifies this
      ensures resumes == old(resumes) - {id}
    {
      resumes := resumes - {id};
    }

    /** `deleteByUserId`: every resume of the user goes. */
    method DeleteByUserId(userId: string)
      modifies this
      ensures resumes == map id | id in old(resumes) && old(resumes)[id].userId != userId :: old(resumes)[id]
    {
      resumes := map id | id in resumes && resumes[id].userId != userId :: resumes[id];
    }
  }
}
