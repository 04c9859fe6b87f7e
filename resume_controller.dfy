/** The resume endpoints of the back end: every read, update and delete is
    checked against the caller's id; the clock is a parameter. */
module ResumeController {
  import opened Wrappers
  import opened Model

  /** `getAllResumes`: the caller's resumes, keyed by id. */
  method GetAllResumes(repo: ResumeRepository, caller: string) returns (r: map<string, Resume>)
    ensures forall id :: id in r <==> id in repo.resumes && repo.resumes[id].userId == caller
    ensures forall id :: id in r ==> r[id] == repo.resumes[id]
  {
    r := map id | id in repo.resumes && repo.resumes[id].userId == caller :: repo.resumes[id];
  }

  /** `getResumeById`: 404 for an unknown id, 403 for someone else's resume. */
  method GetResumeById(repo: ResumeRepository, caller: string, id: string) returns (status: Status, body: Option<Resume>)
    ensures id !in repo.resumes ==> status == NotFound && body.None?
    ensures id in repo.resumes && repo.resumes[id].userId != caller ==> status == Forbidden && body.None?
    ensures id in repo.resumes && repo.resumes[id].userId == caller ==> status == Ok && body == Some(repo.resumes[id])
  {
    if id in repo.resumes {
      var resume := repo.resumes[id];
      if resume.userId != caller {
        return Forbidden, None;
      }
      return Ok, Some(resume);
    }
    return NotFound, None;
  }

  /** A missing or empty template becomes "default". */
  function TemplateOrDefault(t: Option<string>): (r: Option<string>)
    ensures r.Some? && r.value != ""
    ensures t.Some? && t.value != "" ==> r == t
  {
    if t.None? || t.value == "" then Some("default") else t
  }

  /** What `createResume` saves: the body owned by the caller, created and
      updated now, with a template. */
  function Stamped(resume: Resume, caller: string, now: string): (r: Resume)
    ensures r.userId == caller && r.createdAt == Some(now) && r.updatedAt == Some(now)
    ensures r.template == TemplateOrDefault(resume.template)
    ensures r.(userId := resume.userId, createdAt := resume.createdAt, updatedAt := resume.updatedAt,
               template := resume.template) == resume
  {
    resume.(userId := caller, createdAt := Some(now), updatedAt := Some(now),
            template := TemplateOrDefault(resume.template))
  }

  /** `createResume` as written: the body is saved as it came, so an `id`
      sent by the client replaces whatever is stored under it. */
  method CreateResume(repo: ResumeRepository, caller: string, resume: Resume, now: string, freshId: string)
    returns (saved: Resume)
    requires resume.id.None? ==> freshId !in repo.resumes
    modifies repo
    ensures saved == (var s := Stamped(resume, caller, now); if s.id.Some? then s else s.(id := Some(freshId)))
    ensures repo.resumes == old(repo.resumes)[saved.id.value := saved]
    ensures repo.resumes == CreatedAsWritten(old(repo.resumes), caller, resume, now, freshId)
  {
    var stamped := Stamped(resume, caller, now);
    saved := repo.Save(stamped, freshId);
  }

  /** The store after `createResume` as written. */
  function CreatedAsWritten(store: map<string, Resume>, caller: string, resume: Resume, now: string,
                            freshId: string): map<string, Resume>
  {
    var s := Stamped(resume, caller, now);
    var saved := if s.id.Some? then s else s.(id := Some(freshId));
    store[saved.id.value := saved]
  }

  /** A create whose body names the id of another user's resume takes that
      resume over: alice's resume "r1" ends up owned by bob. */
  lemma CreateTakesOverForeignResume()
    ensures var alice := Resume(Some("r1"), "alice", Some("CV"), None, None, None, None,
                                None, None, None, None, None);
      var store := map["r1" := alice];
      var bob := alice.(userId := "bob", name := Some("mine"));
      var after := CreatedAsWritten(store, "bob", bob, "t", "fresh");
      && store["r1"].userId == "alice"
      && "r1" in after && after["r1"].userId == "bob"
      && after.Keys == store.Keys
  {
  }

  /** `createResume` with the client's id ignored: the resume always goes
      under a fresh id. */
  method CreateResumeFresh(repo: ResumeRepository, caller: string, resume: Resume, now: string, freshId: string)
    returns (saved: Resume)
    requires freshId !in repo.resumes
    modifies repo
    ensures saved == Stamped(resume, caller, now).(id := Some(freshId))
    ensures repo.resumes == old(repo.resumes)[freshId := saved]
    ensures repo.resumes == CreatedFresh(old(repo.resumes), caller, resume, now, freshId)
  {
    var stamped := Stamped(resume, caller, now).(id := None);
    saved := repo.Save(stamped, freshId);
  }

  /** The store after the corrected create. */
  function CreatedFresh(store: map<string, Resume>, caller: string, resume: Resume, now: string,
                        freshId: string): map<string, Resume>
  {
    store[freshId := Stamped(resume, caller, now).(id := Some(freshId))]
  }

  /** The corrected create adds exactly one resume, owned by the caller, and
      leaves every stored resume as it was. */
  lemma CreateFreshKeepsOthers(store: map<string, Resume>, caller: string, resume: Resume, now: string,
                               freshId: string)
    requires freshId !in store
    ensures var after := CreatedFresh(store, caller, resume, now, freshId);
      && after.Keys == store.Keys + {freshId}
      && after[freshId].userId == caller
      && forall id :: id in store ==> after[id] == store[id]
  {
  }

  /** What `updateResume` saves: the content of the body, with the stored
      resume's id, owner and creation time, updated now. The body's template
      is taken as it is, with no default. */
  function Updated(existing: Resume, body: Resume, now: string): (r: Resume)
    ensures r.id == existing.id && r.userId == existing.userId && r.createdAt == existing.createdAt
    ensures r.updatedAt == Some(now)
    ensures r.(id := body.id, userId := body.userId, createdAt := body.createdAt,
               updatedAt := body.updatedAt) == body
  {
    existing.(name := body.name, personalInfo := body.personalInfo, experience := body.experience,
              education := body.education, skills := body.skills, projects := body.projects,
              achievements := body.achievements, template := body.template, updatedAt := Some(now))
  }

  /** `updateResume`: 404 and 403 leave the store as it was; otherwise only
      the resume under `id` changes. */
  method UpdateResume(repo: ResumeRepository, caller: string, id: string, body: Resume, now: string)
    returns (status: Status, updated: Option<Resume>)
    requires repo.Valid()
    modifies repo
    ensures repo.Valid()
    ensures id !in old(repo.resumes) ==> status == NotFound && repo.resumes == old(repo.resumes)
    ensures id in old(repo.resumes) && old(repo.resumes)[id].userId != caller ==>
              status == Forbidden && repo.resumes == old(repo.resumes)
    ensures id in old(repo.resumes) && old(repo.resumes)[id].userId == caller ==>
              && status == Ok
              && updated == Some(Updated(old(repo.resumes)[id], body, now))
              && repo.resumes == old(repo.resumes)[id := updated.value]
  {
    if id !in repo.resumes {
      return NotFound, None;
    }
    var existing := repo.resumes[id];
    if existing.userId != caller {
      return Forbidden, None;
    }
    var saved := repo.Save(Updated(existing, body, now), id);
    return Ok, Some(saved);
  }

  /** `deleteResume`: 404 and 403 leave the store as it was; otherwise exactly
      the resume under `id` goes. */
  method DeleteResume(repo: ResumeRepository, caller: string, id: string) returns (status: Status)
    modifies repo
    ensures id !in old(repo.resumes) ==> status == NotFound && repo.resumes == old(repo.resumes)
    ensures id in old(repo.resumes) && old(repo.resumes)[id].userId != caller ==>
              status == Forbidden && repo.resumes == old(repo.resumes)
    ensures id in old(repo.resumes) && old(repo.resumes)[id].userId == caller ==>
              status == Ok && repo.resumes == old(repo.resumes) - {id}
  {
    if id !in repo.resumes {
      return NotFound;
    }
    if repo.resumes[id].userId != caller {
      return Forbidden;
    }
    repo.DeleteById(id);
    return Ok;
  }
}
