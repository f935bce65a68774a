/** Job postings and the applications embedded in them, and how the
    create and apply handlers build new records from a request body. */
module Jobs {
  import opened Outcomes

  type JobId = string
  type UserId = string
  type AppId = string

  /** The authenticated caller that the login layer attaches to a request. */
  datatype Caller = Caller(id: UserId, name: string)

  /** One candidate's application, embedded in a job's candidate list.
      `status` is free text: the handlers store whatever the client sends.
      `cv` holds the remaining fields of the apply request (the CV payload),
      which the handlers never inspect. */
  datatype Application = Application(
    id: AppId,
    user: UserId,
    name: string,
    status: string,
    cv: map<string, string>)

  /** A job document as the store holds it. */
  datatype Job = Job(
    id: JobId,
    postedBy: UserId,
    status: string,
    title: string,
    position: string,
    field: string,
    salary: string,
    workLocation: string,
    description: string,
    deadlineDate: int,
    numberApplicants: int,
    createdAt: int,
    updatedAt: int,
    candidateList: seq<Application>)

  /** The body of a create request: the descriptive fields, plus the keys a
      client may send that the record also has. */
  datatype JobBody = JobBody(
    title: string,
    position: string,
    field: string,
    salary: string,
    workLocation: string,
    description: string,
    deadlineDate: int,
    numberApplicants: int,
    postedBy: Option<UserId>,
    status: Option<string>,
    candidateList: Option<seq<Application>>)

  /** The status every new job gets. */
  const Opened: string := "opened"

  /** The status every new application gets. */
  const Awaiting: string := "awaiting"

  /** The keys of an apply body that the handler overwrites. */
  const Overridden: set<string> := {"status", "name", "user"}

  /** The job `createNewJob` stores: the body spread first, then `postedBy`
      and `status` written over it, so the body cannot choose either. Keys the
      body does not set keep the store's defaults (an empty candidate list,
      timestamps from the clock). */
  function NewJob(id: JobId, body: JobBody, caller: Caller, now: int): (j: Job)
    ensures j.id == id && j.status == Opened && j.postedBy == caller.id
    ensures j.title == body.title && j.position == body.position && j.field == body.field
    ensures j.salary == body.salary && j.workLocation == body.workLocation
    ensures j.description == body.description && j.deadlineDate == body.deadlineDate
    ensures j.numberApplicants == body.numberApplicants
    ensures j.createdAt == now && j.updatedAt == now
    ensures j.candidateList == if body.candidateList.Some? then body.candidateList.value else []
  {
    Job(id, caller.id, Opened,
        body.title, body.position, body.field, body.salary, body.workLocation,
        body.description, body.deadlineDate, body.numberApplicants, now, now,
        match body.candidateList
        case Some(list) => list
        case None => [])
  }

  /** Whatever the body says about `postedBy` and `status`, the created job is the same. */
  lemma CreateIgnoresOwnerAndStatus(id: JobId, body: JobBody, caller: Caller, now: int,
                                    owner: Option<UserId>, status: Option<string>)
    ensures NewJob(id, body.(postedBy := owner, status := status), caller, now)
         == NewJob(id, body, caller, now)
  {
  }

  /** The entry `applyJobById` pushes: the body spread first, then `status`,
      `name` and `user` written over it from the caller. */
  function NewApplication(id: AppId, caller: Caller, body: map<string, string>): (a: Application)
    ensures a.id == id && a.status == Awaiting
    ensures a.user == caller.id && a.name == caller.name
    ensures a.cv.Keys == body.Keys - Overridden
    ensures forall k | k in a.cv :: a.cv[k] == body[k]
  {
    Application(id, caller.id, caller.name, Awaiting, body - Overridden)
  }
}
