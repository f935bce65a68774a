/** The field-stripped views of a job that the handlers return, and the
    single-job detail view with its derived `isApplied` flag. */
module Views {
  import opened Outcomes
  import opened Jobs
  import opened Candidates

  /** A job as the plain listing returns it (`select('-status -candidateList')`). */
  datatype ListView = ListView(
    id: JobId, postedBy: UserId,
    title: string, position: string, field: string, salary: string,
    workLocation: string, description: string,
    deadlineDate: int, numberApplicants: int, createdAt: int, updatedAt: int)

  /** A job as the search returns it (`select('-status -postedBy -candidateList')`). */
  datatype PublicView = PublicView(
    id: JobId,
    title: string, position: string, field: string, salary: string,
    workLocation: string, description: string,
    deadlineDate: int, numberApplicants: int, createdAt: int, updatedAt: int)

  /** The object `getJobById` builds: the listed fields plus `isApplied`. */
  datatype DetailView = DetailView(
    id: JobId,
    title: string, deadlineDate: int, field: string, salary: string,
    workLocation: string, position: string, numberApplicants: int,
    description: string, createdAt: int, updatedAt: int,
    isApplied: bool)

  /** The job a list view came from, given the fields the view dropped. */
  function FromListView(v: ListView, status: string, list: seq<Application>): Job
  {
    Job(v.id, v.postedBy, status, v.title, v.position, v.field, v.salary, v.workLocation,
        v.description, v.deadlineDate, v.numberApplicants, v.createdAt, v.updatedAt, list)
  }

  /** The job a public view came from, given the fields the view dropped. */
  function FromPublicView(v: PublicView, postedBy: UserId, status: string, list: seq<Application>): Job
  {
    Job(v.id, postedBy, status, v.title, v.position, v.field, v.salary, v.workLocation,
        v.description, v.deadlineDate, v.numberApplicants, v.createdAt, v.updatedAt, list)
  }

  /** The listing view drops exactly `status` and `candidateList`. */
  function ToListView(j: Job): (v: ListView)
    ensures FromListView(v, j.status, j.candidateList) == j
  {
    ListView(j.id, j.postedBy, j.title, j.position, j.field, j.salary, j.workLocation,
             j.description, j.deadlineDate, j.numberApplicants, j.createdAt, j.updatedAt)
  }

  /** The search view drops exactly `status`, `postedBy` and `candidateList`. */
  function ToPublicView(j: Job): (v: PublicView)
    ensures FromPublicView(v, j.postedBy, j.status, j.candidateList) == j
  {
    PublicView(j.id, j.title, j.position, j.field, j.salary, j.workLocation,
               j.description, j.deadlineDate, j.numberApplicants, j.createdAt, j.updatedAt)
  }

  /** The detail view: the descriptive fields of the job (no `status`, no
      `postedBy`, no `candidateList`), and `isApplied` true exactly when the
      viewer owns some entry of the candidate list. */
  function ToDetailView(j: Job, viewer: Option<UserId>): (v: DetailView)
    ensures v.isApplied <==> viewer.Some? && exists k | 0 <= k < |j.candidateList| :: j.candidateList[k].user == viewer.value
    ensures FromPublicView(PublicView(v.id, v.title, v.position, v.field, v.salary, v.workLocation,
                                      v.description, v.deadlineDate, v.numberApplicants,
                                      v.createdAt, v.updatedAt),
                           j.postedBy, j.status, j.candidateList) == j
  {
    DetailView(j.id, j.title, j.deadlineDate, j.field, j.salary, j.workLocation, j.position,
               j.numberApplicants, j.description, j.createdAt, j.updatedAt,
               IsApplied(j.candidateList, viewer))
  }

  /** A request that carries no viewer id never counts as applied. */
  lemma NoViewerNotApplied(j: Job)
    ensures !ToDetailView(j, None).isApplied
  {
  }

  /** `getJobById` as written: it reads `job.candidateList` before testing
      `job`, so a missing job throws before the 404 branch is reached. */
  function DetailAsWritten(found: Option<Job>, viewer: Option<UserId>): (r: Result<DetailView>)
    ensures found.None? ==> r == Failure(TypeError)
    ensures found.Some? ==> r == Success(ToDetailView(found.value, viewer))
  {
    if found.None? then Failure(TypeError)
    else Success(ToDetailView(found.value, viewer))
  }

  /** The as-written handler never reaches its "Job Not Found" answer. */
  lemma DetailNotFoundUnreachable(viewer: Option<UserId>)
    ensures DetailAsWritten(None, viewer) == Failure(TypeError)
    ensures forall found: Option<Job> :: DetailAsWritten(found, viewer) != Failure(JobNotFound)
  {
  }

  /** `getJobById` with the job tested before it is read: a missing job is a
      404 "Job Not Found", and a found job gives its detail view. */
  function Detail(found: Option<Job>, viewer: Option<UserId>): (r: Result<DetailView>)
    ensures r.Failure? <==> found.None?
    ensures r.Failure? ==> r.error == JobNotFound
    ensures found.Some? ==> r == Success(ToDetailView(found.value, viewer))
  {
    match found
    case None => Failure(JobNotFound)
    case Some(j) => Success(ToDetailView(j, viewer))
  }

  /** The two versions agree on every found job and differ only on a missing one. */
  lemma DetailCorrectsMissingJob(found: Option<Job>, viewer: Option<UserId>)
    ensures found.Some? ==> Detail(found, viewer) == DetailAsWritten(found, viewer)
    ensures found.None? ==> Detail(found, viewer) == Failure(JobNotFound) != DetailAsWritten(found, viewer)
  {
  }
}
