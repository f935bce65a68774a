/** The job handlers over an in-memory job store: a table of job documents
    by id, kept in the order the documents were created. */
module Store {
  import opened Outcomes
  import opened Jobs
  import opened Candidates
  import opened Views
  import opened Pagination
  import opened JobSearch

  /** The documents of `jobs` in the order `order` lists their ids. */
  function InOrder(jobs: map<JobId, Job>, order: seq<JobId>): (docs: seq<Job>)
    requires forall i | 0 <= i < |order| :: order[i] in jobs
    ensures |docs| == |order|
    ensures forall i | 0 <= i < |order| :: docs[i] == jobs[order[i]]
  {
    seq(|order|, i requires 0 <= i < |order| => jobs[order[i]])
  }

  /** A document in store order is the one stored under its own id. */
  lemma StoredDocument(jobs: map<JobId, Job>, order: seq<JobId>, j: Job)
    requires forall k | k in jobs :: jobs[k].id == k
    requires forall i | 0 <= i < |order| :: order[i] in jobs
    requires j in InOrder(jobs, order)
    ensures j.id in jobs && jobs[j.id] == j
  {
    var docs := InOrder(jobs, order);
    var d :| 0 <= d < |docs| && docs[d] == j;
    assert jobs[order[d]] == j;
  }

  /** Projects every document to its listing view. */
  function ListViews(docs: seq<Job>): (r: seq<ListView>)
    ensures |r| == |docs|
    ensures forall i | 0 <= i < |docs| :: r[i] == ToListView(docs[i])
  {
    seq(|docs|, i requires 0 <= i < |docs| => ToListView(docs[i]))
  }

  /** `currentPage: page`: the raw parameter, or `undefined` when absent. */
  function Echo(page: Option<string>): (r: PageField)
    ensures r.Missing? <==> page.None?
    ensures page.Some? ==> r == Raw(page.value)
  {
    match page
    case None => Missing
    case Some(s) => Raw(s)
  }

  class JobStore {
    /** The job documents, by id. */
    var jobs: map<JobId, Job>
    /** Every id once, in creation order, which stands in for the order an unsorted find returns. */
    var order: seq<JobId>

    ghost predicate Valid()
      reads this
    {
      && (forall k | k in jobs :: jobs[k].id == k)
      && (forall i | 0 <= i < |order| :: order[i] in jobs)
      && (forall k | k in jobs :: k in order)
      && (forall i, j | 0 <= i < j < |order| :: order[i] != order[j])
    }

    /** The stored documents in store order. */
    function Documents(): seq<Job>
      reads this
      requires Valid()
    {
      InOrder(jobs, order)
    }

    constructor ()
      ensures Valid() && jobs == map[] && order == []
    {
      jobs := map[];
      order := [];
    }

    /** `createNewJob`: stores a new job under the fresh id the store assigns. */
    method CreateNewJob(id: JobId, body: JobBody, caller: Caller, now: int) returns (job: Job)
      requires Valid()
      requires id !in jobs
      modifies this
      ensures Valid()
      ensures job == NewJob(id, body, caller, now)
      ensures job.status == Opened && job.postedBy == caller.id
      ensures jobs == old(jobs)[id := job] && order == old(order) + [id]
    {
      job := NewJob(id, body, caller, now);
      jobs := jobs[id := job];
      order := order + [id];
    }

    /** `applyJobById`: appends the caller's application to the job's
        candidate list, or fails with "Job Not Found" and changes nothing. */
    method ApplyJobById(jobId: JobId, appId: AppId, caller: Caller, body: map<string, string>)
      returns (r: Result<()>)
      requires Valid()
      modifies this
      ensures Valid() && order == old(order)
      ensures jobId !in old(jobs) ==> r == Failure(JobNotFound) && jobs == old(jobs)
      ensures jobId in old(jobs) ==>
        r == Success(()) &&
        jobs == old(jobs)[jobId := Append(old(jobs)[jobId], NewApplication(appId, caller, body))]
    {
      if jobId !in jobs {
        return Failure(JobNotFound);
      }
      var job := jobs[jobId];
      job := Append(job, NewApplication(appId, caller, body));
      jobs := jobs[jobId := job];
      r := Success(());
    }

    /** `handleApplication`: overwrites the status of the first entry whose id
        is `index`. A missing job or a missing entry throws and changes nothing. */
    method HandleApplication(jobId: JobId, index: AppId, newStatus: string) returns (r: Result<()>)
      requires Valid()
      modifies this
      ensures Valid() && order == old(order)
      ensures r.Failure? ==> r.error == TypeError && jobs == old(jobs)
      ensures r.Success? <==>
        jobId in old(jobs) &&
        exists k | 0 <= k < |old(jobs)[jobId].candidateList| :: old(jobs)[jobId].candidateList[k].id == index
      ensures r.Success? ==>
        var list := old(jobs)[jobId].candidateList;
        exists i | 0 <= i < |list| ::
          && list[i].id == index
          && (forall k | 0 <= k < i :: list[k].id != index)
          && jobs == old(jobs)[jobId := SetStatus(old(jobs)[jobId], i, newStatus)]
    {
      if jobId !in jobs {
        return Failure(TypeError);
      }
      var job := jobs[jobId];
      var i := FindIndex(job.candidateList, index);
      if i < 0 {
        return Failure(TypeError);
      }
      job := SetStatus(job, i, newStatus);
      jobs := jobs[jobId := job];
      r := Success(());
    }

    /** `getCandidateList`: the job's candidate list as stored, or the
        "Can not find job" failure. */
    method GetCandidateList(jobId: JobId) returns (r: Result<seq<Application>>)
      ensures r.Failure? <==> jobId !in jobs
      ensures r.Failure? ==> r.error == JobNotFound
      ensures jobId in jobs ==> r == Success(jobs[jobId].candidateList)
    {
      if jobId !in jobs {
        return Failure(JobNotFound);
      }
      r := Success(jobs[jobId].candidateList);
    }

    /** `getJobById` with the job tested before it is read. */
    method GetJobById(jobId: JobId, viewer: Option<UserId>) returns (r: Result<DetailView>)
      ensures r.Failure? <==> jobId !in jobs
      ensures r.Failure? ==> r.error == JobNotFound
      ensures jobId in jobs ==> r.Success? && r.value == ToDetailView(jobs[jobId], viewer)
    {
      var found := if jobId in jobs then Some(jobs[jobId]) else None;
      r := Detail(found, viewer);
    }

    /** `getJobList`: one page of the documents the filter selects, as
        listing views, with the pagination object. */
    method GetJobList(filter: Job -> bool, page: Option<string>, skip: Option<nat>, limit: Option<nat>)
      returns (r: Listing<ListView>)
      requires Valid()
      ensures r == Paginate(ListViews(Where(Documents(), Arbitrary(filter))), Echo(page),
                            OrDefault(skip, DefaultSkip), OrDefault(limit, DefaultLimit))
      ensures r.pagination.matchingResults == |Where(Documents(), Arbitrary(filter))|
      ensures limit.None? ==> r.pagination.pageSize == 10 && r.pagination.returnedResults <= 10
      ensures limit.Some? && limit.value > 0 ==> r.pagination.returnedResults <= limit.value
    {
      var s, l := OrDefault(skip, DefaultSkip), OrDefault(limit, DefaultLimit);
      var matches := Where(Documents(), Arbitrary(filter));
      r := Paginate(ListViews(matches), Echo(page), s, l);
      if l > 0 {
        PageWithinLimit(ListViews(matches), s, l);
      }
    }

    /** `getPostedJobsByCurrentUser`: one page of the caller's own jobs, in
        full, with `currentPage` coerced to a number. */
    method GetPostedJobsByCurrentUser(caller: UserId, page: Option<string>, skip: Option<nat>, limit: Option<nat>)
      returns (r: Listing<Job>)
      requires Valid()
      ensures r == Paginate(Where(Documents(), ByOwner(caller)), Coerce(page),
                            OrDefault(skip, DefaultSkip), OrDefault(limit, DefaultLimit))
      ensures limit.None? ==> r.pagination.pageSize == 10 && r.pagination.returnedResults <= 10
      ensures forall j | j in r.data :: j.postedBy == caller && j.id in jobs && jobs[j.id] == j
      ensures r.pagination.currentPage.Number? || r.pagination.currentPage.NotANumber?
    {
      var s, l := OrDefault(skip, DefaultSkip), OrDefault(limit, DefaultLimit);
      var matches := Where(Documents(), ByOwner(caller));
      r := Paginate(matches, Coerce(page), s, l);
      if limit.None? {
        PageWithinLimit(matches, s, l);
      }
      forall j | j in r.data
        ensures j.postedBy == caller && j.id in jobs && jobs[j.id] == j
      {
        PageOfMember(matches, s, l, j);
        StoredDocument(jobs, order, j);
      }
    }

    /** `getJobWithFilter`: builds the conditions from the query, selects the
        documents that meet them, projects them and orders them as `sort` asks. */
    method GetJobWithFilter(q: Query) returns (results: seq<PublicView>)
      requires Valid()
      ensures results == Search(Documents(), q)
    {
      var conds := BuildConditions(q);
      var docs := Documents();
      var found := Where(docs, ByConditions(conds));
      WhereAgrees(docs, ByConditions(conds), ByQuery(q));
      var views := PublicViews(found);
      match SortKeyOf(q.sort)
      case Some(k) => results := SortDesc(views, k);
      case None => results := views;
    }
  }
}
