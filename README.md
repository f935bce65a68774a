# Job board: job and application bookkeeping

A Dafny model of the job controller of a job-board server
(`server/src/controllers/job.controller.js`). Employers post jobs; candidates
apply to a job, which appends an application to the job's embedded candidate
list; employers then set each application's status. Jobs are listed with
pagination, searched by title/position/field with an optional descending sort,
and shown through field-stripped views.

The database is replaced by a `JobStore` class that holds a `map` from job id
to job document plus the ids in creation order (which stands in for the order an
unsorted find returns). Each handler is a method or a function over that state:

- `outcomes.dfy` (`Outcomes`): `Option`, the error tags (`JobNotFound` for the
  404 answers, `TypeError` for a handler that reads a property of `null`), `Result`.
- `jobs.dfy` (`Jobs`): the `Job` and `Application` records and how create and
  apply build them from a request body (the body is spread first, then the
  owner, status, name and user are written over it).
- `candidates.dfy` (`Candidates`): append, `findIndex` as a loop, the in-place
  status write, `isApplied`, and lemmas relating them.
- `views.dfy` (`Views`): the listing, search and detail projections.
- `text.dfy` (`Text`): ASCII case-insensitive substring matching.
- `pagination.dfy` (`Pagination`): page count, page slice, `currentPage` coercion.
- `search.dfy` (`JobSearch`): search conditions, filters, descending sort.
- `store.dfy` (`Store`): the `JobStore` class and the handlers.

Fresh ids (of a job, of an application) and the clock are parameters.

Behaviours of the code a reader might not expect:
- Applying twice is not rejected: there is no duplicate check
  (`Candidates.ApplyTwiceKeepsBoth`).
- A `candidateList` sent in the create body is kept (`Jobs.NewJob`); only
  `postedBy` and `status` are overridden.
- The plain listing drops only `status` and `candidateList`, so it shows `postedBy` (`Views.ToListView`).
- Nobody checks that the caller owns the job before listing its candidates or
  changing an application's status.
- Statuses are free text: any string is stored, and any status may follow any other.
- `handleApplication` has no not-found branch: a missing job or a missing
  entry throws (`TypeError`) and nothing changes.
- The plain listing echoes `page` raw, while the posted-by-me listing applies unary `+`.

## Model

| member | source | states |
|---|---|---|
| `Jobs.NewJob` | server/src/controllers/job.controller.js:84-89 | a created job has status "opened", is owned by the caller, has the body's descriptive fields, the store's timestamps, and the body's candidate list or an empty one |
| `Jobs.CreateIgnoresOwnerAndStatus` | server/src/controllers/job.controller.js:85-89 | whatever `postedBy` and `status` the body carries, the created job is the same |
| `Jobs.NewApplication` | server/src/controllers/job.controller.js:117-122 | a new entry has status "awaiting", the caller's id and name, and every other body field unchanged |
| `Candidates.Append` | server/src/controllers/job.controller.js:117 | the push adds exactly one entry at the end; earlier entries and all other job fields are unchanged |
| `Candidates.FindIndex` | server/src/controllers/job.controller.js:151-153 | returns the first position whose id equals the given index, or -1 exactly when no entry has that id |
| `Candidates.SetStatus` | server/src/controllers/job.controller.js:154 | only the chosen entry's status changes; the list length, every other entry and every other job field are unchanged |
| `Candidates.IsApplied` | server/src/controllers/job.controller.js:44-46 | the `some` test: false without a viewer id, true whenever some entry's user is the viewer |
| `Candidates.AppliedIffCounted` | server/src/controllers/job.controller.js:44-46 | a user has applied exactly when at least one candidate entry is theirs |
| `Candidates.CountByAppend` | server/src/controllers/job.controller.js:117 | appending an entry adds one to its user's entry count and nothing to any other user's |
| `Candidates.ApplyDecidesIsApplied` | server/src/controllers/job.controller.js:44-46 | after an apply, `isApplied` holds for the applicant, and for every other viewer it is what it was before |
| `Candidates.ApplyTwiceKeepsBoth` | server/src/controllers/job.controller.js:113-123 | two applies by the same user leave two entries of that user |
| `Candidates.SetStatusKeepsApplicants` | server/src/controllers/job.controller.js:150-155 | a status change alters no user's entry count and no user's `isApplied` |
| `Views.ToListView` | server/src/controllers/job.controller.js:25-28 | the listing view drops exactly `status` and `candidateList` |
| `Views.ToPublicView` | server/src/controllers/job.controller.js:190-192 | the search view drops exactly `status`, `postedBy` and `candidateList` |
| `Views.ToDetailView` | server/src/controllers/job.controller.js:43-75 | the detail view carries the job's descriptive fields only, and `isApplied` holds iff the viewer owns some candidate entry |
| `Views.DetailAsWritten` | server/src/controllers/job.controller.js:42-82 | as written: a missing job throws a TypeError; a found job gives its detail view |
| `Views.DetailNotFoundUnreachable` | server/src/controllers/job.controller.js:77-82 | as written, the "Job Not Found" answer is never produced |
| `Views.Detail` | server/src/controllers/job.controller.js:77-82 | corrected: the result fails exactly when the job is missing, and then with "Job Not Found" |
| `Views.NoViewerNotApplied` | server/src/controllers/job.controller.js:44-46 | a request without a viewer id gets `isApplied` false for every job |
| `Views.DetailCorrectsMissingJob` | server/src/controllers/job.controller.js:42-82 | the corrected and as-written versions agree on found jobs and differ only on missing ones |
| `Text.ContainsCI` | server/src/controllers/job.controller.js:169-175 | a case-insensitive `$regex` match of a literal term: the term occurs somewhere in the field ignoring ASCII case; an empty term occurs everywhere, a longer term than the field nowhere |
| `Text.ContainsCIIgnoresCase` | server/src/controllers/job.controller.js:168-176 | the case of the search term and of the field never changes whether the field matches |
| `Text.EngineerExample` | server/src/controllers/job.controller.js:168-170 | "engineer" matches "Software Engineer" and "ENGINEER II" but not "Designer" |
| `Pagination.TotalPages` | server/src/controllers/job.controller.js:23 | the page count is the ceiling of matches over limit (the least count whose pages hold every match), and null for limit 0 |
| `Pagination.TotalPagesUnique` | server/src/controllers/job.controller.js:209 | any page count satisfying the ceiling bounds is the one computed |
| `Pagination.PageOf` | server/src/controllers/job.controller.js:25-27 | the page is the run of matches starting at `skip`, `limit` long or cut at the end, empty past the end, unlimited for limit 0 |
| `Pagination.PageWithinLimit` | server/src/controllers/job.controller.js:36 | `returnedResults` never exceeds a positive limit |
| `Pagination.PagesCoverMatches` | server/src/controllers/job.controller.js:22-28 | walking pages 0 to `totalPages - 1` returns every match exactly once, in order |
| `Pagination.TwentyThreeByTen` | server/src/controllers/job.controller.js:22-36 | 23 matches at limit 10 make 3 pages, the third holding 3 |
| `Pagination.Coerce` | server/src/controllers/job.controller.js:223 | `+page` is always a number or NaN, never the raw string; a digit string gives its decimal value |
| `Pagination.OrDefault` | server/src/controllers/job.controller.js:20 | an absent `skip` or `limit` takes its default (0 and 10), a sent one is used as is |
| `Pagination.CoerceDigits` | server/src/controllers/job.controller.js:223 | asking for page n written in decimal echoes n (in JavaScript only for n up to 2^53) |
| `Pagination.Paginate` | server/src/controllers/job.controller.js:29-38 | the pagination object counts all matches, the page count, the echo of page and limit, and the length of the returned page |
| `JobSearch.Present` | server/src/controllers/job.controller.js:168-177 | JavaScript truthiness of a query parameter: absent and empty are false, any non-empty string is true |
| `JobSearch.BuildConditions` | server/src/controllers/job.controller.js:164-176 | one condition per truthy title/position/field parameter, and a job meets them all iff it matches the query |
| `JobSearch.Where` | server/src/controllers/job.controller.js:179 | a filtered find returns exactly the stored documents the filter holds of, each as often as it is stored (so its length is what `countDocuments` counts) |
| `JobSearch.WhereAgrees` | server/src/controllers/job.controller.js:164-179 | filters that hold of the same jobs select the same documents in the same order |
| `JobSearch.SortDesc` | server/src/controllers/job.controller.js:181 | the sort returns a permutation of its input, non-increasing by the key |
| `JobSearch.SortKeyOf` | server/src/controllers/job.controller.js:177-183 | "new" selects `createdAt`, "most-expired" selects `deadlineDate` |
| `JobSearch.SearchAsWritten` | server/src/controllers/job.controller.js:177-194 | as written: no response is sent exactly when `sort` is truthy and neither "new" nor "most-expired" |
| `JobSearch.UnknownSortUnanswered` | server/src/controllers/job.controller.js:177-188 | `sort=oldest` leaves the request unanswered |
| `JobSearch.Search` | server/src/controllers/job.controller.js:160-194 | corrected: the results are a permutation of the search views of the matching documents, sorted by the requested key, in store order otherwise |
| `JobSearch.SearchFindsMatches` | server/src/controllers/job.controller.js:164-192 | a search returns a view iff some stored job with that view matches the query |
| `Store.Echo` | server/src/controllers/job.controller.js:34 | `currentPage: page` echoes the raw parameter, or nothing when it is absent |
| `Store.JobStore.CreateNewJob` | server/src/controllers/job.controller.js:84-94 | the store gains exactly the new "opened" job owned by the caller, under its fresh id |
| `Store.JobStore.ApplyJobById` | server/src/controllers/job.controller.js:113-132 | a missing job fails with "Job Not Found" and changes nothing; otherwise exactly that job gains the caller's entry at the end of its list |
| `Store.JobStore.HandleApplication` | server/src/controllers/job.controller.js:149-159 | succeeds iff the job and an entry with that id exist; then only the first such entry's status changes; otherwise it throws and changes nothing |
| `Store.JobStore.GetCandidateList` | server/src/controllers/job.controller.js:134-148 | fails exactly when the job is missing; otherwise returns its candidate list verbatim |
| `Store.JobStore.GetJobById` | server/src/controllers/job.controller.js:42-83 | corrected handler: fails exactly on a missing job; otherwise the detail view, with `isApplied` true iff the viewer id (`req.userID?._id`, possibly absent) owns a candidate entry |
| `Store.JobStore.GetJobList` | server/src/controllers/job.controller.js:19-40 | one page of the filtered documents as listing views, with the pagination of all matches; `skip` defaults to 0 and `limit` to 10; never more than a positive limit |
| `Store.JobStore.GetPostedJobsByCurrentUser` | server/src/controllers/job.controller.js:202-228 | one page of the caller's own stored jobs in full, with `currentPage` coerced to a number; `skip` defaults to 0 and `limit` to 10 |
| `Store.JobStore.GetJobWithFilter` | server/src/controllers/job.controller.js:160-200 | builds the conditions field by field and returns the corrected search result over the stored documents |

## Left out

- MongoDB and Mongoose (`find`, `countDocuments`, `findById`, `save`, `select`, `skip`, `limit`, `sort`) are replaced by the `JobStore` map. The job schema is not part of this model: validation is not modelled, timestamps come from a clock parameter, and a job's candidate list defaults to empty.
- Because Mongoose always gives an array path a value, the candidate list is never absent, so the `|| []` fallback of `getCandidateList` has no case of its own.
- The natural order of an unsorted find is modelled as creation order.
- Search terms are matched as literal substrings with ASCII case folding. Regular-expression syntax in a term, Unicode case folding and database errors (the `catch` answering 500) are not modelled.
- JobSearch.Search: promises ordering by the key only; the order among equal keys is the database's and is not modelled.
- `getAppliedJobsByUserId` delegates to a job service that is not part of this model.
- `updateCurrentJob` is a pass-through update with an empty error branch; it is not modelled.
- Express request/response plumbing, HTTP status codes other than the error tags, and response messages are not modelled.
- The read-modify-write race between concurrent apply and status updates on one job is a concurrency concern; the model is sequential.
- `skip` and `limit` arrive as strings; the model takes them as optional natural numbers (absent ones default to 0 and 10), so negative values and non-numeric strings are not modelled.
- Pagination.Coerce: only strings of decimal digits become numbers; JavaScript also accepts surrounding whitespace, signs, decimals, exponents and hex, which the model maps to NaN.
- Pagination.Coerce: JavaScript's `+` yields a double. Digit strings above 2^53 round to the nearest double, and strings of more than about 309 digits give Infinity (sent as null). The model gives the exact decimal value in both cases.
- Pagination.CoerceDigits: the round trip holds in JavaScript only for n up to 2^53; beyond that the echoed page is the rounded double.
- The listing's `filter` query object is an uninterpreted predicate on jobs.
- Request-body values are modelled as strings (the CV payload is a `map<string, string>`); other JSON values are not modelled.
- Store.JobStore.HandleApplication: the new status is a string; a request without `status` (which stores `undefined`) is not modelled.
- An `_id` key in an apply body is not modelled; the new entry takes the fresh id the store assigns.
- Store.JobStore.GetJobById: the viewer is the request's `userID._id`, not the caller `req.user._id` that the other handlers use. Nothing in this model sets it. If the login layer sets only `req.user`, the viewer is always absent and `isApplied` is always false (`Views.NoViewerNotApplied`). Every candidate entry in the model carries a user. An entry without one, which a create body could supply, would match an absent viewer (`undefined == undefined`); that case is not modelled.
- Timestamps: the model does not refresh `updatedAt` when `save` stores an apply or a status change, as Mongoose timestamps would. A create body's `_id`, `createdAt` or `updatedAt` keys are not modelled; the job takes the fresh id and the clock value.
- `server/src/routers/user.router.js` (route wiring) and the client files (UI, hooks, network calls) carry no logic of this core.

## Findings

| source | as written | input that shows it | evidently intended | confidence | as-written member | corrected member |
|---|---|---|---|---|---|---|
| server/src/controllers/job.controller.js:43-82 | `job.candidateList` and the destructuring of `job` run before `if (job)`, so a missing job throws a TypeError and the 404 "Job Not Found" branch is dead | a job id with no document | answer 404 "Job Not Found" | high; not executed | `Views.DetailAsWritten` (shown by `Views.DetailNotFoundUnreachable`) | `Views.Detail` |
| server/src/controllers/job.controller.js:177-194 | a truthy `sort` that is neither "new" nor "most-expired" falls through both branches and no response is ever sent | `sort=oldest` | answer with the unsorted matches, as for an absent `sort` | medium; not executed | `JobSearch.SearchAsWritten` (shown by `JobSearch.UnknownSortUnanswered`) | `JobSearch.Search` |
