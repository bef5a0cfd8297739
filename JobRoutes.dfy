/** Job postings (backend/src/routes/jobs.ts): the public, filtered and
    paginated listing, a single job, and the owner-only create, update and
    delete operations. */
module JobRoutes {
  import opened Wrappers
  import opened Models
  import opened Text
  import opened Records
  import opened Paging

  /** The query string of `GET /jobs`. An absent or empty filter is
      represented by "" (both are falsy and add no condition). `like` in the
      operations below is the database's case-insensitive regular-expression
      match of a pattern against a subject. */
  datatype JobQuery = JobQuery(page: Option<nat>, limit: Option<nat>, category: string, location: string, jobType: string)

  /** The conditions `GET /jobs` puts on a job: active, and each non-empty
      filter respected (category and job type exactly, location by pattern). */
  predicate ListingMatch(j: Job, q: JobQuery, like: (string, string) -> bool) {
    && j.isActive
    && (q.category != "" ==> j.category == Some(q.category))
    && (q.location != "" ==> like(q.location, j.location))
    && (q.jobType != "" ==> JobTypeName(j.jobType) == q.jobType)
  }

  /** The listing's filter as a value, so that contracts can name the set
      of all matches. */
  function ListingFilter(q: JobQuery, like: (string, string) -> bool): Job -> bool {
    (j: Job) => ListingMatch(j, q, like)
  }

  /** `GET /jobs`: the matching jobs newest first, one page of them. Page
      and limit default to 1 and 10; limit 0 means no limit and no page
      count; page 0 with a positive limit asks the database for a negative
      skip and the reply is 500. `total` counts every match, not just the
      page. */
  function ListJobs(jobs: map<Id, Job>, bound: nat, q: JobQuery, like: (string, string) -> bool): (r: Reply<PageResult<Id>>)
    ensures r.Ok? <==> q.limit.GetOr(DefaultLimit) == 0 || q.page.GetOr(DefaultPage) >= 1
    ensures r.Fail? ==> r == Fail(500, ServerError)
    ensures r.Ok? ==> forall i | 0 <= i < |r.value.items| ::
      r.value.items[i] in jobs && jobs[r.value.items[i]].isActive && ListingMatch(jobs[r.value.items[i]], q, like)
    ensures r.Ok? ==> forall i, j | 0 <= i < j < |r.value.items| :: r.value.items[i] > r.value.items[j]
    ensures r.Ok? ==> r.value.total == |Matching(jobs, ListingFilter(q, like), bound)|
    ensures r.Ok? ==> r.value.currentPage == q.page.GetOr(DefaultPage)
    ensures r.Ok? ==>
      r.value.items == PageOf(NewestFirst(jobs, ListingFilter(q, like), bound), q.page.GetOr(DefaultPage), q.limit.GetOr(DefaultLimit))
    ensures r.Ok? && q.limit.GetOr(DefaultLimit) == 0 ==>
      r.value.items == NewestFirst(jobs, ListingFilter(q, like), bound) && r.value.totalPages == None
    ensures r.Ok? && q.limit.GetOr(DefaultLimit) > 0 ==>
      |r.value.items| <= q.limit.GetOr(DefaultLimit)
      && r.value.totalPages == Some(CeilDiv(r.value.total, q.limit.GetOr(DefaultLimit)))
  {
    PageOfNewestFirst(jobs, ListingFilter(q, like), bound, q.page.GetOr(DefaultPage), q.limit.GetOr(DefaultLimit));
    Paginate(NewestFirst(jobs, ListingFilter(q, like), bound), q.page.GetOr(DefaultPage), q.limit.GetOr(DefaultLimit))
  }

  /** With no limit, every active job that passes the filters is listed. */
  lemma {:induction false} UnlimitedListingIsComplete(jobs: map<Id, Job>, bound: nat, q: JobQuery, like: (string, string) -> bool, id: Id)
    requires KeysBelow(jobs, bound) && q.limit == Some(0)
    requires id in jobs && ListingMatch(jobs[id], q, like)
    ensures ListJobs(jobs, bound, q, like).Ok?
    ensures id in ListJobs(jobs, bound, q, like).value.items
  {
    assert ListingFilter(q, like)(jobs[id]);
  }

  /** `GET /jobs/:id`: any stored job, active or not; otherwise 404. */
  function GetJob(jobs: map<Id, Job>, id: Id): (r: Reply<Job>)
    ensures r.Ok? <==> id in jobs
    ensures r.Ok? ==> r == Ok(200, jobs[id])
    ensures !r.Ok? ==> r == Fail(404, "Job not found")
  {
    if id in jobs then Ok(200, jobs[id]) else Fail(404, "Job not found")
  }

  /** Body of `POST /jobs`. `employerId` is whatever the client sent; the
      handler overrides it. */
  datatype JobBody = JobBody(
    title: string,
    description: string,
    requirements: seq<string>,
    jobType: string,
    location: string,
    salaryMin: Option<int>,
    salaryMax: Option<int>,
    category: Option<string>,
    isActive: Option<bool>,
    employerId: Option<Id>)

  /** The fields whose validators fail, in declaration order. */
  function CreateErrors(b: JobBody): (fields: seq<string>)
    ensures fields == [] <==>
      Trim(b.title) != "" && Trim(b.description) != "" && Trim(b.location) != "" && ParseJobType(b.jobType).Some?
  {
    (if Trim(b.title) == "" then ["title"] else [])
    + (if Trim(b.description) == "" then ["description"] else [])
    + (if Trim(b.location) == "" then ["location"] else [])
    + (if ParseJobType(b.jobType).Some? then [] else ["jobType"])
  }

  /** The job `POST /jobs` stores: the body with its three validated
      strings trimmed, the caller as employer whatever the body says, and
      `isActive` defaulting to true. */
  function NewJob(b: JobBody, caller: Id): (j: Job)
    requires CreateErrors(b) == []
    ensures j.employerId == caller
    ensures j.title == Trim(b.title) && j.description == Trim(b.description) && j.location == Trim(b.location)
    ensures j.requirements == b.requirements && j.salaryMin == b.salaryMin && j.salaryMax == b.salaryMax
    ensures j.category == b.category
    ensures b.isActive.Some? ==> j.isActive == b.isActive.value
    ensures b.isActive.None? ==> j.isActive
    ensures JobSchemaOk(j)
    ensures JobTypeName(j.jobType) == b.jobType
  {
    Job(caller, Trim(b.title), Trim(b.description), b.requirements, ParseJobType(b.jobType).value,
        Trim(b.location), b.salaryMin, b.salaryMax, b.category, b.isActive.GetOr(true))
  }

  /** `POST /jobs`: 400 with the failing fields, otherwise 201 and a new job. */
  method CreateJob(db: Store, caller: Id, b: JobBody) returns (r: Reply<Id>)
    requires db.Valid() && db.HasRole(caller, Employer)
    modifies db`jobs, db`nextId
    ensures db.Valid()
    ensures CreateErrors(b) != [] ==>
      r == Invalid(CreateErrors(b)) && db.jobs == old(db.jobs) && db.nextId == old(db.nextId)
    ensures CreateErrors(b) == [] ==>
      && r == Ok(201, old(db.nextId))
      && db.jobs == old(db.jobs)[r.value := NewJob(b, caller)]
      && db.nextId == old(db.nextId) + 1
  {
    var errors := CreateErrors(b);
    if errors != [] {
      return Invalid(errors);
    }
    var id := db.nextId;
    CounterAdvance(db.users, db.jobs, db.applications, db.savedJobs, db.nextId);
    InsertJob(db.jobs, id, NewJob(b, caller));
    db.jobs := db.jobs[id := NewJob(b, caller)];
    db.nextId := db.nextId + 1;
    r := Ok(201, id);
  }

  /** Body of `PUT /jobs/:id`: every key optional, None when absent. No
      validator and no allow-list applies; `employerId` and `isActive` are
      as assignable as the rest. */
  datatype JobPatch = JobPatch(
    title: Option<string>,
    description: Option<string>,
    requirements: Option<seq<string>>,
    jobType: Option<string>,
    location: Option<string>,
    salaryMin: Option<Option<int>>,
    salaryMax: Option<Option<int>>,
    category: Option<Option<string>>,
    isActive: Option<bool>,
    employerId: Option<Id>)

  /** The patch assigned onto a job, key by key; None when the patched job
      type is not one of the four names (the enum validator rejects it when
      saving). */
  function Patched(j: Job, p: JobPatch): (r: Option<Job>)
    ensures r.None? <==> p.jobType.Some? && ParseJobType(p.jobType.value).None?
    ensures r.Some? ==>
      && (p.employerId.Some? ==> r.value.employerId == p.employerId.value)
      && (p.employerId.None? ==> r.value.employerId == j.employerId)
      && (p.title.Some? ==> r.value.title == p.title.value)
      && (p.title.None? ==> r.value.title == j.title)
      && (p.description.Some? ==> r.value.description == p.description.value)
      && (p.description.None? ==> r.value.description == j.description)
      && (p.requirements.Some? ==> r.value.requirements == p.requirements.value)
      && (p.requirements.None? ==> r.value.requirements == j.requirements)
      && (p.jobType.Some? ==> JobTypeName(r.value.jobType) == p.jobType.value)
      && (p.jobType.None? ==> r.value.jobType == j.jobType)
      && (p.location.Some? ==> r.value.location == p.location.value)
      && (p.location.None? ==> r.value.location == j.location)
      && (p.salaryMin.Some? ==> r.value.salaryMin == p.salaryMin.value)
      && (p.salaryMin.None? ==> r.value.salaryMin == j.salaryMin)
      && (p.salaryMax.Some? ==> r.value.salaryMax == p.salaryMax.value)
      && (p.salaryMax.None? ==> r.value.salaryMax == j.salaryMax)
      && (p.category.Some? ==> r.value.category == p.category.value)
      && (p.category.None? ==> r.value.category == j.category)
      && (p.isActive.Some? ==> r.value.isActive == p.isActive.value)
      && (p.isActive.None? ==> r.value.isActive == j.isActive)
  {
    var jobType := if p.jobType.Some? then ParseJobType(p.jobType.value) else Some(j.jobType);
    if jobType.None? then None
    else Some(Job(
      p.employerId.GetOr(j.employerId),
      p.title.GetOr(j.title),
      p.description.GetOr(j.description),
      p.requirements.GetOr(j.requirements),
      jobType.value,
      p.location.GetOr(j.location),
      p.salaryMin.GetOr(j.salaryMin),
      p.salaryMax.GetOr(j.salaryMax),
      p.category.GetOr(j.category),
      p.isActive.GetOr(j.isActive)))
  }

  /** The empty patch leaves a job as it was. */
  lemma EmptyPatchKeepsJob(j: Job)
    ensures Patched(j, JobPatch(None, None, None, None, None, None, None, None, None, None)) == Some(j)
  {
  }

  /** A patch naming another employer hands the job over to them: after
      the update the former owner can no longer find, edit or delete it. */
  lemma PatchCanTransferOwnership(j: Job, other: Id)
    ensures Patched(j, JobPatch(None, None, None, None, None, None, None, None, None, Some(other)))
      == Some(j.(employerId := other))
  {
  }

  /** The job `id` exists and is posted by `caller`: the
      `findOne({ _id, employerId })` lookup. */
  predicate OwnsJob(jobs: map<Id, Job>, caller: Id, id: Id) {
    id in jobs && jobs[id].employerId == caller
  }

  /** `PUT /jobs/:id`: 404 unless the caller owns the job; 500 when the
      patched job fails schema validation (an empty required string or an
      unknown job type); otherwise the patched job is stored. */
  method UpdateJob(db: Store, caller: Id, id: Id, p: JobPatch) returns (r: Reply<Job>)
    requires db.Valid() && db.HasRole(caller, Employer)
    modifies db`jobs
    ensures db.Valid()
    ensures !OwnsJob(old(db.jobs), caller, id) ==> r == Fail(404, "Job not found or unauthorized")
    ensures OwnsJob(old(db.jobs), caller, id) ==>
      var patched := Patched(old(db.jobs)[id], p);
      if patched.Some? && JobSchemaOk(patched.value)
      then r == Ok(200, patched.value) && db.jobs == old(db.jobs)[id := patched.value]
      else r == Fail(500, ServerError)
    ensures !r.Ok? ==> db.jobs == old(db.jobs)
  {
    if !OwnsJob(db.jobs, caller, id) {
      return Fail(404, "Job not found or unauthorized");
    }
    var patched := Patched(db.jobs[id], p);
    if patched.None? || !JobSchemaOk(patched.value) {
      return Fail(500, ServerError);
    }
    ReplaceJob(db.jobs, db.nextId, id, patched.value);
    db.jobs := db.jobs[id := patched.value];
    r := Ok(200, patched.value);
  }

  /** `DELETE /jobs/:id`: 404 unless the caller owns the job; otherwise
      exactly that job is removed. Applications and saved entries that
      reference it stay (nothing else is in the frame). */
  method DeleteJob(db: Store, caller: Id, id: Id) returns (r: Reply<string>)
    requires db.Valid() && db.HasRole(caller, Employer)
    modifies db`jobs
    ensures db.Valid()
    ensures r.Ok? <==> OwnsJob(old(db.jobs), caller, id)
    ensures !r.Ok? ==> r == Fail(404, "Job not found or unauthorized") && db.jobs == old(db.jobs)
    ensures r.Ok? ==> r == Ok(200, "Job deleted successfully") && db.jobs == old(db.jobs) - {id}
  {
    if !OwnsJob(db.jobs, caller, id) {
      return Fail(404, "Job not found or unauthorized");
    }
    db.jobs := db.jobs - {id};
    r := Ok(200, "Job deleted successfully");
  }

  /** `GET /jobs/employer/my-jobs`: every job the caller posted, inactive
      ones included, newest first. */
  function MyJobs(jobs: map<Id, Job>, bound: nat, caller: Id): (ids: seq<Id>)
    ensures KeysBelow(jobs, bound) ==> forall id :: id in ids <==> OwnsJob(jobs, caller, id)
    ensures forall i, j | 0 <= i < j < |ids| :: ids[i] > ids[j]
  {
    NewestFirst(jobs, (j: Job) => j.employerId == caller, bound)
  }
}
