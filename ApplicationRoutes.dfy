/** The application lifecycle (backend/src/routes/applications.ts): a
    seeker applies, edits or withdraws while the application is pending; the
    employer who owns the referenced job lists, re-rates or deletes it. */
module ApplicationRoutes {
  import opened Wrappers
  import opened Models
  import opened Text
  import opened Records
  import opened Paging

  /** Body of `POST /applications`. `jobId` is None when it is missing or not
      a well-formed ObjectId (the `isMongoId` check). */
  datatype ApplyBody = ApplyBody(jobId: Option<Id>, coverLetter: string, cvUrl: string)

  /** The fields whose validators fail, in declaration order: `jobId` must
      be an ObjectId, `coverLetter` non-empty once trimmed, `cvUrl` a URL
      (the library's `isURL`, a parameter here). */
  function ApplyErrors(b: ApplyBody, isURL: string -> bool): (fields: seq<string>)
    ensures fields == [] <==> b.jobId.Some? && Trim(b.coverLetter) != "" && isURL(b.cvUrl)
  {
    (if b.jobId.None? then ["jobId"] else [])
    + (if Trim(b.coverLetter) == "" then ["coverLetter"] else [])
    + (if isURL(b.cvUrl) then [] else ["cvUrl"])
  }

  /** `POST /applications`: 404 unless the job exists and is active, 400 if
      the caller already applied to it, otherwise a new pending application
      with the caller as seeker and the (trimmed) cover letter and CV URL. */
  method Apply(db: Store, caller: Id, b: ApplyBody, isURL: string -> bool) returns (r: Reply<Id>)
    requires db.Valid() && db.HasRole(caller, JobSeeker)
    modifies db`applications, db`nextId
    ensures db.Valid()
    ensures ApplyErrors(b, isURL) != [] ==> r == Invalid(ApplyErrors(b, isURL))
    ensures ApplyErrors(b, isURL) == [] && !IsActiveJob(db.jobs, b.jobId.value) ==>
      r == Fail(404, "Job not found or inactive")
    ensures (ApplyErrors(b, isURL) == [] && IsActiveJob(db.jobs, b.jobId.value)
             && HasApplied(old(db.applications), b.jobId.value, caller)) ==>
      r == Fail(400, "You have already applied for this job")
    ensures r.Ok? <==> (ApplyErrors(b, isURL) == [] && IsActiveJob(db.jobs, b.jobId.value)
                        && !HasApplied(old(db.applications), b.jobId.value, caller))
    ensures r.Ok? ==>
      && r == Ok(201, old(db.nextId))
      && db.applications == old(db.applications)[r.value := NewApplication(b.jobId.value, caller, Trim(b.coverLetter), b.cvUrl)]
      && db.nextId == old(db.nextId) + 1
    ensures !r.Ok? ==> db.applications == old(db.applications) && db.nextId == old(db.nextId)
  {
    var errors := ApplyErrors(b, isURL);
    if errors != [] {
      return Invalid(errors);
    }
    var jobId := b.jobId.value;
    if !IsActiveJob(db.jobs, jobId) {
      return Fail(404, "Job not found or inactive");
    }
    if HasApplied(db.applications, jobId, caller) {
      return Fail(400, "You have already applied for this job");
    }
    var id := db.nextId;
    var app := NewApplication(jobId, caller, Trim(b.coverLetter), b.cvUrl);
    CounterAdvance(db.users, db.jobs, db.applications, db.savedJobs, db.nextId);
    InsertApplication(db.applications, id, app);
    db.applications := db.applications[id := app];
    db.nextId := db.nextId + 1;
    r := Ok(201, id);
  }

  /** `GET /applications/my-applications`: the caller's applications,
      newest first. */
  function MyApplications(apps: map<Id, Application>, bound: nat, caller: Id): (ids: seq<Id>)
    ensures KeysBelow(apps, bound) ==>
      forall id :: id in ids <==> id in apps && apps[id].jobSeekerId == caller
    ensures forall i, j | 0 <= i < j < |ids| :: ids[i] > ids[j]
  {
    NewestFirst(apps, (a: Application) => a.jobSeekerId == caller, bound)
  }

  /** `PUT /applications/:id/note`. The ownership check goes through the
      application's job and fails closed: a deleted job has no owner, which
      differs from the caller, so the reply is 403. The handler assigns
      `employerNotes` on the loaded document, but the schema declares no
      such path, so saving persists nothing: the store is left as it was
      and the reply carries the stored application. */
  method AddNote(db: Store, caller: Id, appId: Id, note: Value) returns (r: Reply<Application>)
    requires db.Valid() && db.HasRole(caller, Employer)
    ensures appId !in db.applications ==> r == Fail(404, "Application not found")
    ensures appId in db.applications && JobOwner(db.jobs, db.applications[appId].jobId) != Some(caller) ==>
      r == Fail(403, "Unauthorized to add notes")
    ensures r.Ok? <==> appId in db.applications && JobOwner(db.jobs, db.applications[appId].jobId) == Some(caller)
    ensures r.Ok? ==> r == Ok(200, db.applications[appId])
  {
    if appId !in db.applications {
      return Fail(404, "Application not found");
    }
    var app := db.applications[appId];
    if JobOwner(db.jobs, app.jobId) != Some(caller) {
      return Fail(403, "Unauthorized to add notes");
    }
    r := Ok(200, app);
  }

  /** The reply of `GET /applications/employer/:jobId`. */
  datatype Applicants = Applicants(jobTitle: string, applications: seq<Id>)

  /** `GET /applications/employer/:jobId`: 403 unless a job with that id is
      owned by the caller; then exactly the applications to that job,
      newest first. */
  function ApplicantsFor(jobs: map<Id, Job>, apps: map<Id, Application>, bound: nat, caller: Id, jobId: Id): (r: Reply<Applicants>)
    ensures r.Ok? <==> jobId in jobs && jobs[jobId].employerId == caller
    ensures !r.Ok? ==> r == Fail(403, "Unauthorized: You do not own this job listing")
    ensures r.Ok? ==> r.code == 200 && r.value.jobTitle == jobs[jobId].title
    ensures r.Ok? && KeysBelow(apps, bound) ==>
      forall id :: id in r.value.applications <==> id in apps && apps[id].jobId == jobId
    ensures r.Ok? ==> forall i, j | 0 <= i < j < |r.value.applications| ::
      r.value.applications[i] > r.value.applications[j]
  {
    if jobId in jobs && jobs[jobId].employerId == caller then
      Ok(200, Applicants(jobs[jobId].title, NewestFirst(apps, (a: Application) => a.jobId == jobId, bound)))
    else
      Fail(403, "Unauthorized: You do not own this job listing")
  }

  /** `PUT /applications/:id/status`: the status must name one of the four
      values (else 400); the application must exist (else 404); its job is
      dereferenced without a guard, so a deleted job throws and the reply
      is 500; a job owned by someone else gives 403. Only `status` changes. */
  method SetStatus(db: Store, caller: Id, appId: Id, status: string) returns (r: Reply<Application>)
    requires db.Valid() && db.HasRole(caller, Employer)
    modifies db`applications
    ensures db.Valid()
    ensures ParseStatus(status).None? ==> r == Invalid(["status"])
    ensures ParseStatus(status).Some? && appId !in old(db.applications) ==>
      r == Fail(404, "Application not found")
    ensures (ParseStatus(status).Some? && appId in old(db.applications)
             && old(db.applications)[appId].jobId !in db.jobs) ==> r == Fail(500, ServerError)
    ensures (ParseStatus(status).Some? && appId in old(db.applications)
             && JobOwner(db.jobs, old(db.applications)[appId].jobId).Some?
             && JobOwner(db.jobs, old(db.applications)[appId].jobId) != Some(caller)) ==>
      r == Fail(403, "Unauthorized to update this application")
    ensures r.Ok? <==> (ParseStatus(status).Some? && appId in old(db.applications)
                        && JobOwner(db.jobs, old(db.applications)[appId].jobId) == Some(caller))
    ensures r.Ok? ==>
      && db.applications == old(db.applications)[appId := old(db.applications)[appId].(status := ParseStatus(status).value)]
      && r == Ok(200, db.applications[appId])
    ensures !r.Ok? ==> db.applications == old(db.applications)
  {
    var parsed := ParseStatus(status);
    if parsed.None? {
      return Invalid(["status"]);
    }
    if appId !in db.applications {
      return Fail(404, "Application not found");
    }
    var app := db.applications[appId];
    if app.jobId !in db.jobs {
      return Fail(500, ServerError);
    }
    if db.jobs[app.jobId].employerId != caller {
      return Fail(403, "Unauthorized to update this application");
    }
    var updated := app.(status := parsed.value);
    ReplaceApplication(db.applications, db.nextId, appId, updated);
    db.applications := db.applications[appId := updated];
    r := Ok(200, updated);
  }

  /** `DELETE /applications/employer/:id`: the same guards as the status
      update (404, 500 for a deleted job, 403); then the application is
      removed whatever its status. */
  method EmployerDelete(db: Store, caller: Id, appId: Id) returns (r: Reply<string>)
    requires db.Valid() && db.HasRole(caller, Employer)
    modifies db`applications
    ensures db.Valid()
    ensures appId !in old(db.applications) ==> r == Fail(404, "Application not found")
    ensures appId in old(db.applications) && old(db.applications)[appId].jobId !in db.jobs ==>
      r == Fail(500, ServerError)
    ensures (appId in old(db.applications)
             && JobOwner(db.jobs, old(db.applications)[appId].jobId).Some?
             && JobOwner(db.jobs, old(db.applications)[appId].jobId) != Some(caller)) ==>
      r == Fail(403, "Unauthorized to delete this application")
    ensures r.Ok? <==> (appId in old(db.applications)
                        && JobOwner(db.jobs, old(db.applications)[appId].jobId) == Some(caller))
    ensures r.Ok? ==> (r == Ok(200, "Application removed from dashboard")
                       && db.applications == old(db.applications) - {appId})
    ensures !r.Ok? ==> db.applications == old(db.applications)
  {
    if appId !in db.applications {
      return Fail(404, "Application not found");
    }
    var app := db.applications[appId];
    if app.jobId !in db.jobs {
      return Fail(500, ServerError);
    }
    if db.jobs[app.jobId].employerId != caller {
      return Fail(403, "Unauthorized to delete this application");
    }
    db.applications := db.applications - {appId};
    r := Ok(200, "Application removed from dashboard");
  }

  /** The application `appId` exists and belongs to `caller`: the
      `findOne({ _id, jobSeekerId })` lookup of the seeker-side routes. */
  predicate OwnsApplication(apps: map<Id, Application>, caller: Id, appId: Id) {
    appId in apps && apps[appId].jobSeekerId == caller
  }

  /** `DELETE /applications/:id`: 404 unless the caller owns the
      application, 403 once it has left `pending`; otherwise exactly that
      record is deleted. */
  method Withdraw(db: Store, caller: Id, appId: Id) returns (r: Reply<string>)
    requires db.Valid() && db.HasRole(caller, JobSeeker)
    modifies db`applications
    ensures db.Valid()
    ensures !OwnsApplication(old(db.applications), caller, appId) ==> r == Fail(404, "Application not found")
    ensures OwnsApplication(old(db.applications), caller, appId) && old(db.applications)[appId].status != Pending ==>
      r == Fail(403, "Cannot delete processed application")
    ensures r.Ok? <==> OwnsApplication(old(db.applications), caller, appId) && old(db.applications)[appId].status == Pending
    ensures r.Ok? ==> (r == Ok(200, "Application withdrawn successfully")
                       && db.applications == old(db.applications) - {appId})
    ensures !r.Ok? ==> db.applications == old(db.applications)
  {
    if !OwnsApplication(db.applications, caller, appId) {
      return Fail(404, "Application not found");
    }
    if db.applications[appId].status != Pending {
      return Fail(403, "Cannot delete processed application");
    }
    db.applications := db.applications - {appId};
    r := Ok(200, "Application withdrawn successfully");
  }

  /** Body of `PUT /applications/:id`. */
  datatype EditBody = EditBody(coverLetter: string, cvUrl: string)

  /** `PUT /applications/:id`: 404 unless the caller owns the application,
      403 once it has left `pending`; otherwise only `coverLetter` and
      `cvUrl` change. The route declares validators but never reads their
      result, so an empty cover letter or a non-URL is stored; the `trim`
      sanitizer still rewrites the cover letter. */
  method EditOwn(db: Store, caller: Id, appId: Id, b: EditBody) returns (r: Reply<Application>)
    requires db.Valid() && db.HasRole(caller, JobSeeker)
    modifies db`applications
    ensures db.Valid()
    ensures !OwnsApplication(old(db.applications), caller, appId) ==> r == Fail(404, "Application not found")
    ensures OwnsApplication(old(db.applications), caller, appId) && old(db.applications)[appId].status != Pending ==>
      r == Fail(403, "Cannot update processed application")
    ensures r.Ok? <==> OwnsApplication(old(db.applications), caller, appId) && old(db.applications)[appId].status == Pending
    ensures r.Ok? ==>
      && db.applications == old(db.applications)[appId := old(db.applications)[appId].(coverLetter := Trim(b.coverLetter), cvUrl := b.cvUrl)]
      && r == Ok(200, db.applications[appId])
    ensures !r.Ok? ==> db.applications == old(db.applications)
  {
    if !OwnsApplication(db.applications, caller, appId) {
      return Fail(404, "Application not found");
    }
    var app := db.applications[appId];
    if app.status != Pending {
      return Fail(403, "Cannot update processed application");
    }
    var updated := app.(coverLetter := Trim(b.coverLetter), cvUrl := b.cvUrl);
    ReplaceApplication(db.applications, db.nextId, appId, updated);
    db.applications := db.applications[appId := updated];
    r := Ok(200, updated);
  }
}
