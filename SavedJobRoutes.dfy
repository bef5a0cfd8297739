/** Bookmarks (backend/src/routes/savedJobs.ts): a seeker saves an active
    job once, lists, checks and removes saved jobs. */
module SavedJobRoutes {
  import opened Wrappers
  import opened Models
  import opened Records
  import opened Paging

  /** `GET /saved-jobs/check/:jobId`: always 200, carrying whether the
      caller has a saved entry for the job. */
  function CheckSaved(saved: map<Id, SavedJob>, caller: Id, jobId: Id): (r: Reply<bool>)
    ensures r.Ok? && r.code == 200
    ensures r.value <==> exists id | id in saved :: saved[id].jobSeekerId == caller && saved[id].jobId == jobId
  {
    Ok(200, IsSaved(saved, caller, jobId))
  }

  /** `POST /saved-jobs`: 400 without a job id, 404 unless the job exists and
      is active, 400 when already saved; otherwise 201 and a new entry,
      after which the check answers true. */
  method SaveJob(db: Store, caller: Id, jobId: Option<Id>) returns (r: Reply<Id>)
    requires db.Valid() && db.HasRole(caller, JobSeeker)
    modifies db`savedJobs, db`nextId
    ensures db.Valid()
    ensures jobId.None? ==> r == Fail(400, "Job ID is required")
    ensures jobId.Some? && !IsActiveJob(db.jobs, jobId.value) ==> r == Fail(404, "Job not found or inactive")
    ensures (jobId.Some? && IsActiveJob(db.jobs, jobId.value)
             && IsSaved(old(db.savedJobs), caller, jobId.value)) ==> r == Fail(400, "Job already saved")
    ensures r.Ok? <==> (jobId.Some? && IsActiveJob(db.jobs, jobId.value)
                        && !IsSaved(old(db.savedJobs), caller, jobId.value))
    ensures r.Ok? ==>
      && r == Ok(201, old(db.nextId))
      && db.savedJobs == old(db.savedJobs)[r.value := SavedJob(caller, jobId.value)]
      && db.nextId == old(db.nextId) + 1
      && CheckSaved(db.savedJobs, caller, jobId.value).value
    ensures !r.Ok? ==> db.savedJobs == old(db.savedJobs) && db.nextId == old(db.nextId)
  {
    if jobId.None? {
      return Fail(400, "Job ID is required");
    }
    var j := jobId.value;
    if !IsActiveJob(db.jobs, j) {
      return Fail(404, "Job not found or inactive");
    }
    if IsSaved(db.savedJobs, caller, j) {
      return Fail(400, "Job already saved");
    }
    var id := db.nextId;
    CounterAdvance(db.users, db.jobs, db.applications, db.savedJobs, db.nextId);
    InsertSavedJob(db.savedJobs, id, SavedJob(caller, j));
    db.savedJobs := db.savedJobs[id := SavedJob(caller, j)];
    db.nextId := db.nextId + 1;
    assert db.savedJobs[id] == SavedJob(caller, j);
    r := Ok(201, id);
  }

  /** `GET /saved-jobs`: the caller's entries, newest first. */
  function ListSaved(saved: map<Id, SavedJob>, bound: nat, caller: Id): (ids: seq<Id>)
    ensures KeysBelow(saved, bound) ==>
      forall id :: id in ids <==> id in saved && saved[id].jobSeekerId == caller
    ensures forall i, j | 0 <= i < j < |ids| :: ids[i] > ids[j]
  {
    NewestFirst(saved, (s: SavedJob) => s.jobSeekerId == caller, bound)
  }

  /** `DELETE /saved-jobs/:jobId`: 404 when nothing is saved; otherwise the
      one matching entry is deleted, and afterwards the check answers
      false. */
  method RemoveSaved(db: Store, caller: Id, jobId: Id) returns (r: Reply<string>)
    requires db.Valid() && db.HasRole(caller, JobSeeker)
    modifies db`savedJobs
    ensures db.Valid()
    ensures r.Ok? <==> IsSaved(old(db.savedJobs), caller, jobId)
    ensures !r.Ok? ==> r == Fail(404, "Saved job not found") && db.savedJobs == old(db.savedJobs)
    ensures r.Ok? ==> (r == Ok(200, "Job removed from saved jobs")
                       && exists id | id in old(db.savedJobs) && old(db.savedJobs)[id] == SavedJob(caller, jobId) ::
                            db.savedJobs == old(db.savedJobs) - {id})
    ensures !CheckSaved(db.savedJobs, caller, jobId).value
  {
    if !IsSaved(db.savedJobs, caller, jobId) {
      return Fail(404, "Saved job not found");
    }
    var id :| id in db.savedJobs && db.savedJobs[id] == SavedJob(caller, jobId);
    db.savedJobs := db.savedJobs - {id};
    r := Ok(200, "Job removed from saved jobs");
  }
}
