/** Sequences of handler calls on one store, and what the handlers'
    contracts promise about them together. */
module Lifecycle {
  import opened Wrappers
  import opened Models
  import opened Text
  import opened Records
  import opened ApplicationRoutes
  import opened JobRoutes
  import opened SavedJobRoutes

  /** Applying twice to the same job: the first call stores a pending
      application, the second is refused with 400 and stores nothing. */
  method ApplyTwice(db: Store, caller: Id, b: ApplyBody, isURL: string -> bool) returns (first: Reply<Id>, second: Reply<Id>)
    requires db.Valid() && db.HasRole(caller, JobSeeker)
    requires ApplyErrors(b, isURL) == [] && IsActiveJob(db.jobs, b.jobId.value)
    requires !HasApplied(db.applications, b.jobId.value, caller)
    modifies db`applications, db`nextId
    ensures db.Valid()
    ensures first == Ok(201, old(db.nextId))
    ensures second == Fail(400, "You have already applied for this job")
    ensures db.applications == old(db.applications)[first.value := NewApplication(b.jobId.value, caller, Trim(b.coverLetter), b.cvUrl)]
  {
    first := Apply(db, caller, b, isURL);
    assert db.applications[first.value].jobId == b.jobId.value;
    assert db.applications[first.value].jobSeekerId == caller;
    second := Apply(db, caller, b, isURL);
  }

  /** Once the job's owner marks an application reviewed, its seeker can
      no longer withdraw it. */
  method ReviewThenWithdraw(db: Store, employer: Id, seeker: Id, appId: Id) returns (review: Reply<Application>, withdraw: Reply<string>)
    requires db.Valid() && db.HasRole(employer, Employer) && db.HasRole(seeker, JobSeeker)
    requires OwnsApplication(db.applications, seeker, appId)
    requires JobOwner(db.jobs, db.applications[appId].jobId) == Some(employer)
    modifies db`applications
    ensures db.Valid()
    ensures review.Ok? && review.value.status == Reviewed
    ensures withdraw == Fail(403, "Cannot delete processed application")
    ensures db.applications == old(db.applications)[appId := old(db.applications)[appId].(status := Reviewed)]
  {
    assert ParseStatus("reviewed") == Some(Reviewed);
    review := SetStatus(db, employer, appId, "reviewed");
    withdraw := Withdraw(db, seeker, appId);
  }

  /** Saving a job and removing it again leaves the saved-job collection as
      it was, and the check answers false. */
  method SaveThenRemove(db: Store, caller: Id, jobId: Id) returns (save: Reply<Id>, remove: Reply<string>)
    requires db.Valid() && db.HasRole(caller, JobSeeker)
    requires IsActiveJob(db.jobs, jobId) && !IsSaved(db.savedJobs, caller, jobId)
    modifies db`savedJobs, db`nextId
    ensures db.Valid()
    ensures save.Ok? && remove.Ok?
    ensures db.savedJobs == old(db.savedJobs)
    ensures !CheckSaved(db.savedJobs, caller, jobId).value
  {
    save := SaveJob(db, caller, Some(jobId));
    ghost var middle := db.savedJobs;
    remove := RemoveSaved(db, caller, jobId);
    ghost var id :| id in middle && middle[id] == SavedJob(caller, jobId) && db.savedJobs == middle - {id};
    assert id == save.value;
    assert save.value !in old(db.savedJobs);
  }

  /** Deleting a job leaves its applications behind; the employer's status
      update on one of them then dereferences a missing job and fails with
      500. */
  method DeleteJobThenSetStatus(db: Store, employer: Id, appId: Id, status: string) returns (delete: Reply<string>, update: Reply<Application>)
    requires db.Valid() && db.HasRole(employer, Employer)
    requires appId in db.applications && OwnsJob(db.jobs, employer, db.applications[appId].jobId)
    requires ParseStatus(status).Some?
    modifies db`jobs, db`applications
    ensures db.Valid()
    ensures delete == Ok(200, "Job deleted successfully")
    ensures update == Fail(500, ServerError)
    ensures db.applications == old(db.applications)
  {
    delete := DeleteJob(db, employer, db.applications[appId].jobId);
    update := SetStatus(db, employer, appId, status);
  }
}
