/** The document store: the four collections as maps from id to record,
    the unique indexes as invariants, and the lookups the handlers share. */
module Records {
  import opened Wrappers
  import opened Models

  /** Every key of `m` was handed out before `n`. */
  predicate KeysBelow<T>(m: map<Id, T>, n: nat) {
    forall k | k in m :: k < n
  }

  /** The `unique: true` index on users.email. */
  predicate UniqueEmails(users: map<Id, User>) {
    forall a, b | a in users && b in users && a != b :: users[a].email != users[b].email
  }

  /** The unique index on applications (jobId, jobSeekerId). */
  predicate UniqueApplications(apps: map<Id, Application>) {
    forall a, b | a in apps && b in apps && a != b ::
      apps[a].jobId != apps[b].jobId || apps[a].jobSeekerId != apps[b].jobSeekerId
  }

  /** The unique index on saved_jobs (jobSeekerId, jobId). */
  predicate UniqueSavedJobs(saved: map<Id, SavedJob>) {
    forall a, b | a in saved && b in saved && a != b :: saved[a] != saved[b]
  }

  /** `findOne({ email })` finds a user. */
  predicate EmailTaken(users: map<Id, User>, email: string) {
    exists id | id in users :: users[id].email == email
  }

  /** `findOne({ jobId, jobSeekerId })` finds an application. */
  predicate HasApplied(apps: map<Id, Application>, jobId: Id, seekerId: Id) {
    exists id | id in apps :: apps[id].jobId == jobId && apps[id].jobSeekerId == seekerId
  }

  /** `findOne({ jobSeekerId, jobId })` finds a saved job. */
  predicate IsSaved(saved: map<Id, SavedJob>, seekerId: Id, jobId: Id) {
    exists id | id in saved :: saved[id] == SavedJob(seekerId, jobId)
  }

  /** `findById(jobId)` finds a job whose `isActive` is true. */
  predicate IsActiveJob(jobs: map<Id, Job>, jobId: Id) {
    jobId in jobs && jobs[jobId].isActive
  }

  /** The owner reached by dereferencing an application's `jobId`: none when
      the job is gone. */
  function JobOwner(jobs: map<Id, Job>, jobId: Id): (owner: Option<Id>)
    ensures owner.Some? <==> jobId in jobs
    ensures owner.Some? ==> owner.value == jobs[jobId].employerId
  {
    if jobId in jobs then Some(jobs[jobId].employerId) else None
  }

  /** The invariant of each collection under the id counter `n`: ids below
      the counter, the unique index, and the schema validators. */
  predicate UsersOk(users: map<Id, User>, n: nat) {
    && KeysBelow(users, n)
    && UniqueEmails(users)
    && (forall id | id in users :: UserSchemaOk(users[id]))
  }

  predicate JobsOk(jobs: map<Id, Job>, n: nat) {
    KeysBelow(jobs, n) && forall id | id in jobs :: JobSchemaOk(jobs[id])
  }

  predicate ApplicationsOk(apps: map<Id, Application>, n: nat) {
    KeysBelow(apps, n) && UniqueApplications(apps)
  }

  predicate SavedJobsOk(saved: map<Id, SavedJob>, n: nat) {
    KeysBelow(saved, n) && UniqueSavedJobs(saved)
  }

  /** Advancing the counter keeps every collection's invariant. */
  lemma CounterAdvance(users: map<Id, User>, jobs: map<Id, Job>, apps: map<Id, Application>, saved: map<Id, SavedJob>, n: nat)
    requires UsersOk(users, n) && JobsOk(jobs, n) && ApplicationsOk(apps, n) && SavedJobsOk(saved, n)
    ensures UsersOk(users, n + 1) && JobsOk(jobs, n + 1) && ApplicationsOk(apps, n + 1) && SavedJobsOk(saved, n + 1)
  {
  }

  /** Registering a valid account under a fresh id and a free e-mail. */
  lemma InsertUser(users: map<Id, User>, n: nat, u: User)
    requires UsersOk(users, n) && !EmailTaken(users, u.email) && UserSchemaOk(u)
    ensures UsersOk(users[n := u], n + 1)
  {
  }

  /** Rewriting an account without touching its e-mail. */
  lemma ReplaceUser(users: map<Id, User>, n: nat, id: Id, u: User)
    requires UsersOk(users, n) && id in users && u.email == users[id].email && UserSchemaOk(u)
    ensures UsersOk(users[id := u], n)
  {
  }

  /** Posting a valid job under a fresh id. */
  lemma InsertJob(jobs: map<Id, Job>, n: nat, j: Job)
    requires JobsOk(jobs, n) && JobSchemaOk(j)
    ensures JobsOk(jobs[n := j], n + 1)
  {
  }

  /** Rewriting a stored job with a valid one. */
  lemma ReplaceJob(jobs: map<Id, Job>, n: nat, id: Id, j: Job)
    requires JobsOk(jobs, n) && id in jobs && JobSchemaOk(j)
    ensures JobsOk(jobs[id := j], n)
  {
  }

  /** Adding an application for a pair that has none. */
  lemma InsertApplication(apps: map<Id, Application>, n: nat, a: Application)
    requires ApplicationsOk(apps, n) && !HasApplied(apps, a.jobId, a.jobSeekerId)
    ensures ApplicationsOk(apps[n := a], n + 1)
  {
  }

  /** Rewriting an application without changing its (job, seeker) pair. */
  lemma ReplaceApplication(apps: map<Id, Application>, n: nat, id: Id, a: Application)
    requires ApplicationsOk(apps, n) && id in apps
    requires a.jobId == apps[id].jobId && a.jobSeekerId == apps[id].jobSeekerId
    ensures ApplicationsOk(apps[id := a], n)
  {
  }

  /** Adding a bookmark for a pair that has none. */
  lemma InsertSavedJob(saved: map<Id, SavedJob>, n: nat, s: SavedJob)
    requires SavedJobsOk(saved, n) && !IsSaved(saved, s.jobSeekerId, s.jobId)
    ensures SavedJobsOk(saved[n := s], n + 1)
  {
  }

  class Store {
    var users: map<Id, User>
    var jobs: map<Id, Job>
    var applications: map<Id, Application>
    var savedJobs: map<Id, SavedJob>
    /** The next id the store hands out. */
    var nextId: nat

    /** The store invariant: ids are below the counter, the unique indexes
        hold, and every stored user and job passed schema validation. */
    ghost predicate Valid()
      reads this
    {
      && UsersOk(users, nextId)
      && JobsOk(jobs, nextId)
      && ApplicationsOk(applications, nextId)
      && SavedJobsOk(savedJobs, nextId)
    }

    /** The authentication middleware resolved `id` to a user whose role is `role`. */
    predicate HasRole(id: Id, role: Role)
      reads this
    {
      id in users && users[id].role == role
    }

    /** An empty database. */
    constructor ()
      ensures Valid()
      ensures users == map[] && jobs == map[] && applications == map[] && savedJobs == map[]
      ensures nextId == 0
    {
      users, jobs, applications, savedJobs := map[], map[], map[], map[];
      nextId := 0;
    }
  }
}
