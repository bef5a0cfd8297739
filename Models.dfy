/** The four Mongoose schemas (backend/src/models) as datatypes, their enum
    domains with the strings that name them on the wire, and the reply shape
    every route handler produces. */
module Models {
  import opened Wrappers
  import opened Text

  /** A document identifier (a Mongo ObjectId). The store hands them out in
      increasing order, so a larger id is a newer document. */
  type Id = nat

  /** `role` of a user: `job_seeker`, `employer` or `admin`. */
  datatype Role = JobSeeker | Employer | Admin

  function RoleName(r: Role): string {
    match r
    case JobSeeker => "job_seeker"
    case Employer => "employer"
    case Admin => "admin"
  }

  /** The enum check on `role`: a string is accepted exactly when it names a role. */
  function ParseRole(s: string): (r: Option<Role>)
    ensures forall x :: r == Some(x) <==> RoleName(x) == s
  {
    if s == "job_seeker" then Some(JobSeeker)
    else if s == "employer" then Some(Employer)
    else if s == "admin" then Some(Admin)
    else None
  }

  /** `status` of an application. */
  datatype Status = Pending | Reviewed | Accepted | Rejected

  function StatusName(s: Status): string {
    match s
    case Pending => "pending"
    case Reviewed => "reviewed"
    case Accepted => "accepted"
    case Rejected => "rejected"
  }

  /** The enum check on `status`: a string is accepted exactly when it names a status. */
  function ParseStatus(s: string): (r: Option<Status>)
    ensures forall x :: r == Some(x) <==> StatusName(x) == s
  {
    if s == "pending" then Some(Pending)
    else if s == "reviewed" then Some(Reviewed)
    else if s == "accepted" then Some(Accepted)
    else if s == "rejected" then Some(Rejected)
    else None
  }

  /** `jobType` of a job posting. */
  datatype JobType = FullTime | PartTime | Contract | Internship

  function JobTypeName(t: JobType): string {
    match t
    case FullTime => "full_time"
    case PartTime => "part_time"
    case Contract => "contract"
    case Internship => "internship"
  }

  /** The enum check on `jobType`: a string is accepted exactly when it names a job type. */
  function ParseJobType(s: string): (r: Option<JobType>)
    ensures forall x :: r == Some(x) <==> JobTypeName(x) == s
  {
    if s == "full_time" then Some(FullTime)
    else if s == "part_time" then Some(PartTime)
    else if s == "contract" then Some(Contract)
    else if s == "internship" then Some(Internship)
    else None
  }

  /** A JSON value as it arrives in a request body or sits in an untyped
      (`String`, `[String]`, `Mixed`) profile path. */
  datatype Value = Null | Bool(b: bool) | Num(n: int) | Str(s: string) | Arr(items: seq<Value>)

  /** A JSON object: field name to value. A field that is absent is
      JavaScript's `undefined`. */
  type Object = map<string, Value>

  /** A user account. `email`, `password` (the stored hash) and `role` are
      typed paths; `fullName` and the optional seeker and employer fields
      (bio, skills, cvUrl, companyName, industry, ...) are the `profile`
      paths, keyed by their schema names. */
  datatype User = User(email: string, password: string, role: Role, profile: Object)

  /** Mongoose's `required` check on a String path: a non-empty string. */
  predicate RequiredString(v: Value) {
    v.Str? && v.s != ""
  }

  /** What Mongoose's `required` validators demand of a user when it is
      saved: a non-empty email, password and fullName. */
  predicate UserSchemaOk(u: User) {
    u.email != "" && u.password != "" && "fullName" in u.profile && RequiredString(u.profile["fullName"])
  }

  /** A job posting. The salary bounds and the category are optional, and
      nothing orders salaryMin against salaryMax. */
  datatype Job = Job(
    employerId: Id,
    title: string,
    description: string,
    requirements: seq<string>,
    jobType: JobType,
    location: string,
    salaryMin: Option<int>,
    salaryMax: Option<int>,
    category: Option<string>,
    isActive: bool)

  /** What the `required` validators demand of a job when it is saved: the
      required strings are non-empty (employerId and jobType are typed). */
  predicate JobSchemaOk(j: Job) {
    j.title != "" && j.description != "" && j.location != ""
  }

  /** An application. The schema declares no `employerNotes` path, so no
      such field exists on a stored application. */
  datatype Application = Application(
    jobId: Id,
    jobSeekerId: Id,
    status: Status,
    coverLetter: string,
    cvUrl: string)

  /** A new application as the schema builds it: `status` takes its default. */
  function NewApplication(jobId: Id, seekerId: Id, coverLetter: string, cvUrl: string): (a: Application)
    ensures a.status == Pending
    ensures a.jobId == jobId && a.jobSeekerId == seekerId
  {
    Application(jobId, seekerId, Pending, coverLetter, cvUrl)
  }

  /** A bookmark of a job by a seeker. Only its creation time is recorded
      (in the id order); it has no updatable field. */
  datatype SavedJob = SavedJob(jobSeekerId: Id, jobId: Id)

  /** The outcome of a route handler: a success status with its payload, an
      `{error}` reply with its status, or the validator's 400 `{errors}`
      reply listing the fields that failed, in the order the validators
      are declared. */
  datatype Reply<+T> = Ok(code: int, value: T) | Fail(code: int, error: string) | Invalid(fields: seq<string>) {
    function HttpStatus(): int {
      match this
      case Ok(c, _) => c
      case Fail(c, _) => c
      case Invalid(_) => 400
    }
  }

  const ServerError := "Server error"

  /** The fields of `obj` whose names are listed in `fields`: a
      projection (`select`) or an allow-list. */
  function Pick(obj: Object, fields: seq<string>): Object {
    map f | f in obj && f in fields :: obj[f]
  }

  /** Extending the list of names by one adds at most that field. */
  lemma PickExtend(obj: Object, fields: seq<string>, f: string)
    ensures Pick(obj, fields + [f]) == if f in obj then Pick(obj, fields)[f := obj[f]] else Pick(obj, fields)
  {
    var l := Pick(obj, fields + [f]);
    var r := if f in obj then Pick(obj, fields)[f := obj[f]] else Pick(obj, fields);
    assert forall g :: g in l <==> g in r;
  }

  /** A JavaScript integer as `String()` writes it. */
  function IntToString(n: int): (s: string)
    ensures |s| >= 1
  {
    if n < 0 then "-" + NatToString(-n) else NatToString(n)
  }

  /** Mongoose's cast of a value bound for a `String` path: a number or a
      boolean becomes its text, a string or null is left as it is, and an
      array cannot be cast. */
  function CastString(v: Value): (c: Option<Value>)
    ensures c.None? <==> v.Arr?
    ensures v.Str? || v.Null? ==> c == Some(v)
    ensures v.Num? || v.Bool? ==> c.Some? && RequiredString(c.value)
  {
    match v
    case Num(n) => Some(Str(IntToString(n)))
    case Bool(b) => Some(Str(if b then "true" else "false"))
    case Arr(_) => None
    case _ => Some(v)
  }

  /** An update as `findByIdAndUpdate` with `runValidators` stores it: the
      update is cast to the schema, then a fullName in it must be a
      non-empty string. None when that fails (null, "", an array); a
      number or a boolean fullName is stored as its text. */
  function ValidatedUpdate(updates: Object): (r: Option<Object>)
    ensures r.None? <==>
      "fullName" in updates && (updates["fullName"].Null? || updates["fullName"].Arr? || updates["fullName"] == Str(""))
    ensures r.Some? ==> r.value.Keys == updates.Keys
    ensures r.Some? ==> forall f | f in updates && f != "fullName" :: r.value[f] == updates[f]
    ensures r.Some? && "fullName" in updates ==>
      RequiredString(r.value["fullName"]) && Some(r.value["fullName"]) == CastString(updates["fullName"])
  {
    if "fullName" !in updates then Some(updates)
    else
      var c := CastString(updates["fullName"]);
      if c.Some? && RequiredString(c.value) then Some(updates["fullName" := c.value]) else None
  }

  /** A numeric fullName passes the validators and is stored as its text. */
  lemma NumericFullNameIsCast(updates: Object, n: int)
    requires "fullName" in updates && updates["fullName"] == Num(n)
    ensures ValidatedUpdate(updates) == Some(updates["fullName" := Str(IntToString(n))])
  {
  }

  /** A user as the caller sees themselves: everything but the password. */
  datatype SelfView = SelfView(id: Id, email: string, role: Role, profile: Object)

  function SelfOf(id: Id, u: User): SelfView {
    SelfView(id, u.email, u.role, u.profile)
  }
}
