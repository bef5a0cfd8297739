/** Accounts (backend/src/routes/auth.ts): registration, login, and the
    caller's own profile. Hashing, token signing and the e-mail validator
    and normaliser are library calls; they are parameters here. */
module AuthRoutes {
  import opened Wrappers
  import opened Models
  import opened Text
  import opened Records

  /** Body of `POST /auth/register`. */
  datatype RegisterBody = RegisterBody(email: string, password: string, fullName: string, role: string)

  /** The fields whose validators fail, in declaration order. Self-service
      registration offers only the seeker and employer roles. */
  function RegisterErrors(b: RegisterBody, isEmail: string -> bool): (fields: seq<string>)
    ensures fields == [] <==>
      isEmail(b.email) && |b.password| >= 6 && Trim(b.fullName) != ""
      && (b.role == "job_seeker" || b.role == "employer")
    ensures fields == [] ==> ParseRole(b.role).Some? && ParseRole(b.role).value != Admin
  {
    (if isEmail(b.email) then [] else ["email"])
    + (if |b.password| >= 6 then [] else ["password"])
    + (if Trim(b.fullName) != "" then [] else ["fullName"])
    + (if b.role == "job_seeker" || b.role == "employer" then [] else ["role"])
  }

  /** The account registration creates: the normalised e-mail, the hash of
      the password (never the password itself), the trimmed name. */
  function NewUser(b: RegisterBody, isEmail: string -> bool, normalize: string -> string, hash: string -> string): (u: User)
    requires RegisterErrors(b, isEmail) == []
    ensures u.email == normalize(b.email) && u.password == hash(b.password)
    ensures u.role != Admin && RoleName(u.role) == b.role
    ensures u.profile == map["fullName" := Str(Trim(b.fullName))]
  {
    User(normalize(b.email), hash(b.password), ParseRole(b.role).value, map["fullName" := Str(Trim(b.fullName))])
  }

  /** The `user` object of the register and login replies. */
  datatype AuthUser = AuthUser(id: Id, email: string, fullName: Value, role: Role)

  /** A register or login reply: a signed token and the user summary. */
  datatype Session = Session(token: string, user: AuthUser)

  function SessionFor(id: Id, u: User, sign: Id -> string): Session {
    Session(sign(id), AuthUser(id, u.email, if "fullName" in u.profile then u.profile["fullName"] else Null, u.role))
  }

  /** `POST /auth/register`: 400 with the failing fields; 400 when the
      normalised e-mail is taken; 500 when the account fails schema
      validation on save; otherwise 201 with a token for the new account. */
  method Register(db: Store, b: RegisterBody, isEmail: string -> bool, normalize: string -> string,
                  hash: string -> string, sign: Id -> string) returns (r: Reply<Session>)
    requires db.Valid()
    modifies db`users, db`nextId
    ensures db.Valid()
    ensures RegisterErrors(b, isEmail) != [] ==> r == Invalid(RegisterErrors(b, isEmail))
    ensures RegisterErrors(b, isEmail) == [] && EmailTaken(old(db.users), normalize(b.email)) ==>
      r == Fail(400, "User already exists")
    ensures (RegisterErrors(b, isEmail) == [] && !EmailTaken(old(db.users), normalize(b.email))
             && !UserSchemaOk(NewUser(b, isEmail, normalize, hash))) ==> r == Fail(500, ServerError)
    ensures r.Ok? <==> (RegisterErrors(b, isEmail) == [] && !EmailTaken(old(db.users), normalize(b.email))
                        && UserSchemaOk(NewUser(b, isEmail, normalize, hash)))
    ensures r.Ok? ==>
      && db.users == old(db.users)[old(db.nextId) := NewUser(b, isEmail, normalize, hash)]
      && db.nextId == old(db.nextId) + 1
      && r == Ok(201, SessionFor(old(db.nextId), NewUser(b, isEmail, normalize, hash), sign))
    ensures !r.Ok? ==> db.users == old(db.users) && db.nextId == old(db.nextId)
  {
    var errors := RegisterErrors(b, isEmail);
    if errors != [] {
      return Invalid(errors);
    }
    if EmailTaken(db.users, normalize(b.email)) {
      return Fail(400, "User already exists");
    }
    var u := NewUser(b, isEmail, normalize, hash);
    if !UserSchemaOk(u) {
      return Fail(500, ServerError);
    }
    var id := db.nextId;
    CounterAdvance(db.users, db.jobs, db.applications, db.savedJobs, db.nextId);
    InsertUser(db.users, id, u);
    db.users := db.users[id := u];
    db.nextId := db.nextId + 1;
    r := Ok(201, SessionFor(id, u, sign));
  }

  /** Body of `POST /auth/login`; the password may be missing. */
  datatype LoginBody = LoginBody(email: string, password: Option<string>)

  function LoginErrors(b: LoginBody, isEmail: string -> bool): (fields: seq<string>)
    ensures fields == [] <==> isEmail(b.email) && b.password.Some?
  {
    (if isEmail(b.email) then [] else ["email"]) + (if b.password.Some? then [] else ["password"])
  }

  /** The account whose e-mail is `email`, scanning ids below `bound`. */
  function FindByEmail(users: map<Id, User>, bound: nat, email: string): (found: Option<Id>)
    ensures found.Some? ==> found.value in users && users[found.value].email == email
    ensures found.None? ==> forall id | id in users && id < bound :: users[id].email != email
    decreases bound
  {
    if bound == 0 then None
    else
      var prev := FindByEmail(users, bound - 1, email);
      if prev.Some? then prev
      else if bound - 1 in users && users[bound - 1].email == email then Some(bound - 1)
      else None
  }

  /** `POST /auth/login` over a store whose ids are below `bound`: an
      unknown e-mail and a wrong password get the same 400 reply;
      `matches` is the hash comparison. */
  function Login(users: map<Id, User>, bound: nat, b: LoginBody, isEmail: string -> bool,
                 normalize: string -> string, matches: (string, string) -> bool, sign: Id -> string): (r: Reply<Session>)
    ensures LoginErrors(b, isEmail) != [] ==> r == Invalid(LoginErrors(b, isEmail))
    ensures (LoginErrors(b, isEmail) == [] && KeysBelow(users, bound)
             && !EmailTaken(users, normalize(b.email))) ==> r == Fail(400, "Invalid credentials")
    ensures r.Fail? ==> r == Fail(400, "Invalid credentials")
    ensures r.Ok? ==> (r.code == 200 && b.password.Some? &&
                       exists id | id in users :: users[id].email == normalize(b.email)
                         && matches(b.password.value, users[id].password) && r.value == SessionFor(id, users[id], sign))
  {
    if LoginErrors(b, isEmail) != [] then Invalid(LoginErrors(b, isEmail))
    else
      var found := FindByEmail(users, bound, normalize(b.email));
      if found.None? then Fail(400, "Invalid credentials")
      else if !matches(b.password.value, users[found.value].password) then Fail(400, "Invalid credentials")
      else Ok(200, SessionFor(found.value, users[found.value], sign))
  }

  /** With unique e-mails, the stored password decides a login: the right
      password signs in as that account, a wrong one is refused with the
      same reply as an unknown e-mail. */
  lemma {:induction false} LoginDecidedByPassword(users: map<Id, User>, bound: nat, b: LoginBody, isEmail: string -> bool,
                                                normalize: string -> string, matches: (string, string) -> bool,
                                                sign: Id -> string, id: Id)
    requires KeysBelow(users, bound) && UniqueEmails(users)
    requires LoginErrors(b, isEmail) == []
    requires id in users && users[id].email == normalize(b.email)
    ensures matches(b.password.value, users[id].password) ==>
      Login(users, bound, b, isEmail, normalize, matches, sign) == Ok(200, SessionFor(id, users[id], sign))
    ensures !matches(b.password.value, users[id].password) ==>
      Login(users, bound, b, isEmail, normalize, matches, sign) == Fail(400, "Invalid credentials")
  {
    var found := FindByEmail(users, bound, normalize(b.email));
    if found.Some? {
      assert found.value == id;
    }
  }

  /** `GET /auth/profile`: the caller's account without the password, or 404. */
  function GetProfile(users: map<Id, User>, caller: Id): (r: Reply<SelfView>)
    ensures r.Ok? <==> caller in users
    ensures !r.Ok? ==> r == Fail(404, "User not found")
    ensures r.Ok? ==> r == Ok(200, SelfOf(caller, users[caller]))
  {
    if caller in users then Ok(200, SelfOf(caller, users[caller])) else Fail(404, "User not found")
  }

  /** The ten names `PUT /auth/profile` copies into its `$set`. */
  const ProfileSetFields: seq<string> := [
    "fullName", "bio", "location", "phone",
    "companyName", "companyDescription", "companyWebsite", "companyLogo",
    "industry", "companySize"]

  /** `PUT /auth/profile`: only the ten listed names are set (absent ones
      are dropped from the `$set`, never cleared); 500 "Failed to update
      profile" when the update fails validation, 404 when the account is
      gone. */
  method UpdateProfile(db: Store, caller: Id, body: Object) returns (r: Reply<SelfView>)
    requires db.Valid()
    modifies db`users
    ensures db.Valid()
    ensures ValidatedUpdate(Pick(body, ProfileSetFields)).None? ==> r == Fail(500, "Failed to update profile")
    ensures ValidatedUpdate(Pick(body, ProfileSetFields)).Some? && caller !in old(db.users) ==> r == Fail(404, "User not found")
    ensures r.Ok? <==> ValidatedUpdate(Pick(body, ProfileSetFields)).Some? && caller in old(db.users)
    ensures r.Ok? ==>
      && db.users == old(db.users)[caller := old(db.users)[caller].(profile := old(db.users)[caller].profile + ValidatedUpdate(Pick(body, ProfileSetFields)).value)]
      && r == Ok(200, SelfOf(caller, db.users[caller]))
    ensures !r.Ok? ==> db.users == old(db.users)
  {
    var validated := ValidatedUpdate(Pick(body, ProfileSetFields));
    if validated.None? {
      return Fail(500, "Failed to update profile");
    }
    if caller !in db.users {
      return Fail(404, "User not found");
    }
    var u := db.users[caller];
    var updated := u.(profile := u.profile + validated.value);
    ReplaceUser(db.users, db.nextId, caller, updated);
    db.users := db.users[caller := updated];
    r := Ok(200, SelfOf(caller, updated));
  }

  /** The `$set` never touches an account's credentials or identity, and a
      profile field the body leaves out keeps its value. */
  lemma {:induction false} ProfileSetKeepsOtherFields(profile: Object, body: Object)
    requires ValidatedUpdate(Pick(body, ProfileSetFields)).Some?
    ensures "email" !in Pick(body, ProfileSetFields) && "role" !in Pick(body, ProfileSetFields)
    ensures "password" !in Pick(body, ProfileSetFields) && "_id" !in Pick(body, ProfileSetFields)
    ensures forall f | f in profile && f !in body ::
      (profile + ValidatedUpdate(Pick(body, ProfileSetFields)).value)[f] == profile[f]
  {
    assert "email" !in ProfileSetFields && "role" !in ProfileSetFields;
    assert "password" !in ProfileSetFields && "_id" !in ProfileSetFields;
  }
}
