/** Profiles (backend/src/routes/profiles.ts): the caller's own profile,
    its allow-listed update, public profiles, and the two public directory
    searches. */
module ProfileRoutes {
  import opened Wrappers
  import opened Models
  import opened Text
  import opened Records
  import opened Paging

  /** The names `PUT /profiles/me` accepts: the shared, the seeker and the
      employer profile fields. Email, role and password are not among them. */
  const MeFields: seq<string> := [
    "fullName", "avatarUrl",
    "bio", "skills", "education", "experience", "cvUrl", "phone", "location",
    "companyName", "companyDescription", "companyLogo", "companyWebsite", "industry", "companySize"]

  /** No credential is an accepted name. */
  lemma MeFieldsExcludeCredentials()
    ensures "email" !in MeFields && "role" !in MeFields && "password" !in MeFields && "_id" !in MeFields
  {
  }

  /** The loop that builds the update of `PUT /profiles/me`: every accepted
      name the body defines, with the body's value. */
  method CollectUpdates(body: Object) returns (updates: Object)
    ensures updates == Pick(body, MeFields)
    ensures forall f | f in updates :: f in MeFields && f in body && updates[f] == body[f]
    ensures forall f | f in MeFields && f in body :: f in updates
    ensures "email" !in updates && "role" !in updates && "password" !in updates && "_id" !in updates
  {
    updates := map[];
    var i := 0;
    while i < |MeFields|
      invariant 0 <= i <= |MeFields|
      invariant updates == Pick(body, MeFields[..i])
    {
      var f := MeFields[i];
      assert MeFields[..i + 1] == MeFields[..i] + [f];
      PickExtend(body, MeFields[..i], f);
      if f in body {
        updates := updates[f := body[f]];
      }
      i := i + 1;
    }
    assert MeFields[..i] == MeFields;
    MeFieldsExcludeCredentials();
  }

  /** `GET /profiles/me`: 200 whether or not the account still exists; the
      body's user is null when it does not. */
  function GetMe(users: map<Id, User>, caller: Id): (r: Reply<Option<SelfView>>)
    ensures r.Ok? && r.code == 200
    ensures r.value.Some? <==> caller in users
    ensures r.value.Some? ==> r.value.value == SelfOf(caller, users[caller])
  {
    Ok(200, if caller in users then Some(SelfOf(caller, users[caller])) else None)
  }

  /** `PUT /profiles/me`: 500 when the update fails validation, 404 when
      the account is gone; otherwise the accepted fields overwrite the
      profile and nothing else about the user changes. */
  method UpdateMe(db: Store, caller: Id, body: Object) returns (r: Reply<SelfView>)
    requires db.Valid()
    modifies db`users
    ensures db.Valid()
    ensures ValidatedUpdate(Pick(body, MeFields)).None? ==> r == Fail(500, ServerError)
    ensures ValidatedUpdate(Pick(body, MeFields)).Some? && caller !in old(db.users) ==> r == Fail(404, "User not found")
    ensures r.Ok? <==> ValidatedUpdate(Pick(body, MeFields)).Some? && caller in old(db.users)
    ensures r.Ok? ==>
      && db.users == old(db.users)[caller := old(db.users)[caller].(profile := old(db.users)[caller].profile + ValidatedUpdate(Pick(body, MeFields)).value)]
      && r == Ok(200, SelfOf(caller, db.users[caller]))
    ensures !r.Ok? ==> db.users == old(db.users)
  {
    var updates := CollectUpdates(body);
    var validated := ValidatedUpdate(updates);
    if validated.None? {
      return Fail(500, ServerError);
    }
    if caller !in db.users {
      return Fail(404, "User not found");
    }
    var u := db.users[caller];
    var updated := u.(profile := u.profile + validated.value);
    ReplaceUser(db.users, db.nextId, caller, updated);
    db.users := db.users[caller := updated];
    r := Ok(200, SelfOf(caller, updated));
  }

  /** Updating one's profile never changes an email, a role or a password. */
  lemma {:induction false} UpdateMeKeepsCredentials(users: map<Id, User>, caller: Id, body: Object)
    requires caller in users && ValidatedUpdate(Pick(body, MeFields)).Some?
    ensures var u := users[caller].(profile := users[caller].profile + ValidatedUpdate(Pick(body, MeFields)).value);
      u.email == users[caller].email && u.role == users[caller].role && u.password == users[caller].password
      && (forall f | f in u.profile && f !in MeFields :: u.profile[f] == users[caller].profile[f])
  {
  }

  /** A user as anyone may see them: no password and no email. */
  datatype PublicView = PublicView(id: Id, role: Role, profile: Object)

  /** `GET /profiles/:id`: a public profile, or 404. */
  function PublicProfile(users: map<Id, User>, id: Id): (r: Reply<PublicView>)
    ensures r.Ok? <==> id in users
    ensures !r.Ok? ==> r == Fail(404, "User not found")
    ensures r.Ok? ==> (r.code == 200 && r.value.id == id && r.value.role == users[id].role
                       && r.value.profile == users[id].profile)
  {
    if id in users then Ok(200, PublicView(id, users[id].role, users[id].profile))
    else Fail(404, "User not found")
  }

  /** One search hit: the id and the selected profile fields. */
  datatype Card = Card(id: Id, fields: Object)

  function CardsOf(users: map<Id, User>, ids: seq<Id>, fields: seq<string>): (cards: seq<Card>)
    requires forall i | 0 <= i < |ids| :: ids[i] in users
  {
    seq(|ids|, i requires 0 <= i < |ids| => Card(ids[i], Pick(users[ids[i]].profile, fields)))
  }

  /** The ids of a page of cards, in order. */
  function CardIds(cards: seq<Card>): (ids: seq<Id>)
    ensures |ids| == |cards|
    ensures forall i | 0 <= i < |cards| :: ids[i] == cards[i].id
  {
    seq(|cards|, i requires 0 <= i < |cards| => cards[i].id)
  }

  /** A directory search: the users `keep` accepts, newest first, paged,
      each shown through the projection `fields`. */
  function UserSearch(users: map<Id, User>, bound: nat, keep: User -> bool, fields: seq<string>, page: nat, limit: nat): (r: Reply<PageResult<Card>>)
    ensures r.Ok? <==> limit == 0 || page >= 1
    ensures r.Fail? ==> r == Fail(500, ServerError)
    ensures r.Ok? ==> r.code == 200 && r.value.currentPage == page && r.value.total == |Matching(users, keep, bound)|
    ensures r.Ok? ==> CardIds(r.value.items) == PageOf(NewestFirst(users, keep, bound), page, limit)
    ensures r.Ok? ==> forall i | 0 <= i < |r.value.items| ::
      var c := r.value.items[i];
      c.id in users && keep(users[c.id]) && c.fields == Pick(users[c.id].profile, fields)
    ensures r.Ok? ==> forall i, j | 0 <= i < j < |r.value.items| :: r.value.items[i].id > r.value.items[j].id
    ensures r.Ok? && limit > 0 ==> |r.value.items| <= limit && r.value.totalPages == Some(CeilDiv(r.value.total, limit))
    ensures r.Ok? && limit == 0 ==> r.value.totalPages == None
  {
    var ids := Paginate(NewestFirst(users, keep, bound), page, limit);
    if ids.Fail? then Fail(500, ServerError)
    else
      PageOfNewestFirst(users, keep, bound, page, limit);
      CardsOfPage(users, keep, ids.value.items, fields);
      Ok(200, PageResult(CardsOf(users, ids.value.items, fields), ids.value.totalPages, page, ids.value.total))
  }

  /** The cards of a newest-first run of matching ids keep the ids, their
      order and the matches, each showing the selected fields. */
  lemma CardsOfPage(users: map<Id, User>, keep: User -> bool, ids: seq<Id>, fields: seq<string>)
    requires forall i | 0 <= i < |ids| :: ids[i] in users && keep(users[ids[i]])
    requires forall i, j | 0 <= i < j < |ids| :: ids[i] > ids[j]
    ensures var cards := CardsOf(users, ids, fields);
      && CardIds(cards) == ids
      && (forall i | 0 <= i < |cards| ::
            cards[i].id in users && keep(users[cards[i].id]) && cards[i].fields == Pick(users[cards[i].id].profile, fields))
      && (forall i, j | 0 <= i < j < |cards| :: cards[i].id > cards[j].id)
  {
    var cards := CardsOf(users, ids, fields);
    assert CardIds(cards) == ids;
  }

  /** `field` holds a string that the pattern matches. */
  predicate FieldLike(profile: Object, field: string, pattern: string, like: (string, string) -> bool) {
    field in profile && profile[field].Str? && like(pattern, profile[field].s)
  }

  /** The skills of the seeker search: the query split at commas, each
      piece trimmed. */
  function SkillList(skills: string): (wanted: seq<string>)
    ensures |wanted| == |Split(skills, ',')| >= 1
    ensures forall i | 0 <= i < |wanted| :: wanted[i] == Trim(Split(skills, ',')[i])
    ensures forall i | 0 <= i < |wanted| :: ',' !in wanted[i]
    ensures forall i | 0 <= i < |wanted| && wanted[i] != [] ::
      !IsSpace(wanted[i][0]) && !IsSpace(wanted[i][|wanted[i]| - 1])
  {
    TrimPieces(Split(skills, ','))
  }

  /** Each piece of a comma split, trimmed. */
  function TrimPieces(parts: seq<string>): (trimmed: seq<string>)
    requires forall i | 0 <= i < |parts| :: ',' !in parts[i]
    ensures |trimmed| == |parts|
    ensures forall i | 0 <= i < |parts| :: trimmed[i] == Trim(parts[i])
    ensures forall i | 0 <= i < |trimmed| :: ',' !in trimmed[i]
    ensures forall i | 0 <= i < |trimmed| && trimmed[i] != [] ::
      !IsSpace(trimmed[i][0]) && !IsSpace(trimmed[i][|trimmed[i]| - 1])
  {
    if parts == [] then []
    else
      TrimKeepsOut(parts[0], ',');
      [Trim(parts[0])] + TrimPieces(parts[1..])
  }

  /** The `$in` condition on the skills array: some listed skill is wanted. */
  predicate HasSkillIn(profile: Object, wanted: seq<string>) {
    "skills" in profile && profile["skills"].Arr?
    && exists k | 0 <= k < |profile["skills"].items| ::
         profile["skills"].items[k].Str? && profile["skills"].items[k].s in wanted
  }

  /** Query of `GET /profiles/job-seekers/search`; "" is an absent filter. */
  datatype SeekerQuery = SeekerQuery(skills: string, location: string, page: Option<nat>, limit: Option<nat>)

  predicate SeekerMatch(u: User, q: SeekerQuery, like: (string, string) -> bool) {
    && u.role == JobSeeker
    && (q.skills != "" ==> HasSkillIn(u.profile, SkillList(q.skills)))
    && (q.location != "" ==> FieldLike(u.profile, "location", q.location, like))
  }

  function SeekerFilter(q: SeekerQuery, like: (string, string) -> bool): User -> bool {
    (u: User) => SeekerMatch(u, q, like)
  }

  const SeekerCardFields: seq<string> := ["fullName", "bio", "skills", "location", "avatarUrl", "cvUrl"]

  /** `GET /profiles/job-seekers/search`: only job seekers that satisfy the
      filters, showing only the six card fields. */
  function SearchSeekers(users: map<Id, User>, bound: nat, q: SeekerQuery, like: (string, string) -> bool): (r: Reply<PageResult<Card>>)
    ensures r.Ok? <==> q.limit.GetOr(DefaultLimit) == 0 || q.page.GetOr(DefaultPage) >= 1
    ensures r.Ok? ==> r.value.total == |Matching(users, SeekerFilter(q, like), bound)|
    ensures r.Ok? ==> r.value.currentPage == q.page.GetOr(DefaultPage)
    ensures r.Ok? ==>
      CardIds(r.value.items) == PageOf(NewestFirst(users, SeekerFilter(q, like), bound), q.page.GetOr(DefaultPage), q.limit.GetOr(DefaultLimit))
    ensures r.Ok? ==> forall i | 0 <= i < |r.value.items| ::
      var c := r.value.items[i];
      && c.id in users && users[c.id].role == JobSeeker && SeekerMatch(users[c.id], q, like)
      && c.fields == Pick(users[c.id].profile, SeekerCardFields)
      && (forall f | f in c.fields :: f in SeekerCardFields)
    ensures r.Ok? ==> forall i, j | 0 <= i < j < |r.value.items| :: r.value.items[i].id > r.value.items[j].id
    ensures r.Ok? && q.limit.GetOr(DefaultLimit) > 0 ==>
      |r.value.items| <= q.limit.GetOr(DefaultLimit)
      && r.value.totalPages == Some(CeilDiv(r.value.total, q.limit.GetOr(DefaultLimit)))
    ensures r.Ok? && q.limit.GetOr(DefaultLimit) == 0 ==> r.value.totalPages == None
  {
    UserSearch(users, bound, SeekerFilter(q, like), SeekerCardFields, q.page.GetOr(DefaultPage), q.limit.GetOr(DefaultLimit))
  }

  /** Query of `GET /profiles/employers/search`; "" is an absent filter. */
  datatype EmployerQuery = EmployerQuery(industry: string, location: string, page: Option<nat>, limit: Option<nat>)

  predicate EmployerMatch(u: User, q: EmployerQuery, like: (string, string) -> bool) {
    && u.role == Employer
    && (q.industry != "" ==> FieldLike(u.profile, "industry", q.industry, like))
    && (q.location != "" ==> FieldLike(u.profile, "location", q.location, like))
  }

  function EmployerFilter(q: EmployerQuery, like: (string, string) -> bool): User -> bool {
    (u: User) => EmployerMatch(u, q, like)
  }

  const EmployerCardFields: seq<string> := [
    "fullName", "companyName", "companyDescription", "companyLogo", "companyWebsite", "industry", "companySize", "location"]

  /** `GET /profiles/employers/search`: only employers that satisfy the
      filters, showing only the eight company card fields. */
  function SearchEmployers(users: map<Id, User>, bound: nat, q: EmployerQuery, like: (string, string) -> bool): (r: Reply<PageResult<Card>>)
    ensures r.Ok? <==> q.limit.GetOr(DefaultLimit) == 0 || q.page.GetOr(DefaultPage) >= 1
    ensures r.Ok? ==> r.value.total == |Matching(users, EmployerFilter(q, like), bound)|
    ensures r.Ok? ==> r.value.currentPage == q.page.GetOr(DefaultPage)
    ensures r.Ok? ==>
      CardIds(r.value.items) == PageOf(NewestFirst(users, EmployerFilter(q, like), bound), q.page.GetOr(DefaultPage), q.limit.GetOr(DefaultLimit))
    ensures r.Ok? ==> forall i | 0 <= i < |r.value.items| ::
      var c := r.value.items[i];
      && c.id in users && users[c.id].role == Employer && EmployerMatch(users[c.id], q, like)
      && c.fields == Pick(users[c.id].profile, EmployerCardFields)
      && (forall f | f in c.fields :: f in EmployerCardFields)
    ensures r.Ok? ==> forall i, j | 0 <= i < j < |r.value.items| :: r.value.items[i].id > r.value.items[j].id
    ensures r.Ok? && q.limit.GetOr(DefaultLimit) > 0 ==>
      |r.value.items| <= q.limit.GetOr(DefaultLimit)
      && r.value.totalPages == Some(CeilDiv(r.value.total, q.limit.GetOr(DefaultLimit)))
    ensures r.Ok? && q.limit.GetOr(DefaultLimit) == 0 ==> r.value.totalPages == None
  {
    UserSearch(users, bound, EmployerFilter(q, like), EmployerCardFields, q.page.GetOr(DefaultPage), q.limit.GetOr(DefaultLimit))
  }
}
