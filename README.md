# Job board record store, in Dafny

This project models the rules of a job board's backend and a few pure helpers of its web client.

The backend is an Express server over a MongoDB database with four collections: users, jobs, applications and saved jobs. Three groups of people use it:

- job seekers apply to jobs, edit or withdraw their applications while they are pending, and bookmark jobs;
- employers post, edit and delete their own jobs, and read, rate, annotate and delete the applications to them;
- anyone can read the public job listing and the public profile search.

The store is the class `Records.Store`. It holds the four collections as maps from id to record and a counter that hands out ids. Its invariant `Valid` states the schemas' unique indexes (e-mail; job and seeker; seeker and job) and their required fields. Each route handler that changes the store is a method on a `Store`. Each read-only handler is a function of the maps. Every reply is a `Reply`: a success with its status and payload, a failure with its status and message, or 400 with the fields whose validators failed.

The client helpers are:

- the password-strength meter and the sign-up validator;
- the API base URL, endpoint and header construction, and the error message a failed request raises;
- the route guard;
- the requirements text area of the job editor;
- the salary, date, job-type and logo text of a job card;
- the status tabs of the application list.

The server's CORS origin rule is modelled too.

## Model

| member | source | states |
|---|---|---|
| Models.ParseRole | backend/src/models/User.ts:33 | a role string is accepted exactly when it names job_seeker, employer or admin |
| Models.ParseStatus | backend/src/models/Application.ts:17 | a status string is accepted exactly when it names pending, reviewed, accepted or rejected |
| Models.ParseJobType | backend/src/models/Job.ts:24 | a job type string is accepted exactly when it names one of the four types |
| Models.NewApplication | backend/src/models/Application.ts:14-17 | a new application references its job and seeker and takes the default status pending |
| Models.PickExtend | backend/src/routes/profiles.ts:31-35 | one step of the allow-list loop adds the field exactly when the body defines it |
| Models.CastString | backend/src/models/User.ts:32 | a number or a boolean bound for a String path becomes a non-empty string, a string or null is kept, and an array cannot be cast |
| Models.ValidatedUpdate | backend/src/routes/profiles.ts:37-41 | the cast update fails validation exactly when its fullName is null, "" or an array; otherwise it has the same keys, every other value unchanged, and a non-empty string fullName |
| Models.NumericFullNameIsCast | backend/src/routes/profiles.ts:37-41 | a numeric fullName passes the validators and is stored as its decimal text |
| Records.JobOwner | backend/src/routes/applications.ts:85 | dereferencing an application's job yields an owner exactly when the job still exists, and that owner is the job's employerId |
| Records.InsertUser | backend/src/models/User.ts:30-33 | adding a user with a fresh e-mail that passes the schema keeps e-mails unique and ids below the counter |
| Records.ReplaceUser | backend/src/models/User.ts:30-33 | rewriting a user with the same e-mail and a valid schema keeps the users invariant |
| Records.InsertJob | backend/src/models/Job.ts:20-25 | adding a job that passes the required validators keeps the jobs invariant |
| Records.ReplaceJob | backend/src/models/Job.ts:20-25 | rewriting a job with one that passes the validators keeps the jobs invariant |
| Records.InsertApplication | backend/src/models/Application.ts:26 | adding an application for a (job, seeker) pair not yet present keeps the pair unique |
| Records.ReplaceApplication | backend/src/models/Application.ts:26 | rewriting an application with the same job and seeker keeps the pair unique |
| Records.InsertSavedJob | backend/src/models/SavedJob.ts:19 | adding a saved entry for a (seeker, job) pair not yet present keeps the pair unique |
| Paging.NewestFirst | backend/src/routes/jobs.ts:20-22 | the listing holds exactly the matching records, each once, with strictly descending ids (newest first) |
| Paging.NewestFirstCount | backend/src/routes/jobs.ts:26 | the listing's length equals the number of matching records, which is what the count query returns |
| Paging.Window | backend/src/routes/jobs.ts:23-24 | skip then limit: at most `limit` items, exactly the ones after the skipped prefix |
| Paging.CeilDiv | backend/src/routes/jobs.ts:30 | the fewest pages of `limit` items that hold `total` items |
| Paging.WindowContains | backend/src/routes/jobs.ts:23-24 | the item at position k is on the page whose block of `limit` positions holds k |
| Paging.BlockWithinPages | backend/src/routes/jobs.ts:30 | a block that starts before the end of the results is within the reported page count |
| Paging.PagesCoverResults | backend/src/routes/jobs.ts:23-30 | every result appears on some page between 1 and totalPages |
| Paging.Paginate | backend/src/routes/jobs.ts:12-31 | defaults aside, limit 0 returns everything with no page count, page 0 with a positive limit is a 500, otherwise one page, the total of all matches, ceil(total/limit) pages and the requested page number |
| Paging.PageOfNewestFirst | backend/src/routes/jobs.ts:20-31 | a page of a newest-first listing holds only matches, still newest first, and its total counts every match |
| ApplicationRoutes.ApplyErrors | backend/src/routes/applications.ts:10-17 | validation passes exactly when the job id is an ObjectId, the trimmed cover letter is non-empty and the CV URL is a URL |
| ApplicationRoutes.Apply | backend/src/routes/applications.ts:14-43 | 400 with the failing fields; 404 unless the job exists and is active; 400 when the caller already applied; else 201 and exactly one new pending application with the caller as seeker; the store invariant is kept |
| ApplicationRoutes.MyApplications | backend/src/routes/applications.ts:51-62 | exactly the caller's applications, newest first |
| ApplicationRoutes.AddNote | backend/src/routes/applications.ts:73-94 | 404 for a missing application; 403 unless the job exists and the caller owns it (a deleted job fails closed); otherwise 200 with the stored application and no change to the store |
| ApplicationRoutes.ApplicantsFor | backend/src/routes/applications.ts:102-113 | 403 unless the caller owns a job with that id; otherwise exactly the applications to that job, newest first, with the job's title |
| ApplicationRoutes.SetStatus | backend/src/routes/applications.ts:121-143 | 400 for a status outside the four; 404 for a missing application; 500 when its job is gone; 403 for another owner's job; otherwise only `status` changes |
| ApplicationRoutes.EmployerDelete | backend/src/routes/applications.ts:151-162 | 404, 500 when the job is gone, 403 for another owner's job; otherwise exactly that application is removed, whatever its status |
| ApplicationRoutes.Withdraw | backend/src/routes/applications.ts:170-184 | 404 unless the caller owns the application; 403 once it is not pending; otherwise exactly that record is removed |
| ApplicationRoutes.EditOwn | backend/src/routes/applications.ts:191-212 | 404 unless the caller owns the application; 403 once it is not pending; otherwise only the trimmed cover letter and the CV URL change, with no validation |
| JobRoutes.ListJobs | backend/src/routes/jobs.ts:10-33 | the items are exactly the requested page of the newest-first list of active jobs that pass every given filter, and every match when the limit is 0; total counts all matches; at most `limit` items; ceil(total/limit) pages, or none when the limit is 0; the requested page number |
| JobRoutes.UnlimitedListingIsComplete | backend/src/routes/jobs.ts:14-23 | with limit 0 every active job that passes the filters is listed |
| JobRoutes.GetJob | backend/src/routes/jobs.ts:41-50 | any stored job, active or not, else 404 "Job not found" |
| JobRoutes.CreateErrors | backend/src/routes/jobs.ts:58-68 | validation passes exactly when title, description and location are non-empty once trimmed and the job type is one of the four |
| JobRoutes.NewJob | backend/src/routes/jobs.ts:59-75 | the stored job holds the body's data: title, description and location trimmed by the sanitizers, requirements, salaries, category and a given isActive copied; the employer is the caller whatever the body says; isActive defaults to true; the job passes the schema |
| JobRoutes.CreateJob | backend/src/routes/jobs.ts:58-78 | 400 with the failing fields and no change, or 201 and exactly one new job |
| JobRoutes.Patched | backend/src/routes/jobs.ts:94 | each of the ten keys the body carries, employerId and isActive included, replaces the job's value, and each key it leaves out keeps the job's value; an unknown job type makes the save fail |
| JobRoutes.EmptyPatchKeepsJob | backend/src/routes/jobs.ts:94 | an empty body leaves the job unchanged |
| JobRoutes.PatchCanTransferOwnership | backend/src/routes/jobs.ts:94 | a body naming another employerId hands the job to that employer |
| JobRoutes.UpdateJob | backend/src/routes/jobs.ts:86-97 | 404 "Job not found or unauthorized" unless the caller owns the job; 500 when the patched job fails validation; otherwise the patched job is stored |
| JobRoutes.DeleteJob | backend/src/routes/jobs.ts:105-113 | 404 unless the caller owns the job; otherwise exactly that job is removed |
| JobRoutes.MyJobs | backend/src/routes/jobs.ts:121-126 | exactly the caller's jobs, inactive ones included, newest first |
| SavedJobRoutes.CheckSaved | backend/src/routes/savedJobs.ts:65-72 | `isSaved` is true exactly when an entry for (caller, job) exists |
| SavedJobRoutes.SaveJob | backend/src/routes/savedJobs.ts:9-37 | 400 without a job id; 404 unless the job exists and is active; 400 when already saved; otherwise 201 and one new entry, after which the check answers true |
| SavedJobRoutes.ListSaved | backend/src/routes/savedJobs.ts:45-57 | exactly the caller's saved entries, newest first |
| SavedJobRoutes.RemoveSaved | backend/src/routes/savedJobs.ts:80-91 | 404 when nothing is saved; otherwise exactly the matching entry is deleted; afterwards the check answers false |
| ProfileRoutes.MeFieldsExcludeCredentials | backend/src/routes/profiles.ts:22-28 | the allow-list names neither email, role, password nor _id |
| ProfileRoutes.CollectUpdates | backend/src/routes/profiles.ts:30-35 | the loop collects exactly the allow-listed fields the body defines, with the body's values, and never a credential |
| ProfileRoutes.GetMe | backend/src/routes/profiles.ts:9-12 | 200 with the caller's account without the password, or with null when it is gone |
| ProfileRoutes.UpdateMe | backend/src/routes/profiles.ts:20-47 | 500 when the cast update fails validation; 404 when the account is gone; otherwise only allow-listed profile fields change, to their cast values |
| ProfileRoutes.UpdateMeKeepsCredentials | backend/src/routes/profiles.ts:22-41 | e-mail, role, password and every field off the allow-list keep their values |
| ProfileRoutes.PublicProfile | backend/src/routes/profiles.ts:55-63 | the account without password and e-mail, or 404 |
| ProfileRoutes.UserSearch | backend/src/routes/profiles.ts:85-97 | the card ids are exactly the requested page of the newest-first matching users, each card holding that user's selected fields; total counts every match; ceil(total/limit) pages, or none when the limit is 0 |
| ProfileRoutes.SkillList | backend/src/routes/profiles.ts:78 | one piece per part of the query split at commas, each that part trimmed: at least one piece, none holding a comma, each free of surrounding white space |
| ProfileRoutes.TrimPieces | backend/src/routes/profiles.ts:78 | each piece is its part trimmed; the count is kept and no comma comes in |
| ProfileRoutes.SearchSeekers | backend/src/routes/profiles.ts:71-98 | with the defaults page 1 and limit 10, the card ids are exactly the requested page of the newest-first job seekers with a wanted skill and a matching location; each card is that user's six card fields; ceil(total/limit) pages; the requested page number |
| ProfileRoutes.SearchEmployers | backend/src/routes/profiles.ts:106-133 | with the defaults page 1 and limit 10, the card ids are exactly the requested page of the newest-first employers with a matching industry and location; each card is that user's eight card fields; ceil(total/limit) pages; the requested page number |
| AuthRoutes.RegisterErrors | backend/src/routes/auth.ts:11-19 | validation passes exactly when the e-mail is valid, the password has at least 6 characters, the trimmed name is non-empty and the role is job_seeker or employer, never admin |
| AuthRoutes.NewUser | backend/src/routes/auth.ts:21-28 | the stored account has the normalised e-mail, the hash and never the password, the requested non-admin role and the trimmed name |
| AuthRoutes.Register | backend/src/routes/auth.ts:16-37 | 400 with the failing fields; 400 "User already exists" for a taken e-mail; otherwise 201 with a token and one new account; e-mails stay unique |
| AuthRoutes.LoginErrors | backend/src/routes/auth.ts:44-50 | validation passes exactly when the e-mail is valid and a password is present |
| AuthRoutes.FindByEmail | backend/src/routes/auth.ts:53 | finds an account with that e-mail, or reports that none has it |
| AuthRoutes.Login | backend/src/routes/auth.ts:47-65 | every failure after validation is the same 400 "Invalid credentials"; a success is an account with that e-mail whose password matches |
| AuthRoutes.LoginDecidedByPassword | backend/src/routes/auth.ts:53-57 | with unique e-mails, the right password signs in as that account and a wrong one gets the reply an unknown e-mail gets |
| AuthRoutes.GetProfile | backend/src/routes/auth.ts:72-79 | the caller's account without the password, or 404 |
| AuthRoutes.UpdateProfile | backend/src/routes/auth.ts:87-123 | only the ten named fields the body defines are set, to their cast values; 500 "Failed to update profile" when the cast update fails validation; 404 when the account is gone |
| AuthRoutes.ProfileSetKeepsOtherFields | backend/src/routes/auth.ts:93-114 | the update never sets email, role, password or _id, and a field the body leaves out keeps its value |
| Lifecycle.ApplyTwice | backend/src/routes/applications.ts:26-42 | a second application to the same job is refused with 400 and stores nothing |
| Lifecycle.ReviewThenWithdraw | backend/src/routes/applications.ts:140-180 | once the owner marks an application reviewed, its seeker's withdrawal is refused with 403 |
| Lifecycle.SaveThenRemove | backend/src/routes/savedJobs.ts:31-85 | saving then removing a job restores the saved-job collection and the check answers false |
| Lifecycle.DeleteJobThenSetStatus | backend/src/routes/applications.ts:135-146 | a deleted job leaves its applications behind, and a status update on one then fails with 500 |
| Cors.AllowedOrigins | backend/src/server.ts:19-23 | the two fixed frontends plus the configured URL when it is set and non-empty; no entry is empty |
| Cors.CheckOrigin | backend/src/server.ts:26-35 | allowed exactly when there is no origin or it is listed; otherwise "Not allowed by CORS" |
| Cors.OnlyConfiguredExtraOrigin | backend/src/server.ts:19-35 | an origin other than the fixed two is allowed exactly when it is the configured one |
| RegisterForm.Strength | frontend/src/pages/Register.tsx:28-36 | the score is between 0 and 5, 0 for an empty password, at least 1 for 6 or more characters |
| RegisterForm.StrengthGrowsWithAppend | frontend/src/pages/Register.tsx:30-34 | typing one more character never lowers the score |
| RegisterForm.StrengthLabel | frontend/src/pages/Register.tsx:38-40 | the caption and colour come from the six-entry tables, and the caption is "Empty" exactly when the score is 0 |
| RegisterForm.EmailShapeFacts | frontend/src/pages/Register.tsx:48 | an accepted e-mail has no white space, exactly one '@' with text before it, and a '.' after it with text on both sides |
| RegisterForm.Validate | frontend/src/pages/Register.tsx:46-53 | the form passes exactly when the e-mail has the shape, the password has at least 6 characters and matches the confirmation; each message is set exactly when its rule fails |
| RegisterForm.AcceptedPasswordIsNotEmpty | frontend/src/pages/Register.tsx:30-50 | a password the form accepts never shows "Empty" |
| ApiClient.StripTrailingSlash | frontend/src/integrations/api/client.ts:2 | at most one trailing '/' is removed |
| ApiClient.BaseUrl | frontend/src/integrations/api/client.ts:2-3 | the base always ends with "/api"; unset or empty gives the local default; a configured URL loses one trailing '/' and gains "/api" exactly when it does not already end with it |
| ApiClient.BaseUrlIdempotent | frontend/src/integrations/api/client.ts:2-3 | normalising a normalised base changes nothing |
| ApiClient.OneSlashStripped | frontend/src/integrations/api/client.ts:2-3 | only one slash is stripped: a base ending in "//" keeps one before "api" |
| ApiClient.CleanEndpoint | frontend/src/integrations/api/client.ts:14 | the endpoint starts with '/', and one already starting with '/' is unchanged |
| ApiClient.NoDoubleSlashAtJoin | frontend/src/integrations/api/client.ts:13-15 | the request URL `RequestUrl(BaseUrl(c), endpoint)` starts with the base, and where base and endpoint meet there is exactly one '/' unless the endpoint itself starts with "//" |
| ApiClient.Headers | frontend/src/integrations/api/client.ts:17-26 | JSON content type, and a bearer header exactly when a non-empty token is stored; headers passed by the caller replace them all |
| ApiClient.Friendly | frontend/src/integrations/api/client.ts:37-42 | "Failed to fetch" becomes the connection message; any other message is kept |
| ApiClient.ResponseErrorMessage | frontend/src/integrations/api/client.ts:31-42 | the body's error when present, "Network error" for an unreadable body, else "HTTP <status>" |
| RouteGuard.Guard | frontend/src/components/ProtectedRoute.tsx:14-32 | spinner while loading; the login redirect exactly when loaded without a user, carrying the requested path; home for a role outside a given list; the page exactly when not loading, a user is present and the role is admitted |
| EditJobForm.LoadRequirements | frontend/src/components/EditJob.tsx:44 | a list is joined with newlines, another value is passed through, a missing value becomes "" |
| EditJobForm.NonBlank | frontend/src/components/EditJob.tsx:65 | a line is kept, untrimmed, exactly when it is not blank once trimmed |
| EditJobForm.NonBlankConcat | frontend/src/components/EditJob.tsx:65 | dropping blank lines keeps the order: it distributes over concatenation |
| EditJobForm.NonBlankKeepsAll | frontend/src/components/EditJob.tsx:65 | lines that are all non-blank are kept as they are |
| EditJobForm.SubmitRequirements | frontend/src/components/EditJob.tsx:65 | the submitted list has no blank entry and no entry holding a newline |
| EditJobForm.RequirementsRoundTrip | frontend/src/components/EditJob.tsx:44-65 | loading then submitting gives the list back when no entry is blank or holds a newline |
| JobCards.FormatSalary | frontend/src/pages/Jobs.tsx:48-53 | "Competitive" exactly without a bound, a range with both, "From" with only a minimum, "Up to" with only a maximum; 0 counts as absent |
| JobCards.DiffDays | frontend/src/pages/Jobs.tsx:58-59 | 0 exactly for the same instant, otherwise the number of started days |
| JobCards.DiffDaysSymmetric | frontend/src/pages/Jobs.tsx:58 | past and future dates are treated alike |
| JobCards.DateLabel | frontend/src/pages/Jobs.tsx:61-65 | "Today" exactly at 0, "Yesterday" exactly at 1, then days, weeks (1 to 4) or months (at least 1) |
| JobCards.PostedLabel | frontend/src/pages/Jobs.tsx:55-66 | "Today" exactly at the creation instant, with the same bucket either way round |
| JobCards.ReplaceFirstAbsent | frontend/src/pages/Jobs.tsx:73 | a string without '_' is shown as it is |
| JobCards.ReplaceFirstAt | frontend/src/pages/Jobs.tsx:73 | only the first '_' is replaced; what follows it is left alone |
| JobCards.TypeLabel | frontend/src/pages/Jobs.tsx:73 | the four job types show as full-time, part-time, contract and internship |
| JobCards.LogoUrl | frontend/src/pages/Jobs.tsx:77 | the company logo when set, else the avatar URL seeded with the company name |
| ApplicationFilter.Filtered | frontend/src/pages/Application.tsx:48-50 | "all" shows everything; any other tab shows exactly the applications with that status; never longer than the input |
| ApplicationFilter.FilteredConcat | frontend/src/pages/Application.tsx:48-50 | filtering keeps the original order: it distributes over concatenation |
| ApplicationFilter.ReviewedOnlyUnderAll | frontend/src/pages/Application.tsx:66 | no offered tab other than "all" shows a reviewed application |

## Left out

- Password hashing, its comparison, token signing, the e-mail validator, the e-mail normaliser, the URL validator and the database's case-insensitive pattern match are library calls. They are function parameters (`hash`, `matches`, `sign`, `isEmail`, `normalize`, `isURL`, `like`); the model puts no condition on them.
- The authentication and role middleware (backend/src/middleware/auth.ts) is not part of this model. Its effect is a precondition: the caller is a stored user with the required role.
- Documents are identified by a counter, not an ObjectId. Newest first (`sort({ createdAt: -1 })`) is modelled as descending id order, because ids are handed out in creation order. Creation timestamps are not modelled.
- A malformed id in a path gives a cast error and a 500 in the source. The model's ids are always well formed, so that path is not modelled. A body `jobId` that is not an ObjectId is modelled: the apply validator reports it.
- Request bodies are typed in the model. Mongoose's casting of mistyped values (a number where a string is declared, say) is not modelled. The exception is the `/me` and profile updates: their bodies are untyped JSON objects, and fullName's cast and validator are modelled.
- ListJobs, SearchSeekers, SearchEmployers: page and limit are natural numbers. The source reads them with `Number()`, so a negative, fractional or non-numeric query value reaches the database (a negative limit gives a negative totalPages, "abc" gives NaN). Those values are not modelled.
- `populate` is modelled only as a lookup of the referenced job, which may be missing. The embedded employer fields of the replies are left out.
- Two requests running at once are not modelled. That includes the race in which both pass the duplicate check, and the unique index that would then refuse the second insert. Uniqueness is instead an invariant that every handler keeps.
- An express-validator `trim` rewrites the body field it checks, even on the seeker edit route, which never reads the validation result. The model stores the trimmed cover letter there.
- `Models.ValidatedUpdate`: the update is cast and validated before the lookup. So an update whose fullName is null, empty or an array fails with 500 even for a missing account. A number or a boolean fullName is cast to its text and stored.
- UpdateMe and UpdateProfile: only fullName's cast is modelled. The other String paths are stored as the body sends them, where Mongoose would cast a number to its text or refuse an array with 500.
- AuthRoutes.UpdateProfile: keys the body leaves undefined are dropped from the `$set`, which is Mongoose 6 and later behaviour.
- ProfileRoutes.CollectUpdates: the allow-list in backend/src/routes/profiles.ts:22-28 has fifteen names, and the model uses those fifteen.
- `toLocaleString` number formatting in the salary text is the parameter `show`. `Date` parsing and the clock are replaced by millisecond numbers.
- Strings are sequences of characters. The sign-up form's `password.length` counts UTF-16 code units, so its length checks can differ for characters outside the Basic Multilingual Plane.
- EditJobForm.LoadRequirements: a stored non-list value that is falsy but not missing (0, false) becomes "" in the source. The model only distinguishes a list, a string and a missing value.
- The network half of the client is not modelled: `fetch`, JSON parsing and `localStorage`.
- The rest of the server is not modelled: database connection, helmet, rate limiting and `listen`.
- React state, toasts and navigation are not modelled.
