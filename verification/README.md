# Job application tracker — verified model of the backend core

This project models the server core of a job-application tracker in Dafny:

- **Application store.** Every read, update and delete is scoped to the signed-in account. Create forces the owner.
- **List route.** It filters, sorts and pages the caller's records and reports a pagination block.
- **Statistics.** Per-status counts, a status breakdown, and monthly buckets of applied dates.
- **Schemas.** The application and account schemas: required fields, closed enums, defaults, a lowercased email, and the `fullName` virtual.
- **Sign-in.** The OAuth verify callbacks resolve a provider profile to an account. They find it by provider id, else find it by email and link it, else create it. The session stores and reloads the account id.
- **Account routes.** They shallow-merge profile and preferences patches, and replace the names behind a guard.
- **Errors and guards.** The central error handler that maps errors to HTTP statuses, `asyncHandler`, and the authentication guards.

Modules, one per source file (plus shared helpers):

| file | module | models |
|---|---|---|
| wrappers.dfy | Wrappers | `Option`, `Result` |
| text.dfy | Text | ASCII `toLowerCase`, `join`, `split(' ')`, code-point string order |
| error_handler.dfy | ErrorHandler | `createError`, `errorHandler`, `asyncHandler` |
| auth.dfy | Auth | `requireAuth`, `requireAuthOptional`, a guarded route |
| validation.dfy | Validation | required-path validator, `ValidationError` |
| job_application.dfy | JobApplication | application schema, create-time build, update-time `$set` |
| application_queries.dfy | ApplicationQueries | list (filter, sort, page) and stats |
| application_routes.dfy | ApplicationRoutes | class `ApplicationStore`: get, create, update, delete |
| user_model.dfy | UserModel | account schema, `findOne`, class `AccountStore` |
| passport.dfy | Passport | verify callbacks, session serialisation |
| user_routes.dfy | UserRoutes | GET/PUT /profile, PUT /info |

The database is an abstract table:

- **Application collection.** `map<nat, Application>` keyed by id, with ids below a counter.
- **Account collection.** `seq<User>` where an account's id is its position; the code never deletes accounts.
- **Database filters.** Each filter becomes a predicate, and `countDocuments` becomes the size of a set comprehension.
- **Environment.** The clock is a `now: nat` parameter. The runtime mode (`NODE_ENV === 'development'`) is a `development: bool` parameter.

## Model

| member | source | states |
|---|---|---|
| ErrorHandler.CreateError | backend/dist/middleware/errorHandler.js:4-9 | the error carries the given message and status and is operational; it is none of the kinds the handler rewrites |
| ErrorHandler.Classify | backend/dist/middleware/errorHandler.js:11-46 | status defaults to 500 and the message passes through for ordinary errors; ValidationError gives 400 and the joined field messages; code 11000 gives 400 "<field> already exists"; the two JWT errors give 401 "Invalid token" / "Token expired"; later rules win; success is false; the stack is present exactly in development mode |
| ErrorHandler.OperationalErrorPassesThrough | backend/dist/middleware/errorHandler.js:4-12 | an error made by createError keeps its status and message through the handler |
| ErrorHandler.AsyncHandler | backend/dist/middleware/errorHandler.js:48-50 | `next` receives an error exactly when the handler rejects, and it is the rejection reason |
| Auth.RequireAuth | backend/src/middleware/auth.ts:8-17 | calls next exactly when a user is present; otherwise throws the operational 401 "Authentication required" |
| Auth.OptionalGuardRunsHandler | backend/src/middleware/auth.ts:19-26 | a route behind requireAuthOptional replies to every caller, anonymous ones included, with its handler's resolved status and payload or with the classified rejection |
| Auth.AnonymousOnlyPassesOptionalGuard | backend/src/middleware/auth.ts:8-26 | for an anonymous caller whose handler resolves, the optional guard sends the reply while requireAuth answers 401 |
| Auth.UnauthenticatedIs401 | backend/src/middleware/auth.ts:13-15 | every guarded route answers 401 "Authentication required" without a session, whatever its handler |
| Auth.AuthenticatedRunsHandler | backend/dist/middleware/errorHandler.js:48-50 | with a session, a guarded route replies with its handler's result or with the classified rejection |
| Auth.Protected | backend/src/middleware/auth.ts:8-17 | a route composed of requireAuth and asyncHandler sends data only for a signed-in caller whose handler resolved with it; without a session it fails with the classified 401; every failure reply has success false |
| Text.Lower | backend/src/models/User.ts:39-44 | lowercasing keeps the length, maps each character, and leaves no upper-case letter |
| Text.LowerIdempotent | backend/src/models/User.ts:43 | lowercasing twice equals lowercasing once |
| Text.SplitOnSpace | backend/src/config/passport.ts:104-105 | a string with k spaces splits into k+1 pieces, none holding a space |
| Text.JoinSplit | backend/src/config/passport.ts:104-105 | joining the pieces of a split with a space gives back the string |
| Text.StrCmpTransitive | backend/src/routes/application.ts:18 | the string order used by sorting is transitive (with StrCmpZero and StrCmpAntisymmetric it is a total order) |
| Text.Join | backend/dist/middleware/errorHandler.js:16-18 | `join` of no parts is empty; otherwise the result starts with the first part and its length is the parts' lengths plus one separator between each pair of neighbours |
| Validation.ValidationFailure | backend/src/models/JobApplication.ts:51-136 | a failed validation throws a ValidationError whose field messages are the failed validators' messages in order |
| Validation.ValidationIs400 | backend/dist/middleware/errorHandler.js:14-18 | a validation failure is answered 400 with the validators' messages joined by ", " |
| JobApplication.ParseStatus | backend/src/models/JobApplication.ts:68-72 | the status validator accepts exactly the six status names, and returns the status named |
| JobApplication.ParsePriority | backend/src/models/JobApplication.ts:73-77 | the priority validator accepts exactly low, medium and high |
| JobApplication.EnumNamesRoundTrip | backend/src/models/JobApplication.ts:68-77 | every status and priority name is accepted as itself |
| JobApplication.InterviewViolations | backend/src/models/JobApplication.ts:104-118 | no violation exactly when every interview entry has a non-empty type and a date |
| JobApplication.FollowUpViolations | backend/src/models/JobApplication.ts:119-131 | no violation exactly when every follow-up entry has a date and a non-empty type |
| JobApplication.EntryViolations | backend/src/models/JobApplication.ts:104-131 | the entry lists supplied in a body give no violation exactly when every entry is complete |
| JobApplication.NewSalary | backend/src/models/JobApplication.ts:78-85 | the stored salary keeps the given bounds and its currency, which defaults to USD |
| JobApplication.ToInterviews | backend/src/models/JobApplication.ts:104-118 | complete interview entries are stored one for one, each with its non-empty type, its date, and its interviewer, notes and feedback as given |
| JobApplication.ToFollowUps | backend/src/models/JobApplication.ts:119-131 | complete follow-up entries are stored one for one, each with its date, its non-empty type and its notes as given |
| JobApplication.CreateViolations | backend/src/models/JobApplication.ts:58-77 | no violation exactly when the body is acceptable; each missing title or company and each value outside an enum is reported |
| JobApplication.PatchViolations | backend/src/models/JobApplication.ts:58-131 | update validators run only on the paths the body sets: an empty title or company, an out-of-enum status or priority, or an incomplete entry is reported |
| JobApplication.Build | backend/src/models/JobApplication.ts:51-136 | a new record exists exactly when the body is acceptable; it has the given owner and id, status draft and priority medium unless given, salary currency USD unless given, both timestamps set to now; every optional scalar path is stored as given, documents and contacts as given or empty (with an empty document list), and the interview and follow-up lists entry for entry; and it is valid |
| JobApplication.ApplyPatchAsWritten | backend/src/routes/application.ts:71-75 | the update succeeds exactly when its paths validate; it keeps id and createdAt, stamps updatedAt, and keeps the record valid; as written it also sets userId from the body |
| JobApplication.ApplyPatch | backend/src/routes/application.ts:71-75 | the corrected update: it succeeds exactly when the as-written one does, keeps the stored owner, and otherwise gives the as-written record with its userId restored |
| JobApplication.UpdateAsWrittenReassignsOwner | backend/src/routes/application.ts:71-75 | a body carrying another account's userId moves the record to that account |
| JobApplication.PatchSetsOnlySuppliedFields | backend/src/routes/application.ts:73 | for every path of the schema: one the body omits keeps its stored value and one it carries takes the body's value, nested blocks and lists replaced wholesale (entries converted one for one); id, owner and createdAt are kept and updatedAt is stamped |
| JobApplication.EmptyPatchTouchesOnlyUpdatedAt | backend/src/models/JobApplication.ts:133-135 | an empty body changes nothing but updatedAt |
| JobApplication.PatchIdempotent | backend/src/routes/application.ts:71-75 | applying the same update twice equals applying it once |
| ApplicationQueries.RowsBelowCount | backend/src/routes/application.ts:22 | the number of listed rows is the number of ids the filter matches (countDocuments) |
| ApplicationQueries.MatchesFilter | backend/src/routes/application.ts:12-15 | a record passes the filter exactly when it is the caller's and the status query is absent, empty, or the name of the record's status |
| ApplicationQueries.Rows | backend/src/routes/application.ts:12-17 | the rows are exactly the records matching `{userId}` plus the status filter when it is truthy, each once, in id order |
| ApplicationQueries.RowsComplete | backend/src/routes/application.ts:12-17 | every matching record is among the rows |
| ApplicationQueries.CompareTransitive | backend/src/routes/application.ts:18 | the comparison of sort values is transitive |
| ApplicationQueries.SortValueOf | backend/src/routes/application.ts:18 | a name that is not a sortable path sorts as missing for every record; required paths and timestamps are never missing; status sorts by its stored name; a date path is missing exactly when unset |
| ApplicationQueries.CompareValues | backend/src/routes/application.ts:18 | missing values sort before numbers, numbers before strings, strings before dates; numbers by value and dates chronologically |
| ApplicationQueries.NotAfterTransitive | backend/src/routes/application.ts:18 | the sort order, in either direction, is transitive |
| ApplicationQueries.SortRows | backend/src/routes/application.ts:18 | sorting returns a permutation of its input, ordered by the sort field and direction |
| ApplicationQueries.Insert | backend/src/routes/application.ts:18 | inserting a record into a sorted list adds exactly that record |
| ApplicationQueries.RowsBelowComplete | backend/src/routes/application.ts:12-17 | every matching record below the bound is among the rows |
| ApplicationQueries.CeilDiv | backend/src/routes/application.ts:31 | pages × limit covers total, one page fewer does not, and pages is 0 exactly when total is 0 |
| ApplicationQueries.Window | backend/src/routes/application.ts:19-20 | the page holds at most limit records, those after the first (page−1)×limit |
| ApplicationQueries.PagesTile | backend/src/routes/application.ts:19-20 | pages 1..p read in order are the first p×limit records, each once |
| ApplicationQueries.AllPagesCoverResult | backend/src/routes/application.ts:19-31 | reading every announced page yields the whole ordered result, and the page after the last is empty |
| ApplicationQueries.WithDefaults | backend/src/routes/application.ts:10 | page 1, limit 10, sortBy updatedAt and sortOrder desc when omitted; each supplied page, limit, sortBy and sortOrder is kept as given, and the status filter passes through |
| ApplicationQueries.Ordered | backend/src/routes/application.ts:12-18 | the ordered result holds the matching records, one per matching id, sorted; descending only for "desc" |
| ApplicationQueries.List | backend/src/routes/application.ts:9-34 | total counts every matching record regardless of page; pages = ceil(total/limit); the page has min(limit, total − skip) records (0 past the end) taken from the ordered result |
| ApplicationQueries.ListPageMatches | backend/src/routes/application.ts:12-20 | every listed record is a stored record of the caller that the status filter matches |
| ApplicationQueries.ListPageSorted | backend/src/routes/application.ts:17-18 | the page is in the requested order |
| ApplicationQueries.EmptyListing | backend/src/routes/application.ts:9-34 | a caller without records gets an empty page 1 with limit 10, total 0 and pages 0 |
| ApplicationQueries.Breakdown | backend/src/routes/application.ts:114-117 | each breakdown entry has a positive count equal to the number of records with that status |
| ApplicationQueries.BreakdownComplete | backend/src/routes/application.ts:114-117 | every status that occurs has an entry |
| ApplicationQueries.BreakdownDistinct | backend/src/routes/application.ts:116 | no status has two entries |
| ApplicationQueries.StatusCountsPartition | backend/src/routes/application.ts:114-117 | the per-status counts add up to the number of records |
| ApplicationQueries.CountStatusIsFilteredCount | backend/src/routes/application.ts:108-117 | counting a status within the caller's records equals the countDocuments of the caller with that status |
| ApplicationQueries.AddMonth | backend/src/routes/application.ts:119-131 | adding a dated record keeps the buckets ascending and positive and raises exactly its month's count by one |
| ApplicationQueries.Monthly | backend/src/routes/application.ts:119-131 | the monthly buckets are ascending by (year, month), positive, and hold for every month the number of records applied in it |
| ApplicationQueries.EntryHoldsCount | backend/src/routes/application.ts:122-130 | in ascending buckets each month appears once, so its entry holds the month's count |
| ApplicationQueries.PositiveCountHasEntry | backend/src/routes/application.ts:122-130 | a month with a positive count has a bucket |
| ApplicationQueries.DatedRowCounted | backend/src/routes/application.ts:119-131 | a record with an applied date counts toward its month |
| ApplicationQueries.Overview | backend/src/routes/application.ts:105-147 | the corrected overview (see Findings): total and the applied, interview, offer and rejected counts are the sizes of the corresponding filters; the two series are computed over the caller's records |
| ApplicationQueries.CountWithStatus | backend/src/routes/application.ts:109-112 | `countDocuments({ userId, status })` is the number of the caller's records with that status |
| ApplicationQueries.StatusCountIsFiltered | backend/src/routes/application.ts:108-117 | a status's count within the caller's records equals the caller's countDocuments for that status |
| ApplicationQueries.OverviewBreakdown | backend/src/routes/application.ts:114-117 | corrected behaviour (see Findings): the breakdown counts sum to total, and each entry is positive and equal to that status's countDocuments |
| ApplicationQueries.OverviewBreakdownCovers | backend/src/routes/application.ts:114-117 | corrected behaviour (see Findings): the breakdown lists each status at most once and lists every status the caller has a record with |
| ApplicationQueries.OverviewMonthly | backend/src/routes/application.ts:119-131 | corrected behaviour (see Findings): the series is ascending, each entry counts the caller's records applied that month, and every such month is present |
| ApplicationQueries.EmptyOverview | backend/src/routes/application.ts:105-147 | a caller without records gets zero counts and empty series |
| ApplicationQueries.UncastMatchSelectsNothing | backend/src/routes/application.ts:114-120 | `$match: { userId }` with the account's object id, compared uncast with the stored string ids, selects no record |
| ApplicationQueries.CastMatchSelectsCallerRows | backend/src/routes/application.ts:114-120 | the same `$match` with the id cast to the schema's string selects exactly the caller's records, as `find({ userId })` does |
| ApplicationQueries.OverviewAsWritten | backend/src/routes/application.ts:105-147 | as written, the counts equal the corrected ones but the status breakdown and the monthly series are always empty |
| ApplicationQueries.OverviewAsWrittenFallsShort | backend/src/routes/application.ts:114-131 | for a caller with a record, the as-written breakdown sums to 0 while total is positive, and a dated record that the corrected series shows is missing from the as-written one |
| ApplicationQueries.OverviewIsCastAggregate | backend/src/routes/application.ts:114-131 | the corrected series are the two aggregates run with the caller's id cast to a string |
| ApplicationRoutes.NotFound | backend/src/routes/application.ts:44 | the not-found error is answered 404 "Application not found" in either runtime mode |
| ApplicationRoutes.ApplicationStore.Get | backend/src/routes/application.ts:37-51 | the record is returned exactly when it exists and the caller owns it; otherwise 404 |
| ApplicationRoutes.ApplicationStore.Create | backend/src/routes/application.ts:54-67 | an acceptable body is stored under a fresh id with the caller as owner and answered 201; otherwise the validation error and nothing is stored |
| ApplicationRoutes.ApplicationStore.Update | backend/src/routes/application.ts:70-85 | the corrected update (see Findings): validation runs first (400, nothing changed); a record the caller does not own gives 404 with nothing changed; otherwise exactly that record is replaced by the patched one, owner kept, and returned |
| ApplicationRoutes.ApplicationStore.Delete | backend/src/routes/application.ts:88-102 | exactly the caller's record is removed and confirmed; otherwise 404 and nothing changes |
| ApplicationRoutes.CreateThenGet | backend/src/routes/application.ts:37-67 | a created record is readable by its owner and is 404 for any other account |
| ApplicationRoutes.DeleteTwice | backend/src/routes/application.ts:88-96 | a second delete of the same id answers 404 |
| ApplicationRoutes.UpdateKeepsScope | backend/src/routes/application.ts:70-85 | an update never moves a record out of its owner's scope, and no account's record count changes |
| UserModel.NewUserViolations | backend/src/models/User.ts:39-52 | no violation exactly when email, firstName and lastName are present and non-empty; each missing one is reported |
| UserModel.CreateUser | backend/src/models/User.ts:37-97 | a new account exists exactly when the required fields are present; its email is the lowercased input, and its profile and preferences take the defaults (salary currency USD, empty lists) |
| UserModel.FullNameSplits | backend/src/models/User.ts:105-107 | a full name built from space-free names splits back into the first and last name |
| UserModel.FindOne | backend/src/config/passport.ts:37-44 | the result is the first matching account, and none is found exactly when no account matches |
| UserModel.AccountStore.FindById | backend/src/config/passport.ts:19 | an account is found exactly when the id is stored, and it is the account with that id |
| UserModel.FoundIsOnlyMatch | backend/src/models/User.ts:39-44 | with unique emails and provider ids, the account that matches is the one that findOne returns |
| Passport.NamePart | backend/src/config/passport.ts:104-105 | the k-th word of the display name exists exactly when it has at least k spaces, and holds no space |
| Passport.NewAccountFields | backend/src/config/passport.ts:54-108 | Google takes the given and family names and sets googleId; GitHub takes the first two words of the display name and sets githubId; both take the first email and photo |
| Passport.Link | backend/src/config/passport.ts:46-50 | linking sets only the provider's id field |
| Passport.LinkKeepsValid | backend/src/config/passport.ts:43-51 | linking an account to a provider id no account holds keeps the collection valid |
| Passport.AddKeepsValid | backend/src/config/passport.ts:53-64 | adding a valid account with a new email and new provider ids keeps the collection valid |
| Passport.SignIn | backend/src/config/passport.ts:35-115 | an account linked to the provider id is returned unchanged; else the first account with the profile's email is linked and returned; else a new account is created, or its validation error is reported; emails and provider ids stay unique; a later lookup by the provider id finds the returned account |
| Passport.SignInTwice | backend/src/config/passport.ts:37-41 | signing in again with the same profile returns the same account |
| Passport.SessionRoundTrip | backend/src/config/passport.ts:12-24 | deserialising the serialised id of a stored account gives that account back |
| Passport.GithubFirstTwoWords | backend/src/config/passport.ts:104-105 | a display name whose first two space-separated words are `first` and `last` gives them as first and last name, whatever words follow (they are dropped) |
| Passport.GithubOneWordNameFails | backend/src/config/passport.ts:101-110 | a one-word display name leaves lastName unset, so creating the account fails with a required-lastName error |
| Passport.NoEmailCannotCreate | backend/src/config/passport.ts:44-56 | a profile without an email matches no account by email and cannot create one |
| UserRoutes.EmptyPatchesKeepBlocks | backend/src/routes/user.ts:40-41 | merging an empty patch leaves the block unchanged |
| UserRoutes.MergesIdempotent | backend/src/routes/user.ts:40-41 | merging the same patch twice equals merging it once |
| UserRoutes.ProfileMergesCompose | backend/src/routes/user.ts:40 | two profile merges equal one merge with the combined patch, later keys winning |
| UserRoutes.ProfileMergeOverrides | backend/src/routes/user.ts:40 | for each of the eight profile keys, a supplied value is stored as supplied and an absent key keeps the stored value |
| UserRoutes.PreferencesMergeOverrides | backend/src/routes/user.ts:41 | for each of the five preference keys, a supplied value replaces the stored one whole and an absent key keeps it |
| UserRoutes.SalaryRangeReplacedWholesale | backend/src/routes/user.ts:41 | a supplied salaryRange without a currency drops the stored currency |
| UserRoutes.ApplyProfileBody | backend/src/routes/user.ts:35-44 | only profile and jobPreferences change; an omitted block is unchanged, a supplied one is shallow-merged |
| UserRoutes.View | backend/src/routes/user.ts:15-30 | the reply reports fullName as firstName + " " + lastName, the provider's name, and the stored id, email, names, avatar, profile and preferences |
| UserRoutes.GetProfile | backend/src/routes/user.ts:9-31 | the caller's account view, or 404 "User not found" when the account is gone |
| UserRoutes.UpdateProfile | backend/src/routes/user.ts:34-65 | the caller's account is replaced by its merged version and returned; 404 and nothing changed when it is gone |
| UserRoutes.InfoGuard | backend/src/routes/user.ts:71-73 | the guard passes exactly when both names are present and non-empty; otherwise it is answered 400 "First name and last name are required" in either runtime mode |
| UserRoutes.UpdateInfo | backend/src/routes/user.ts:68-95 | the guard runs before any write; then only the two names of the caller's account change, and the reply reports the new full name |
| UserRoutes.InfoThenProfile | backend/src/routes/user.ts:9-95 | names stored by PUT /info are the ones GET /profile reports, and its fullName splits back into them |

## Left out

- Database I/O is replaced by the abstract tables. Not modelled: connection handling, indexes, ObjectId generation, cast errors for malformed ids (which reach the handler as a 500), and concurrent requests. Each request is one sequential step. The handler's duplicate-key case (code 11000) is modelled, but no modelled flow raises it: the one way the routes can, a duplicate `_id` in a create body, is left out (see Build below).
- Build: the body keys `_id`, `createdAt` and `updatedAt` are not modelled. The source keeps a body's `_id`, and a duplicate one is answered 400 "_id already exists". It also keeps a body's `createdAt`. The model always assigns a fresh id and stamps both timestamps with the clock.
- ApplyPatchAsWritten: a body holding update operators (`$unset`, `$push`, `$inc`, ...) is applied by the database as those operators. The model's body carries only plain paths, so it sets them.
- Validation.ValidationFailure: the field messages are joined in the schema's path order. The database library's own order of reported paths can differ (unset required paths may come first), and that order is not modelled.
- Account and record ids are both `nat`. The string/object-id distinction is modelled only where the source compares them without a cast, the stats aggregates (`ApplicationQueries.IdValue`).
- Numbers are integers. Salary bounds and `Number(...)` conversions are not modelled as floating point. `page ≥ 1` and `limit ≥ 1` are preconditions of the list route, because the code does not validate them.
- Dates are (year, month, day) triples and timestamps are a `now` counter. There are no time zones, and `$year`/`$month` are taken directly from the triple.
- Sorting: a `sortBy` that is not a scalar path of the schema (a nested path such as `salary.min`, or an unknown name) sorts as a field every record lacks. Ties are broken by ascending id. The database leaves the order of ties unspecified.
- ApplicationQueries.Breakdown: entries come in enum order. The database's `$group` output order is unspecified.
- Query-string values are strings or absent. An array-valued `status` or `sortOrder` is not modelled.
- Explicit `null` values in request bodies (a key present with value null) are not modelled; a key is either supplied with a value or absent. Non-object `profile`/`jobPreferences` values are not modelled either.
- Lowercasing maps only ASCII letters.
- The account-lookup filters assume two database behaviours. An absent email is sent as a filter on a missing value, which matches no stored account. The schema's `lowercase` setter is applied to the email in the query.
- errorHandler: an 11000 error without a `keyValue` object makes `Object.keys` throw inside the handler. This is not modelled; an empty `keyValue` is rendered as "undefined". The console logging in development mode is left out.
- Passport plumbing (`passport.initialize`, `passport.session`, strategy construction, the OAuth routes and redirects) is library wiring and is not part of this model. Access and refresh tokens are unused by the callbacks.
- A save error other than validation, and a `findById` that throws during deserialisation, are not modelled. The model has no database failures.
- Account `createdAt`/`updatedAt` timestamps are not modelled. Nor are `avatar` updates, which no modelled route performs.
- The AI routes (backend/src/routes/ai.ts), the frontend, the compiled duplicates under backend/dist (except the error handler), and backend/dist/config/database.js are not part of this model.
- PUT /profile spreads the stored blocks as plain objects. How the database library would spread its own nested-document wrappers is not modelled. The GET /profile timestamps are not modelled either.
- The `userId` required validator is not modelled separately. The routes always supply it: create forces it to the caller, and the corrected update never sets it.

## Findings

| source | as written | input that shows it | evidently intended | confidence | as-written member | corrected member |
|---|---|---|---|---|---|---|
| backend/src/routes/application.ts:71-75 | PUT /applications/:id passes the request body as the update, so a `userId` in the body is written to the record | a body `{ "userId": "<another account's id>" }` on one's own record: the update succeeds and the record now belongs to the other account (it disappears from the caller's list and appears in the other's) | the owner is fixed, as on create (lines 55-58), where the caller's id overrides the body's | medium, not executed | JobApplication.UpdateAsWrittenReassignsOwner | JobApplication.ApplyPatch |
| backend/src/routes/application.ts:114-131 | both `aggregate` pipelines of GET /applications/stats/overview match `{ userId }` with the account's object id (`req.user._id`). The schema stores `userId` as a String (JobApplication.ts:53-56), and unlike `countDocuments` an aggregate `$match` is not cast, so no record is selected | a caller with one draft record applied in March: summary total 1, statusBreakdown [] and monthlyApplications [] | the series group the caller's records like the counts do: a draft entry with count 1 and a March bucket with count 1 | medium, not executed | ApplicationQueries.OverviewAsWrittenFallsShort | ApplicationQueries.OverviewBreakdown |
