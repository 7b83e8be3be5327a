# CDF tracker backend: a Dafny model

This project models the backend of a tracker for Constituency Development Fund (CDF) projects. The model covers:

- the upsert import of projects from CSV files;
- the bearer-token authentication and the three admin guards;
- the REST handlers for projects, users, constituencies, contractors, procurement awards, citizen feedback and project images;
- the image naming and upload of the object-storage client.

The database session is a class `Models.Db` with one field per table. Each id-keyed table is a `map` from id to record plus the next autoincrement id. The constituency table is a sequence in insertion order, keyed by its code. Each request handler is a method that changes only the tables it writes. Its contract states the HTTP error for each refused request and the complete new state for an accepted one. Pure parts are functions, with lemmas about them:

- the filtering, joining, sorting and paging of the project listing;
- the payload building and upsert fold of the import;
- the token chain;
- the search and the object names.

An unhandled exception in a handler is modelled as the response `HttpError(500, "Internal Server Error")`. The model produces this response where the source raises one:

- an enum coercion that raises;
- a NOT NULL column set to null;
- a duplicate primary key.

The following come into the model as parameters:

- the clock: `now`;
- the JWT codec: functions `encode` and `decode`;
- the password hasher;
- the date and number parsers of the import;
- the uuid of an uploaded image;
- the object server's answers to an upload or to a presign request.

Modules: `Common` (strings, `str.strip`, `Option`/`Result`, id-ordered table helpers), `Models`, `ImportProjects`, `Auth`, `AdminAuth`, `AdminGuard`, `UsersRouter`, `ProjectRouter`, `ProcurementAwardRouter`, `FeedbackRouter`, `ConstituencyRouter`, `ContractorRouter`, `MinioClient`, `ProjectImageRouter`.

## Model

| member | source | states |
|---|---|---|
| Common.Trim | data_pipeline/import_projects.py:21 | the result has no whitespace at either end, whitespace being every character `str.isspace()` accepts, Unicode spaces included |
| Common.TrimOfFramed | data_pipeline/import_projects.py:21 | stripping whitespace around a trimmed word gives exactly that word |
| Common.TrimEmptyIffBlank | data_pipeline/import_projects.py:21-23 | strip yields "" exactly when the text is all whitespace |
| Common.TrimIdempotent | data_pipeline/import_projects.py:21 | stripping twice equals stripping once |
| Common.BlankToNone | data_pipeline/import_projects.py:80 | `(v or "").strip() or None` is None exactly for blank text, otherwise the non-empty stripped text |
| Common.Apply | backend/api/project_router.py:140-142 | a field left out keeps its old value; a sent field takes the sent value |
| Common.FieldValue | backend/api/users_router.py:61-62 | `payload.get(key)` is a value exactly when the key holds a string |
| Common.ContainsIgnoreCase | backend/api/constituency_router.py:67 | `ilike '%t%'` holds exactly when the lower-cased term occurs in the lower-cased text |
| Common.IntToStringRoundTrip | backend/core/minio_client.py:27 | the decimal rendering of an integer parses back to that integer |
| Common.IntToStringInjective | backend/core/minio_client.py:27 | distinct integers render differently |
| Common.KeysAsc | backend/api/contractor_router.py:49 | the ids of a table in strictly ascending order, each present, none missed |
| Common.KeysDesc | backend/api/users_router.py:20 | the ids of a table in strictly descending order, each present, none missed |
| Common.ValuesAscComplete | backend/api/procurement_award_router.py:43 | every record with an id in range appears in the id-ordered listing |
| Common.FirstWhere | backend/api/procurement_award_router.py:57-59 | `.first()` returns the least matching id, and None only when no record matches |
| Models.CategoryFromName | backend/models/project.py:12-19 | `ProjectCategory(v)` succeeds exactly for the seven member names and returns the member with that name |
| Models.StatusFromName | backend/models/project.py:22-26 | `ProjectStatus(v)` succeeds exactly for the four member names |
| Models.RoleFromName | backend/models/user.py:15-18 | `UserRole(v)` succeeds exactly for "admin", "moderator" and "viewer" |
| Models.UserStatusFromName | backend/models/user.py:21-23 | `UserStatus(v)` succeeds exactly for "active" and "disabled" |
| Models.FindConstituency | backend/api/constituency_router.py:26 | returns the position of the row with that code, or None when no row has it |
| Models.UserByName | backend/core/auth.py:61 | the found user has the requested name, and None means nobody has it |
| Models.UserByNameFindsUnique | backend/core/auth.py:61-63 | with unique usernames, the lookup finds exactly the user with that name |
| ImportProjects.GetOr | data_pipeline/import_projects.py:87-96 | `row.get(k) or d` gives the default for a missing or empty cell, otherwise the cell |
| ImportProjects.ParseDate | data_pipeline/import_projects.py:20-24 | a blank cell gives None; otherwise the stripped text is parsed, and a parse failure raises |
| ImportProjects.NormalizeCategory | data_pipeline/import_projects.py:27-29 | the result is the category named by the stripped text; when no category has that name, a ValueError |
| ImportProjects.NormalizeStatus | data_pipeline/import_projects.py:32-34 | the result is the status named by the stripped text; when no status has that name, a ValueError |
| ImportProjects.AsFloat | data_pipeline/import_projects.py:37-41 | blank gives None; otherwise the number parsed from the stripped text, and a parse failure raises |
| ImportProjects.AsBool | data_pipeline/import_projects.py:44-46 | a blank cell reads false; a true cell strips to a word of one to four characters |
| ImportProjects.SpellingIsTrimmed | data_pipeline/import_projects.py:44-46 | a text that lower-cases to a true spelling has no surrounding whitespace |
| ImportProjects.AsBoolFramed | data_pipeline/import_projects.py:44-46 | for a trimmed word between whitespace, `as_bool` is true exactly when the word lower-cases to "1", "true", "yes" or "y" |
| ImportProjects.AsBoolAcceptsPadded | data_pipeline/import_projects.py:44-46 | padding around a true spelling is ignored |
| ImportProjects.Budget | data_pipeline/import_projects.py:89 | a missing or empty budget cell is 0; any other cell is the parser's number for it, or an invalid-number error naming the cell |
| ImportProjects.Assemble | data_pipeline/import_projects.py:84-100 | the payload carries the row's upsert key (title, code, source_doc_ref) |
| ImportProjects.BuildPayload | data_pipeline/import_projects.py:84-100 | the payload builds exactly when every converter succeeds, and then holds each converter's value, the stripped text fields and the row's key |
| ImportProjects.OtherNormalizes | data_pipeline/import_projects.py:87 | the default category text "Other" is a valid category |
| ImportProjects.PlannedNormalizes | data_pipeline/import_projects.py:88 | the default status text "Planned" is a valid status |
| ImportProjects.FalseIsFalse | data_pipeline/import_projects.py:96 | the default is_mock text "false" reads as false |
| ImportProjects.CategoryDefault | data_pipeline/import_projects.py:87 | a missing or empty category cell gives Other |
| ImportProjects.StatusDefault | data_pipeline/import_projects.py:88 | a missing or empty status cell gives Planned |
| ImportProjects.BudgetDefault | data_pipeline/import_projects.py:89 | a missing or empty budget cell gives 0.0 |
| ImportProjects.IsMockDefault | data_pipeline/import_projects.py:96 | a missing or empty is_mock cell gives false |
| ImportProjects.InvalidEnumFails | data_pipeline/import_projects.py:27-34 | a category or status naming no member makes the row raise |
| ImportProjects.Overwrite | data_pipeline/import_projects.py:102-107 | the existing record takes the whole payload and keeps its id and timestamp |
| ImportProjects.NewProject | data_pipeline/import_projects.py:108-111 | a new record holds exactly the payload, under its new id |
| ImportProjects.FindExisting | data_pipeline/import_projects.py:49-62 | a found record has the key and the least id among those that have it; None means no record has the key (a NULL source_doc_ref matches only NULL) |
| ImportProjects.View | data_pipeline/import_projects.py:74-100 | a row's view records whether it is skipped (blank title or code), its key, and a payload carrying that key |
| ImportProjects.Views | data_pipeline/import_projects.py:73 | one view per row, in file order |
| ImportProjects.Step | data_pipeline/import_projects.py:73-111 | a skipped row changes nothing; a usable row succeeds exactly when its payload builds |
| ImportProjects.StepValid | data_pipeline/import_projects.py:102-111 | one upsert keeps every record under its own id, below the next id |
| ImportProjects.Run | data_pipeline/import_projects.py:73-111 | an empty file changes nothing; a successful run counts every usable row once as created or updated, and never lowers a counter or the next id |
| ImportProjects.UpsertRow | data_pipeline/import_projects.py:74-111 | the loop body computes the step of the row's view |
| ImportProjects.UpsertPayload | data_pipeline/import_projects.py:82-111 | the lookup and update-or-insert for a known key computes that step |
| ImportProjects.ImportCsv | data_pipeline/import_projects.py:65-115 | the loop returns (created, updated) and commits the fold's table; on an exception the table is unchanged |
| ImportProjects.RunOkIff | data_pipeline/import_projects.py:65-115 | the import fails exactly when some usable row has an invalid cell |
| ImportProjects.StepEffect | data_pipeline/import_projects.py:102-111 | a usable row overwrites the whole payload of the least-id record with its key, or adds one new record with the payload under the next id; records with other keys are unchanged; counts and key sets follow |
| ImportProjects.StepOverwrites | data_pipeline/import_projects.py:102-107 | a row whose key the table has overwrites the record of least id with that key; ids, keys and the created count stay, updated grows by one |
| ImportProjects.StepInserts | data_pipeline/import_projects.py:108-111 | a row whose key the table lacks adds `Project(**payload)` under the next id; created grows by one |
| ImportProjects.LastRow | data_pipeline/import_projects.py:73-111 | the position of the last usable row with a key, and None exactly when no usable row has it |
| ImportProjects.RunFrame | data_pipeline/import_projects.py:73-113 | after an import, a record whose key no usable row has is still there, unchanged |
| ImportProjects.RunContents | data_pipeline/import_projects.py:73-113 | after an import, every key of the file names a record holding the payload of the file's last row with that key |
| ImportProjects.RunKeys | data_pipeline/import_projects.py:55-113 | after an import, every key of the file is present, no other key appeared and no record vanished |
| ImportProjects.RunCounts | data_pipeline/import_projects.py:66-67 | created + updated counts every usable row once; each creation adds one record and one id |
| ImportProjects.RunOnCoveredTable | data_pipeline/import_projects.py:55-62 | on a table holding every key of a valid file, nothing is created and the ids and keys stay the same |
| ImportProjects.ViewsConsistent | data_pipeline/import_projects.py:80-99 | every view's payload carries the view's key |
| ImportProjects.ImportTwiceCreatesNothing | data_pipeline/import_projects.py:55 | importing the same file again creates nothing, updates every usable row, and keeps the ids and keys |
| ImportProjects.RunValid | data_pipeline/import_projects.py:65-115 | the whole import keeps the table well formed |
| ImportProjects.FailingRowFailsImport | data_pipeline/import_projects.py:84-100 | one usable row with an invalid cell anywhere in the file makes the import fail |
| Auth.Expiry | backend/core/auth.py:29-33 | a truthy delta sets the expiry to now + delta; without one, or with zero, 1440 minutes |
| Auth.AccessClaims | backend/core/auth.py:27-35 | the claims are a copy of the data with "exp" set to the expiry |
| Auth.CreateAccessToken | backend/core/auth.py:22-37 | the token is the encoding of those claims |
| Auth.Subject | backend/core/auth.py:55-57 | the username is the "sub" claim when it is non-empty text, otherwise none |
| Auth.GetCurrentUser | backend/core/auth.py:40-69 | an accepted user is stored, active, and the sub of the decoded token; every refusal is 401 "Could not validate credentials" or 403 "Account disabled" |
| Auth.RequireAdmin | backend/core/auth.py:72-81 | passes exactly admins, unchanged; others get 403 "Admin access required" |
| Auth.AdminChain | backend/core/auth.py:40-81 | the chain passes only stored, active admins, and refuses with 401, 403 "Account disabled" or 403 "Admin access required" |
| Auth.GetCurrentUserOutcome | backend/core/auth.py:40-69 | 401 for an undecodable token, a missing sub or an unknown name; 403 for a disabled account; otherwise the stored user |
| Auth.CurrentUserIsActiveSubject | backend/core/auth.py:61-69 | an accepted user is active, stored, and named by the token |
| Auth.OnlyActiveAdminsPass | backend/core/auth.py:40-81 | the admin chain passes exactly the active admins a decodable token names |
| Auth.IssuedTokenAuthenticates | backend/core/auth.py:22-69 | a token issued for an active user's name authenticates that user, whatever its lifetime |
| AdminAuth.GetCurrentAdminUser | backend/dependencies/admin_auth.py:15-34 | an accepted user is a stored admin named by the token's sub; refusals are 401 "Invalid token", 401 "User not found" or 403 |
| AdminAuth.AdminUserOutcome | backend/dependencies/admin_auth.py:15-34 | 401 "Invalid token" for a bad token or sub, 401 "User not found", 403 for a non-admin, otherwise the admin whatever its status |
| AdminAuth.GuardsDifferOnlyOnDisabledAdmins | backend/dependencies/admin_auth.py:31-34 | this guard and the `Auth` chain disagree exactly on disabled admins |
| AdminGuard.RequireAdmin | backend/core/admin.py:7-17 | passes an object whose role reads "admin", or which has no role; otherwise 403 |
| AdminGuard.AgreesWithAuthGuard | backend/core/admin.py:7-17 | on stored users it decides exactly as `Auth.RequireAdmin` |
| UsersRouter.ViewHidesOnlyPassword | backend/api/users_router.py:22-34 | two users look alike through the endpoints exactly when they differ at most in the password hash |
| UsersRouter.ListUsers | backend/api/users_router.py:15-34 | users by strictly descending id, each shown as its stored record |
| UsersRouter.ListUsersComplete | backend/api/users_router.py:20 | every user is listed |
| UsersRouter.RequestedRole | backend/api/users_router.py:48-59 | an absent role means moderator; null or an unknown name makes the coercion raise |
| UsersRouter.RoleField | backend/api/users_router.py:97-101 | a role is accepted exactly when it is one of the three names |
| UsersRouter.StatusField | backend/api/users_router.py:132-136 | a status is accepted exactly when it is "active" or "disabled" |
| UsersRouter.NewUser | backend/api/users_router.py:57-65 | the new user has the stripped name, the hash of the stripped password, the sent full name and email, the role, status active, and no last login |
| UsersRouter.CreateUser | backend/api/users_router.py:40-80 | 400 for a blank name or password, 400 for a taken name, 500 for an invalid role; otherwise adds one active user |
| UsersRouter.UpdateRole | backend/api/users_router.py:86-115 | 404, 400 "Invalid role", or only that user's role changes |
| UsersRouter.UpdateStatus | backend/api/users_router.py:121-150 | 404, 400 "Invalid status", or only that user's status changes |
| UsersRouter.ResetPassword | backend/api/users_router.py:156-176 | 400 for fewer than 6 characters after trimming (checked before the lookup), 404, or only the hash changes |
| UsersRouter.DeleteUser | backend/api/users_router.py:182-198 | 404, 400 for the caller's own account, or removes exactly that user |
| ProjectRouter.CreateProject | backend/api/project_router.py:18-28 | 404 without the constituency; otherwise stores the project under the next id, stamped now |
| ProjectRouter.AwardsFor | backend/api/project_router.py:47 | the outer join finds awards of that project only, and all of them |
| ProjectRouter.ContractorOf | backend/api/project_router.py:48 | the joined contractor is the award's contractor when it exists |
| ProjectRouter.JoinProject | backend/api/project_router.py:44-49 | a project gives one row per award, or a single row without award and contractor |
| ProjectRouter.JoinWithoutAward | backend/api/project_router.py:47-48 | a project without awards gives exactly one row with no award or contractor |
| ProjectRouter.AwardsForNone | backend/api/project_router.py:47 | no award of the project means no joined award |
| ProjectRouter.AwardsForAtMostOne | backend/api/procurement_award_router.py:56-61 | with one award per project, at most one award joins |
| ProjectRouter.JoinOneRow | backend/api/project_router.py:44-49 | with one award per project, each project gives exactly one row |
| ProjectRouter.JoinAll | backend/api/project_router.py:44-56 | every joined row's project is stored and matches the filters |
| ProjectRouter.JoinAllComplete | backend/api/project_router.py:46-56 | every matching project with an existing constituency appears |
| ProjectRouter.JoinAllConstituency | backend/api/project_router.py:46 | each row carries the project's own constituency |
| ProjectRouter.SortKeyOf | backend/api/project_router.py:58-77 | each of the five names selects its ordering; any other text gives last_updated descending |
| ProjectRouter.BeforeTotal | backend/api/project_router.py:77 | every ordering is total |
| ProjectRouter.BeforeTrans | backend/api/project_router.py:77 | every ordering is transitive |
| ProjectRouter.Insert | backend/api/project_router.py:77 | inserting adds exactly one row (multiset) |
| ProjectRouter.SortRows | backend/api/project_router.py:77 | sorting permutes the rows |
| ProjectRouter.InsertSorted | backend/api/project_router.py:77 | insertion keeps a sorted list sorted |
| ProjectRouter.SortRowsSorted | backend/api/project_router.py:77 | the sorted rows are in the requested order |
| ProjectRouter.Page | backend/api/project_router.py:80 | offset/limit yields rows[offset..] cut to limit rows |
| ProjectRouter.Selected | backend/api/project_router.py:44-80 | the fetched page holds at most `limit` rows |
| ProjectRouter.Flatten | backend/api/project_router.py:84-93 | the response row adds the constituency fields, and the award and contractor fields or None |
| ProjectRouter.FlattenAll | backend/api/project_router.py:82-95 | one response row per joined row, in order |
| ProjectRouter.ReadProjects | backend/api/project_router.py:31-97 | 422 for offset < 0 or a limit outside 1..100; otherwise the filtered, joined, sorted, paged listing |
| ProjectRouter.FlattenRows | backend/api/project_router.py:82-97 | the loop builds exactly the flattened rows |
| ProjectRouter.ListingRowFacts | backend/api/project_router.py:44-56 | every listed row is a stored project matching the filters, with its constituency's name, county and MP |
| ProjectRouter.ListingSorted | backend/api/project_router.py:77-80 | the listed rows follow the requested order |
| ProjectRouter.ListingComplete | backend/api/project_router.py:44-77 | every matching project is among the sorted rows before paging |
| ProjectRouter.ReadProject | backend/api/project_router.py:100-126 | 404 exactly when the project or its constituency is missing; otherwise the project's columns with its constituency's name, county and MP |
| ProjectRouter.ReadProjectWithoutAward | backend/api/project_router.py:120-124 | a project without awards reads with no contractor or award fields |
| ProjectRouter.ReadProjectWithAward | backend/api/project_router.py:102-124 | a project with awards reads with the award columns of its least-id award, and that award's contractor name when the contractor exists |
| ProjectRouter.AwardsForFirst | backend/api/project_router.py:105-107 | the first joined award is the award at the first matching position |
| ProjectRouter.Updated | backend/api/project_router.py:140-144 | the id is kept and last_updated is now; the four required fields take the body's values; each optional field takes the sent value, or keeps its old one when not sent |
| ProjectRouter.UpdatedIdempotent | backend/api/project_router.py:140-144 | applying the same update twice equals applying it once |
| ProjectRouter.ResendingRefreshesOnlyTimestamp | backend/api/project_router.py:140-144 | resending the required fields with nothing else changes only last_updated |
| ProjectRouter.UpdateProject | backend/api/project_router.py:129-149 | 404, 404 on a changed code naming no constituency, or the project as `Updated` gives it: sent fields set, the rest kept, stamped now |
| ProjectRouter.DeleteProject | backend/api/project_router.py:152-159 | 404; 500 with nothing deleted when an award refers to the project; otherwise removes exactly that project |
| ProcurementAwardRouter.ListAwards | backend/api/procurement_award_router.py:41-43 | awards by ascending id, each the stored record, none missed |
| ProcurementAwardRouter.GetAward | backend/api/procurement_award_router.py:46-51 | the award exactly when it exists, otherwise 404 |
| ProcurementAwardRouter.NewAward | backend/api/procurement_award_router.py:63 | the stored award has the next id, the creation time and the body's tender, method, value, date, share hint and reason |
| ProcurementAwardRouter.NewAwardFlag | backend/api/procurement_award_router.py:25-63 | a created award copies project and contractor; a performance flag left out is stored as false |
| ProcurementAwardRouter.AwardOfProject | backend/api/procurement_award_router.py:57-59 | finds an award of the project, and None only when the project has none |
| ProcurementAwardRouter.CreateAward | backend/api/procurement_award_router.py:54-67 | 400 when the project already has an award; otherwise adds one; keeps one award per project |
| ProcurementAwardRouter.Updated | backend/api/procurement_award_router.py:76-78 | a null contractor is refused; a sent contractor is stored; each of the seven other fields takes the sent value or keeps its own; id, project and creation time never change |
| ProcurementAwardRouter.UpdateKeepsOnePerProject | backend/api/procurement_award_router.py:70-83 | an accepted update keeps one award per project |
| ProcurementAwardRouter.UpdateAward | backend/api/procurement_award_router.py:70-83 | 404, 500 for a null contractor_id, or the award as `Updated` gives it, with one award per project kept |
| ProcurementAwardRouter.DeleteAward | backend/api/procurement_award_router.py:86-94 | 404, or removes exactly that award and answers "Award deleted" |
| FeedbackRouter.NewFeedback | backend/api/feedback_router.py:18-20 | the stored feedback has the client's host as its address, and status "pending" unless one was sent |
| FeedbackRouter.SubmitFeedback | backend/api/feedback_router.py:12-24 | 404 for an unknown project; otherwise one feedback added and the thank-you message |
| FeedbackRouter.AllFeedback | backend/api/feedback_router.py:27-29 | every feedback, each the stored record, in id order |
| FeedbackRouter.Moderation | backend/api/feedback_router.py:38-40 | accepted exactly for "approved" and "rejected" |
| FeedbackRouter.ModerateTwice | backend/api/feedback_router.py:32-46 | sending the same moderation twice answers the same both times and leaves the table as one request does |
| FeedbackRouter.UpdateFeedbackStatus | backend/api/feedback_router.py:32-46 | 404, 400, or only that feedback's status changes, with "Feedback marked as …" |
| ConstituencyRouter.CreateConstituency | backend/api/constituency_router.py:11-16 | a duplicate code is refused by the primary key (500); otherwise appended |
| ConstituencyRouter.ReadConstituencies | backend/api/constituency_router.py:19-21 | offset/limit over the table in insertion order |
| ConstituencyRouter.DefaultListingIsWhole | backend/api/constituency_router.py:20 | with the defaults, a table of at most 100 rows is listed whole |
| ConstituencyRouter.PagesConcatenate | backend/api/constituency_router.py:21 | two consecutive pages form the page spanning both |
| ConstituencyRouter.ReadConstituency | backend/api/constituency_router.py:24-29 | the row exactly when one has that code, otherwise 404 |
| ConstituencyRouter.Updated | backend/api/constituency_router.py:38-40 | the required fields are overwritten; population and PAS score take the sent value, or keep their own when not sent |
| ConstituencyRouter.ReplaceKeepsCodesUnique | backend/api/constituency_router.py:38-43 | replacing a row by one with an unused code keeps codes unique |
| ConstituencyRouter.UpdateConstituency | backend/api/constituency_router.py:32-45 | 404, 500 when the new code clashes with another row, or that row replaced in place |
| ConstituencyRouter.DeleteConstituency | backend/api/constituency_router.py:48-56 | 404, or removes that row, keeping the order of the rest |
| ConstituencyRouter.RemoveKeepsCodesUnique | backend/api/constituency_router.py:54-55 | removing a row keeps codes unique |
| ConstituencyRouter.DeleteRemovesOnlyThatCode | backend/api/constituency_router.py:48-56 | after deletion the rows are exactly those with another code |
| ConstituencyRouter.Search | backend/api/constituency_router.py:59-70 | a row is returned exactly when its name and county contain the given terms, ignoring case |
| ConstituencyRouter.SearchWithoutTerms | backend/api/constituency_router.py:65 | no terms return the whole table |
| ConstituencyRouter.SearchConjunctive | backend/api/constituency_router.py:66-69 | searching on both terms equals searching on one, then on the other |
| ConstituencyRouter.SearchIgnoresCase | backend/api/constituency_router.py:67 | a term matches in any capitalisation |
| ContractorRouter.ListContractors | backend/api/contractor_router.py:47-50 | contractors by ascending id, each the stored record, none missed |
| ContractorRouter.GetContractor | backend/api/contractor_router.py:53-61 | the contractor exactly when it exists, otherwise 404 |
| ContractorRouter.NewContractor | backend/api/contractor_router.py:66-72 | the stored contractor holds exactly the five body fields |
| ContractorRouter.CreateContractor | backend/api/contractor_router.py:64-76 | adds that contractor under the next id |
| ContractorRouter.Updated | backend/api/contractor_router.py:92-96 | a null name is refused; a sent name becomes the name; each other field takes the sent value or keeps its own; id and creation time kept |
| ContractorRouter.EmptyUpdateIsIdentity | backend/api/contractor_router.py:92-96 | an update sending nothing changes nothing |
| ContractorRouter.UpdateContractor | backend/api/contractor_router.py:79-101 | 404, 500 for a null name, or the updated contractor |
| ContractorRouter.DeleteContractor | backend/api/contractor_router.py:104-115 | 404; 500 with nothing deleted when an award refers to the contractor; otherwise removes exactly that contractor |
| MinioClient.AfterLastDot | backend/core/minio_client.py:26 | the text after the last ".": has no ".", ends the name, is preceded by "." when the name has one |
| MinioClient.Extension | backend/core/minio_client.py:26 | "jpg" for a name without "."; otherwise the lower-cased text after the last "."; never contains "." |
| MinioClient.ObjectName | backend/core/minio_client.py:27-28 | the name starts with "projects/" and ends with "." and the extension |
| MinioClient.FirstSlash | backend/core/minio_client.py:27 | the position of the first "/" |
| MinioClient.FirstSlashAfter | backend/core/minio_client.py:27 | the first "/" after a slash-free prefix sits right after it |
| MinioClient.ObjectNameNamesProject | backend/core/minio_client.py:27-28 | the object name's first segment after "projects/" is the project id |
| MinioClient.ObjectNamesOfProjectsDiffer | backend/core/minio_client.py:27-28 | images of different projects never share an object name |
| MinioClient.ObjectStore.EnsureBucket | backend/core/minio_client.py:19-21 | the bucket exists afterwards, and nothing else is added |
| MinioClient.EnsureBucketTwice | backend/core/minio_client.py:19-21 | ensuring the bucket twice equals ensuring it once |
| MinioClient.ObjectStore.UploadProjectImage | backend/core/minio_client.py:24-43 | stores the bytes with their length and "image/"+ext under the name and returns it, or raises "MinIO upload failed: …" storing nothing |
| ProjectImageRouter.StoredFilename | backend/api/project_image_router.py:40-46 | a missing or empty filename becomes "unknown.jpg" |
| ProjectImageRouter.UploadRefusal | backend/api/project_image_router.py:27-37 | 404 for an unknown project, then 400 for a type outside the four allowed, then 400 for an empty file |
| ProjectImageRouter.NewImage | backend/api/project_image_router.py:44-50 | the image row records the project, the filename, the object name, the caption and the uploader |
| ProjectImageRouter.UploadObjectName | backend/api/project_image_router.py:40 | the object name of an upload names the project it was uploaded to |
| ProjectImageRouter.UploadedImageUnderItsProject | backend/api/project_image_router.py:40-47 | the stored object name names the image's own project |
| ProjectImageRouter.UploadImage | backend/api/project_image_router.py:19-55 | a refused request, or a storage failure (500 "Storage upload failed: …"), changes nothing; otherwise one object and one row are added |
| ProjectImageRouter.RecordImage | backend/api/project_image_router.py:44-53 | adds the row under the next id |
| ProjectImageRouter.OfProject | backend/api/project_image_router.py:60 | the rows of the project, in order |
| ProjectImageRouter.ImagesOf | backend/api/project_image_router.py:58-60 | exactly the project's images, as stored, in id order |
| ProjectImageRouter.ImageRowsFacts | backend/api/project_image_router.py:60 | the id-ordered image rows are the stored ones, each once |
| ProjectImageRouter.PublicView | backend/api/project_image_router.py:78-86 | a missing or empty caption shows "No caption"; the URL is None when presigning failed |
| ProjectImageRouter.PublicListing | backend/api/project_image_router.py:67-88 | one public entry per image, in order, each shown with the answer to a seven-day presign |
| ProjectImageRouter.PresignAll | backend/api/project_image_router.py:67-88 | the loop builds exactly that listing |
| ProjectImageRouter.PublicImages | backend/api/project_image_router.py:63-88 | the public listing of exactly the project's images |
| ProjectImageRouter.PublicListingComplete | backend/api/project_image_router.py:65-88 | every image of the project appears in the public listing |
| ProjectImageRouter.ViewImage | backend/api/project_image_router.py:91-105 | 404 for a missing image or one of another project; 500 when presigning fails; otherwise a redirect to the one-hour URL |
| ProjectImageRouter.ViewedImageIsListed | backend/api/project_image_router.py:93-95 | an image that can be viewed under a project is in that project's listing |

## Left out

- JWT signing, verification and expiry checking (python-jose) are the `encode`/`decode` parameters; `decode` answers None wherever jose raises.
- Password hashing (`set_password`) and the login endpoint: the hasher is a parameter.
- `ACCESS_TOKEN_EXPIRE_MINUTES` is its default of 1440 (backend/core/config.py:23). An override from the environment is not modelled.
- The settings module that backend/dependencies/admin_auth.py imports is not part of this model. Its secret and algorithm are folded into the `decode` parameter.
- Floating-point parsing (`float`) and `datetime.strptime` in the import are parameters that fail or give a value. Budgets and amounts are reals, not IEEE doubles.
- CSV reading (`csv.DictReader`, the BOM-tolerant encoding), the argparse entry point, the missing-file check and the progress prints of the import are left out. A CSV file is a sequence of rows mapping column names to text.
- Case folding is ASCII only, both for `as_bool` and for `ilike`. Python's `str.lower` also folds non-ASCII capitals. `ilike` wildcards typed inside a search term (`%`, `_`) are taken literally.
- Titles sort by code point; the database's collation is not modelled. Rows with equal sort keys come out in the order the stable insertion sort gives; the database leaves them unordered.
- Queries without `ORDER BY` are modelled in a fixed order: id order for the id-keyed tables, insertion order for constituencies. `.first()` picks the least id.
- The unused project count (`_total_count`) of the project listing is not modelled.
- The constituency listing takes `offset` and `limit` as naturals. Negative values reach the database engine there, whose behaviour is outside the model.
- FastAPI's request validation is not modelled: 422 bodies, enum parsing of the project query filters, and any body that does not match its schema are assumed valid. The one exception is the offset/limit bounds of the project listing, which answer 422.
- Foreign keys are not enforced, as in SQLite without `PRAGMA foreign_keys`. Deleting a constituency leaves the projects that refer to it. Deleting a project leaves its feedback and image rows. The awards are the exception: the ORM relationships set their NOT NULL keys to NULL, so deleting a project or contractor that an award refers to fails with a 500.
- An `id` sent by the client in a create or update body of a table model is ignored: records get the next autoincrement id.
- Date-time rendering (`isoformat`) and JSON response shaping are left out. Timestamps are integers of seconds.
- Presigned URLs are made by the object server and are the `presign` parameter, which also chooses between a URL and an error. The uuid of an object name is a parameter.
- Exceptions other than `S3Error` from `presigned_get_object` in the public listing (they would give a 500) are left out.
- Whether `put_object` succeeds is the `PutOutcome` parameter, including an upload into a missing bucket. The upload is not tied to the set of buckets.
- Designs with several awards per project are modelled for the listing (one row per award). Only `create_award` keeps awards at one per project.
- The feedback status sent in the body of `submit_feedback` is stored as sent, as the table model allows it.
- Extension: lower-cases the extension with ASCII folding only, where `str.lower` is Unicode; an extension with non-ASCII capitals keeps them in the model.
- A dict body (`create_user`, the role, status and password requests) holds only strings, null or nothing under a key. A number or other JSON value there, which makes `.strip()` raise and answers 500, is not representable.
- `upload_project_image` failures other than `S3Error` (a connection error, say) are not modelled. They would skip the "MinIO upload failed: " prefix.
