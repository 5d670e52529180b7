# Ensaio Regional backend, modelled in Dafny

This project models the server side of a system that records attendance at
regional orchestra rehearsals ("ensaios regionais") of a church organisation.
Each tenant has administrators who keep the reference tables (cities,
instruments, ministry functions, regional administrations), create rehearsal
events, summon musicians and manage user accounts. Musicians log in and
register their attendance while an event's registration window is open.
Reports count the registered attendance by ministry, by instrument and by city.

The database is one `class Database` (module `Store`) whose tables are
sequences of records. A soft-deleted row carries a deletion time, and fresh
ids come from a counter. Each service operation is a method that changes only
the tables it writes. A function of the old tables specifies the method, and
lemmas state what the source promises about that function: error cases,
uniqueness of keys, what stays unchanged, and round trips. Every transaction
either fails and changes nothing, or completes.

Modules, following the backend's structure:

- `Wrappers`, `Store`, `Text`: optional and result values, the tables, and the
  JavaScript string operations the services rely on (`trim`, `toUpperCase`,
  whitespace collapsing, `includes`, `split`, `join`).
- `Normalization`, `NormalizationExamples`: `normalizeString` (trim,
  upper-case, accent stripping, whitespace collapsing), the instrument synonym
  table of `normalizeInstrumentName`, and `parseCidade`, with worked examples.
- `Auth`, `AuthHttp`: login, refresh-token rotation and logout, plus the
  controller's status and cookie decisions.
- `ErrorMapping`, `RoleGuard`: the global error handler's message-to-status
  rules and the role guard.
- `Catalog`, `Cities`, `Instruments`, `Funcoes`: the reference tables. Names
  are normalised into a unique key per tenant. Create finds, restores or
  inserts a row, and retries after a unique-key conflict. The modules also
  cover update, soft delete and the CSV import counters.
- `Registration`, `RegistrationHttp`: attendance registration in one
  transaction, the page's active-event lookup, and the route's schema and
  error replies.
- `Events`: rehearsal events (validation, defaults, duplicate detection,
  update, soft delete) and the summons list with the user links that mirror it.
- `AdminUsers`, `Regionals`: user and regional administration.
- `ReportTally`, `AnalyticReport`, `Dashboard`: the counters of the PDF
  report, the analytic report's city grouping, and the dashboard's city
  grouping, instrument labels and CSV rows.

## Model

| member | source | states |
|---|---|---|
| RoleGuard.Guard | backend/src/interfaces/http/middlewares/role.guard.ts:4-21 | no user is a 401 "Unauthorized"; SUPERADMIN and ADMIN pass whatever the list; any other role passes if and only if it is in the allowed list, else a 403 "Forbidden" |
| RoleGuard.UserOnlyGuard | backend/src/interfaces/http/middlewares/role.guard.ts:13-20 | a guard for USER alone rejects ADMIN_REGIONAL with 403 and admits SUPERADMIN and ADMIN |
| RoleGuard.GuardMonotone | backend/src/interfaces/http/middlewares/role.guard.ts:17-20 | a longer allowed list never rejects a request a shorter one admitted |
| ErrorMapping.StatusIsFirstRule | backend/src/infra/http/error-handler.ts:34-49 | the status is the first of the five message rules, in order, whose substrings the message contains; the P2002 code selects 409 only when neither of the first two rules matched |
| ErrorMapping.GlobalErrorHandler | backend/src/infra/http/error-handler.ts:5-58 | a zod error is a 400 "Validation Error" with its issues; a validation error a 400 with its message; a thrown error the status of its message rules; only 400/401/403/404/409/500 occur; a 500 hides the message and the stack exactly in production |
| Auth.LinkedEvent | backend/src/application/services/auth.service.ts:29-30 | the event found for a user row is the event its `ensaioRegionalId` names |
| Auth.ClaimsRegionals | backend/src/application/services/auth.service.ts:18-23 | the token's regional list is the pivot whenever the pivot is non-empty; the single regional is the legacy column when set, else the list's first element; both claims are present or both absent |
| Auth.LoginGate | backend/src/application/services/auth.service.ts:26-60 | an unknown email and a wrong password both give the same "Invalid credentials" error, and only they do; "access expired" only for a released non-admin whose linked event has ended; login passes exactly when the password matches and the user is an admin, or released with no ended linked event; a non-admin that fails gets "not summoned" exactly when not released |
| Auth.Revoke | backend/src/application/services/auth.service.ts:127-130 | revoking a record sets its revocation time and keeps the table's length |
| Auth.RefreshGate | backend/src/application/services/auth.service.ts:110-124 | refresh is allowed exactly for a known, unrevoked, unexpired digest; an unknown digest is "Invalid refresh token"; a revoked record is reuse even when also expired; the only errors are those three |
| Auth.EvolvesTransitive | backend/src/application/services/auth.service.ts:88-95 | two permitted changes of the token table (no record lost or altered except its revocation, revoked stays revoked) make a permitted change |
| Auth.RevokeEvolves | backend/src/application/services/auth.service.ts:126-130 | revoking a record and appending others is a permitted change of the token table |
| Auth.RotateKeepsLiveCount | backend/src/application/services/auth.service.ts:126-174 | revoking a live record and inserting a live one for the same user keeps every user's count of live records |
| Auth.ReplayIsReuse | backend/src/application/services/auth.service.ts:118-120 | after a successful refresh, presenting the same raw token again is reported as reuse, at any later time |
| Auth.MintedUnknown | backend/src/application/services/auth.service.ts:79-83 | a freshly generated token matches no stored record |
| Auth.Login | backend/src/application/services/auth.service.ts:26-101 | fails exactly as the login gate does and then changes nothing; on success appends exactly one unrevoked record of the user holding the digest of the returned raw token and expiring seven days later, and the access token carries the claims of the user's row |
| Auth.Refresh | backend/src/application/services/auth.service.ts:103-181 | fails with the gate's error, or "User not found" exactly when the record's user is gone, changing nothing; a passing gate with an existing user always succeeds; on success revokes the presented record, appends one fresh unrevoked record of the same user, builds the claims from the user's current row, and keeps every user's count of live records; the mint counter and the key counter each go up by one |
| Auth.Logout | backend/src/application/services/auth.service.ts:183-199 | an unknown token changes nothing; a known one only gets its revocation time set; no record is ever removed |
| AuthHttp.ParseLogin | backend/src/interfaces/http/controllers/auth.controller.ts:10-15 | the body parses exactly when the email is well formed and the password non-empty; otherwise the failing fields are listed, each exactly when it fails |
| AuthHttp.LoginReply | backend/src/interfaces/http/controllers/auth.controller.ts:17-40 | success is a 200 with the access token alone in the body and the refresh token in a seven-day cookie; an error with a status keeps it; "Invalid credentials" and only it becomes 401 "Credenciais inválidas"; any other error a 500; no error touches the cookie |
| AuthHttp.LoginNeverInternal | backend/src/interfaces/http/controllers/auth.controller.ts:32-40 | whatever the login gate decides, the login route answers 200, 401 or 403, never 500 |
| AuthHttp.RefreshReply | backend/src/interfaces/http/controllers/auth.controller.ts:52-73 | success is a 200 with the new cookie; every failure clears the cookie and is a bare 401 "Unauthorized", reuse included |
| AuthHttp.LoginRoute | backend/src/interfaces/http/controllers/auth.controller.ts:9-41 | a body the schema rejects is the global handler's 400 and changes nothing; otherwise the reply is 200 exactly when the login gate passes, a gate error is answered as the login reply maps it, and a pass is a 200 whose cookie carries the fresh raw token for seven days and whose body is the access token of the user's claims; on 200 the cookie's token digest and expiry are those of the one appended record |
| AuthHttp.RefreshRoute | backend/src/interfaces/http/controllers/auth.controller.ts:43-74 | no cookie is a 401 "Refresh token missing" without calling the service; a gate failure leaves the table as it was and clears the cookie; a passing gate whose user is gone is a 401 "Unauthorized" that clears the cookie and leaves the table as it was; a passing gate with an existing user is a 200 that sets the new refresh cookie for seven days and returns the access token of the user's current claims |
| AuthHttp.LogoutRoute | backend/src/interfaces/http/controllers/auth.controller.ts:76-89 | always 200 "Logged out" with the cookie cleared; with no cookie or an unknown token nothing changes; a known token is revoked |
| Normalization.Decompose | backend/src/shared/utils/normalization.ts:6 | canonical decomposition of one character starts with its base letter and adds at most one combining mark |
| Normalization.StripMarks | backend/src/shared/utils/normalization.ts:7 | the result holds no character of U+0300–U+036F and is no longer than the input |
| Normalization.Bases | backend/src/shared/utils/normalization.ts:6-7 | each character is replaced by its base letter, position by position |
| Normalization.StripMarksAppend | backend/src/shared/utils/normalization.ts:7 | stripping marks distributes over concatenation |
| Normalization.StripNfd | backend/src/shared/utils/normalization.ts:6-7 | decomposing a mark-free text and stripping the marks leaves the base letters of its characters |
| Normalization.NormalizeStringShape | backend/src/shared/utils/normalization.ts:2-9 | the key holds no combining mark and no run of two whitespace characters; every whitespace run is one plain space |
| Normalization.CollapseKeepsChars | backend/src/shared/utils/normalization.ts:8 | every character of the collapsed text is a plain space or a character of the input |
| Normalization.NormalizeIgnoresCase | backend/src/shared/utils/normalization.ts:5 | a name and its upper-casing share the key |
| Normalization.NormalizeIgnoresPadding | backend/src/shared/utils/normalization.ts:4 | whitespace around a name does not change its key |
| Normalization.NormalizeTo | backend/src/shared/utils/normalization.ts:2-9 | a trimmed text whose upper-casing is mark-free and whose base letters form a collapsed key normalises to that key |
| Normalization.CanonicalIsOwnKey | backend/src/shared/utils/normalization.ts:2-9 | a canonical ASCII key (upper-case letters and single inner spaces) is its own key |
| Normalization.KeyOfUpper | backend/src/shared/utils/normalization.ts:4-5 | a text whose upper-casing is a canonical ASCII key normalises to that key |
| Normalization.FirstMatch | backend/src/shared/utils/normalization.ts:28-31 | the position found holds the key and no earlier position does; no position means the key is absent |
| Normalization.FirstMatchAt | backend/src/shared/utils/normalization.ts:28-31 | the loop stops at position i exactly when the key sits there and nowhere before |
| Normalization.ApplySynonymsFirstMatch | backend/src/shared/utils/normalization.ts:11-31 | a name whose key first equals the key of entry i is stored as that entry's upper-cased value |
| Normalization.ApplySynonymsNoMatch | backend/src/shared/utils/normalization.ts:33 | a name whose key equals no entry's key is stored under its own key |
| Normalization.ParseCidadeDisplay | backend/src/shared/utils/normalization.ts:37-42 | the display text is the normalised input |
| Normalization.ParseCidadeWithoutDash | backend/src/shared/utils/normalization.ts:38-41 | without a '-' the trimmed key is the city, or "DESCONHECIDO" when empty, and the neighbourhood is "CENTRO" |
| Normalization.ParseCidadeOfDisplay | backend/src/shared/utils/normalization.ts:36-45 | a key "CITY - BAIRRO" with dash-free, trimmed parts splits back into exactly that city and neighbourhood |
| Normalization.SplitDisplay | backend/src/shared/utils/normalization.ts:38 | splitting "CITY - BAIRRO" on '-' gives the two padded parts |
| Normalization.DashAfterCity | backend/src/shared/utils/normalization.ts:38 | the first '-' of "CITY - BAIRRO" is the separator after the city |
| NormalizationExamples.AccentedKey | backend/src/shared/utils/normalization.ts:2-9 | an accented spelling normalises to the canonical key formed by the base letters of its upper-casing |
| NormalizationExamples.CampinasKey | backend/src/shared/utils/normalization.ts:4-5 | "campinas" and "Campinas" both give "CAMPINAS" |
| NormalizationExamples.PaddedCampinasKey | backend/src/shared/utils/normalization.ts:4-5 | "campinas" with any whitespace padding gives "CAMPINAS" |
| NormalizationExamples.OrgaoKey | backend/src/shared/utils/normalization.ts:6-7 | "Órgão" gives "ORGAO" |
| NormalizationExamples.SynonymsCanonical | backend/src/shared/utils/normalization.ts:15-25 | every key of the synonym table is a canonical ASCII name, so it is its own normalised key |
| NormalizationExamples.SynonymKeysOfCanonical | backend/src/shared/utils/normalization.ts:28-29 | a table with canonical keys is looked up by those keys unchanged |
| NormalizationExamples.InstrumentNameByKey | backend/src/shared/utils/normalization.ts:11-33 | an instrument name is the first matching entry's upper-cased value, else its key |
| NormalizationExamples.SynonymAt | backend/src/shared/utils/normalization.ts:28-30 | a name whose key is found at entry i is stored as that entry's upper-cased value |
| NormalizationExamples.ClarinetaSynonym | backend/src/shared/utils/normalization.ts:23 | "clarineta" is stored as "CLARINETE" |
| NormalizationExamples.VioloncelloSynonym | backend/src/shared/utils/normalization.ts:16 | "violoncelo" is stored as "VIOLONCELLO" |
| NormalizationExamples.FlautaSynonym | backend/src/shared/utils/normalization.ts:24 | "flauta transversal" is stored as "FLAUTA" |
| NormalizationExamples.UnlistedName | backend/src/shared/utils/normalization.ts:33 | a name whose key is in no entry is stored under that key |
| NormalizationExamples.EufonioNotIdempotent | backend/src/shared/utils/normalization.ts:20-33 | "eufonio" is stored as "EUPHÔNIO", and "EUPHÔNIO" is stored as "EUPHONIO", so normalising instrument names is not idempotent |
| Catalog.NormalizeNameIdempotent | backend/src/application/services/cidade.service.ts:15-17 | the admin services' name normalisation (trim, upper-case, collapse whitespace) is idempotent and yields a trimmed name |
| Catalog.FindByKey | backend/src/infra/repositories/cidade.repository.ts:73-82 | finds a row of the tenant holding the name, live or soft-deleted, and reports none only when no row holds it |
| Catalog.FindById | backend/src/infra/repositories/cidade.repository.ts:42-50 | finds only a live row of the tenant with that id, and reports none only when there is no such row |
| Catalog.FindByName | backend/src/infra/repositories/cidade.repository.ts:52-60 | finds only a live row of the tenant with that name, and reports none only when there is no such row |
| Catalog.List | backend/src/infra/repositories/cidade.repository.ts:32-40 | the list holds exactly the tenant's live rows |
| Catalog.KeyFoundIsOnly | backend/src/infra/repositories/cidade.repository.ts:73-82 | under the unique (tenant, name) index, the lookup by key finds the one row holding the key |
| Catalog.Restore | backend/src/infra/repositories/cidade.repository.ts:84-89 | restoring clears the deletion mark, keeps id, tenant, name and columns, and changes no other row |
| Catalog.SoftDelete | backend/src/infra/repositories/cidade.repository.ts:91-99 | a live row of the tenant gets the deletion time and is returned; otherwise null and the table is unchanged |
| Catalog.Update | backend/src/infra/repositories/cidade.repository.ts:17-30 | a live row of the tenant gets the new name and columns and is returned; otherwise null and the table is unchanged |
| Catalog.UpdateKeepsValid | backend/src/application/services/cidade.service.ts:81-90 | when no other row holds the new name, renaming keeps the unique key and the primary keys |
| Catalog.SoftDeleteShrinksList | backend/src/infra/repositories/cidade.repository.ts:91-99 | a soft delete that happens removes exactly one row from the tenant's list, and one that does not removes none |
| Catalog.SoftDeleteHides | backend/src/infra/repositories/cidade.repository.ts:42-50 | after a soft delete the row is no longer found by id |
| Catalog.Resolve | backend/src/application/services/cidade.service.ts:29-36 | a live row holding the key is reused unchanged, a soft-deleted one is restored in place with the same id, otherwise the new row is appended; the result is a live row of the tenant with that name |
| Catalog.ResolveIdempotent | backend/src/application/services/cidade.service.ts:29-36 | resolving the same key again changes nothing and returns the same row |
| Catalog.ResolveKeepsValid | backend/src/application/services/cidade.service.ts:29-44 | resolution keeps the unique key and the primary keys when an inserted row takes an unused id |
| Catalog.ResolveGrowsList | backend/src/application/services/cidade.service.ts:29-44 | resolution removes no row from the tenant's list and adds at most one |
| Catalog.ResolveKeepsOtherKeys | backend/src/application/services/cidade.service.ts:29-44 | resolving one key leaves every other key found at the same row, and a live row live |
| Catalog.FindOrInsert | backend/src/application/services/cidade.service.ts:29-55 | an existing key is resolved without inserting; otherwise the insert either meets the rows committed meanwhile, in which case a conflict re-runs the lookup on them, or fails and is rethrown with the table unchanged; the table stays valid |
| Cities.NameParts | backend/src/application/services/cidade.service.ts:58-66 | a name without " - " is kept whole with no neighbourhood; otherwise the first two segments, trimmed |
| Cities.DisplayNameRoundTrip | backend/src/application/services/cidade.service.ts:19-27 | a stored display name given back to find-or-create by name yields the same display name and city |
| Cities.Create | backend/src/application/services/cidade.service.ts:19-56 | a city with '-' is rejected with nothing changed; an existing key is resolved (reused or restored, same id); a missing key is inserted, or re-resolved after a conflict with a concurrent insert; any other insert failure is rethrown with nothing changed; after a concurrent commit the key counter goes up by one exactly when a row was appended |
| Cities.FindOrCreateByName | backend/src/application/services/cidade.service.ts:58-69 | create on the split parts: a city part with '-' is rejected with nothing changed; an existing display name is resolved (reused or restored, same id); a missing one is inserted, or on a concurrent commit resolved again on the table as it now is; any other insert failure is returned with nothing changed; a success is a live row of the tenant named by the display name; after a concurrent commit the key counter goes up by one exactly when a row was appended |
| Cities.UpdateCity | backend/src/application/services/cidade.service.ts:71-91 | a city with '-' and a display name held by another row, live or deleted, are rejected with nothing changed; otherwise the repository update of the row to the new names |
| Cities.DeleteCity | backend/src/application/services/cidade.service.ts:97-109 | the repository's soft delete: the row is marked deleted when live in the tenant, else null and nothing changes |
| Cities.ImportCsv | backend/src/application/services/cidade.service.ts:115-199 | the table, the key counter and both counters are those of the records folded in file order; the total is the number of records; inserted plus ignored is the number of records whose first field has at least two characters; the tenant's live list grows by exactly the inserted count; every accepted record's key ends up held by a live row |
| Cities.ImportRecord | backend/src/application/services/cidade.service.ts:133-181 | one pass of the loop is the fold's step on that record: skip, ignore a live key, restore a soft-deleted one with its columns refreshed, or insert |
| Cities.StepKeeps | backend/src/application/services/cidade.service.ts:133-181 | a step keeps the table valid and every key already held live, leaves its own key held live, counts an accepted record once, and grows the live list by what it counts as inserted |
| Cities.ImportCounts | backend/src/application/services/cidade.service.ts:129-182 | every accepted record is counted once, as inserted or ignored, and the live list grows by exactly the inserted count |
| Cities.ImportMakesLive | backend/src/application/services/cidade.service.ts:133-181 | after the import every accepted record's key is held by a live row of the tenant and the table stays valid |
| Cities.ImportFrame | backend/src/application/services/cidade.service.ts:133-181 | the import only appends rows, all live rows of the tenant; rows of other tenants and rows already live keep every column; a restored row keeps its id, tenant and name |
| Cities.StepGrows | backend/src/application/services/cidade.service.ts:150-181 | one step changes only a soft-deleted row of the tenant holding the key, or appends one live row of the tenant |
| Cities.ImportOfLiveIgnores | backend/src/application/services/cidade.service.ts:133-182 | when every accepted record's key is already live, the import changes no row and counts every accepted record as ignored |
| Cities.StepOfLive | backend/src/application/services/cidade.service.ts:150-169 | a record whose key is already live is ignored and changes nothing else |
| Cities.ImportTwice | backend/src/application/services/cidade.service.ts:115-199 | importing the same file again inserts nothing, changes no row and ignores every accepted record |
| Cities.ImportedExtend | backend/src/application/services/cidade.service.ts:150-181 | once a record's key is held by a live row, the import invariant extends to it |
| Cities.ReviveKeeps | backend/src/application/services/cidade.service.ts:155-166 | reviving a soft-deleted row keeps the table valid, keeps earlier keys live, and adds one live row |
| Cities.InsertKeeps | backend/src/application/services/cidade.service.ts:170-180 | inserting a row under an unused key keeps the table valid, keeps earlier keys live, and adds one live row |
| Instruments.Create | backend/src/application/services/instrumento.service.ts:18-44 | the name key is trim, upper-case and whitespace collapse only; an existing key is resolved (reused or restored with the same id) without inserting; a missing key is inserted, or re-resolved after a conflict with a concurrent insert; any other insert failure is rethrown with nothing changed; after a concurrent commit the key counter goes up by one exactly when a row was appended |
| Instruments.UpdateInstrument | backend/src/application/services/instrumento.service.ts:50-59 | a normalised name held by another row, live or deleted, is rejected with nothing changed; otherwise the repository update of the row |
| Instruments.DeleteInstrument | backend/src/application/services/instrumento.service.ts:65-67 | the repository's soft delete: the row is marked deleted when live in the tenant, else null and nothing changes |
| Instruments.ImportCsv | backend/src/application/services/instrumento.service.ts:73-124 | the loop ends in the state of the import fold over the records, and the total is the number of records; the table stays valid |
| Instruments.StepIsResolve | backend/src/application/services/instrumento.service.ts:94-115 | an accepted record's step resolves its key exactly as create does, without the insert race |
| Instruments.ImportKeepsValid | backend/src/application/services/instrumento.service.ts:89-117 | the import keeps the unique key and the primary keys |
| Instruments.ImportCounts | backend/src/application/services/instrumento.service.ts:89-117 | inserted plus ignored grows by the number of accepted records (first field of at least two characters), and the tenant's live list grows by exactly the inserted count |
| Instruments.StepKeepsHeld | backend/src/application/services/instrumento.service.ts:96-115 | a step leaves every key that was held by a live row still held by a live row |
| Instruments.ImportMakesLive | backend/src/application/services/instrumento.service.ts:89-117 | after the import every accepted record's name is held by a live row of the tenant |
| Instruments.ImportOfLiveIgnores | backend/src/application/services/instrumento.service.ts:100-109 | when every accepted name is already live, the import changes no row and counts every accepted record as ignored |
| Instruments.ImportTwice | backend/src/application/services/instrumento.service.ts:89-117 | importing the same records a second time inserts nothing, changes no row, and ignores every accepted record |
| Funcoes.UpsertIsResolve | backend/src/interfaces/http/controllers/admin/funcao.controller.ts:28-32 | the upsert that clears the deletion mark is the find-or-restore-or-insert of the other reference tables |
| Funcoes.CreateFuncao | backend/src/interfaces/http/controllers/admin/funcao.controller.ts:21-37 | a name under two characters is the global handler's 400 and changes nothing; otherwise the normalised name is upserted and the resolved row is sent with 201 |
| Funcoes.DeleteFuncao | backend/src/interfaces/http/controllers/admin/funcao.controller.ts:39-53 | a row not live in the tenant is 404 "Not found" with nothing changed, and only then; otherwise the row is soft-deleted and the reply is 204 |
| Funcoes.ListFuncoes | backend/src/interfaces/http/controllers/admin/funcao.controller.ts:11-19 | one entry per live row of the tenant, each the id and name of such a row, and every live row of the tenant appears |
| Events.CanonOpt | backend/src/application/services/ensaio-regional.service.ts:44-54 | an optional text field stays absent exactly when it was absent |
| Events.FindEvent | backend/src/infra/repositories/ensaio-regional.repository.ts:31-44 | finds only a live event of the tenant with that id, and reports none only when there is no such event |
| Events.FindDuplicate | backend/src/infra/repositories/ensaio-regional.repository.ts:46-57 | finds a live event of the tenant with that name and day other than the excluded one, and reports none only when there is no such event |
| Events.InsertByDate | backend/src/infra/repositories/ensaio-regional.repository.ts:69-71 | inserting one event into the list adds exactly that event |
| Events.InsertAtMost | backend/src/infra/repositories/ensaio-regional.repository.ts:69-71 | inserting keeps an upper bound on the event days that both the list and the new event respect |
| Events.InsertNewestFirst | backend/src/infra/repositories/ensaio-regional.repository.ts:69-71 | inserting into a newest-first list keeps it newest first |
| Events.SortNewestFirst | backend/src/infra/repositories/ensaio-regional.repository.ts:69-71 | the sorted list is a permutation of the input and is ordered newest event day first |
| Events.ListEvents | backend/src/infra/repositories/ensaio-regional.repository.ts:59-73 | the list holds exactly the tenant's live events, each as often as in the table, newest event day first |
| Events.CreatedSpec | backend/src/application/services/ensaio-regional.service.ts:13-56 | create succeeds exactly when the three dates parse, the end is after the start, the regionals do not clash and no live event of the tenant has the same upper-cased name and day; the invalid-dates and end-before-start errors occur exactly in their cases; the new row is live in the tenant with the next id, mirrors the window into the start and end columns, is active unless told otherwise, is summons-only only when told, has non-empty responsible types, and takes the conductors as regionals when none are given |
| Events.CreatedKeepsValid | backend/src/application/services/ensaio-regional.service.ts:32-56 | a created event keeps ids distinct and below the counter and keeps live (name, day) pairs unique in the tenant |
| Events.CreateEvent | backend/src/application/services/ensaio-regional.service.ts:13-68 | returns what the create specification decides; on success appends exactly the new row and advances the id counter; on failure changes nothing |
| Events.DateField | backend/src/application/services/ensaio-regional.service.ts:83-94 | an absent or empty date is skipped; a date that does not parse fails with that field's error; a parsed date is written |
| Events.ApplySpec | backend/src/infra/repositories/ensaio-regional.repository.ts:75-84 | writing a patch keeps id, tenant, owner regional and deletion stamp; changes the name or day only when given; mirrors a new start or end into the start and end columns; writing a patch twice is writing it once, and the empty patch changes nothing |
| Events.UpdatedSpec | backend/src/application/services/ensaio-regional.service.ts:78-143 | an unparseable date fails before anything else; a missing, deleted or foreign event is "Not found"; on success exactly that row changes, by the patch, and stays live in the tenant; an end before the start is accepted |
| Events.UpdatedKeepsValid | backend/src/application/services/ensaio-regional.service.ts:109-118 | an update whose name is not blank once trimmed keeps live (name, day) pairs unique in the tenant |
| Events.BlankNameSkipsCheck | backend/src/application/services/ensaio-regional.service.ts:81-118 | a name of only spaces is written as "" and skips the duplicate check |
| Events.BlankNameBreaksUniqueness | backend/src/application/services/ensaio-regional.service.ts:81-118 | there is a valid table and an update that passes every check yet leaves two live events of the tenant with the same name and day |
| Events.UpdateEvent | backend/src/application/services/ensaio-regional.service.ts:78-143 | the error or the new row the update specification decides; on failure the table is unchanged, on success it is the updated table |
| Events.DeleteEvent | backend/src/application/services/ensaio-regional.service.ts:145-158 | an event not live in the tenant is "Not found" with nothing changed; otherwise only its deletion stamp is set |
| Events.DeleteHides | backend/src/infra/repositories/ensaio-regional.repository.ts:86-96 | a deleted event is no longer found by id nor listed, and the table stays valid |
| Events.Summons | backend/src/infra/repositories/ensaio-regional.repository.ts:111-118 | the inserted summons rows are one per id, in order, each summoned |
| Events.SummonedRows | backend/src/infra/repositories/ensaio-regional.repository.ts:99-119 | the transaction succeeds exactly when no id repeats and no kept row already pairs the event with one of them; afterwards the event's rows in the tenant are exactly one summoned row per id, in order, and every other row is kept |
| Events.RelinkSpec | backend/src/infra/repositories/ensaio-regional.repository.ts:120-145 | a tenant user is linked to the event exactly when its id is in the list; users of other tenants, and users neither listed nor linked to the event, are untouched; only the link column changes |
| Events.SummonNobody | backend/src/infra/repositories/ensaio-regional.repository.ts:99-147 | summoning nobody succeeds, removes the event's summons rows in the tenant, and unlinks every tenant user linked to it |
| Events.SummonUsers | backend/src/application/services/ensaio-regional.service.ts:165-184 | an event not live in the tenant is "Evento não encontrado"; otherwise the result of the summons transaction; any failure changes nothing |
| Events.FindUser | backend/src/infra/repositories/ensaio-regional.repository.ts:152 | finds a user of the tenant with that id, soft-deleted or not, and reports none only when there is none |
| Events.LinkedSpec | backend/src/infra/repositories/ensaio-regional.repository.ts:150-169 | "User not found" exactly when the user is not in the tenant; "Ensaio not found" exactly when the user is but the event is not live in the tenant; on success only that user changes, now linked, a summoned row pairs them, and the summons table grows by at most one row, by none when the pair existed |
| Events.LinkUser | backend/src/infra/repositories/ensaio-regional.repository.ts:150-169 | the error or the tables the link specification decides; on failure nothing changes |
| AdminUsers.FindLive | backend/src/application/services/admin-user.service.ts:21-28 | finds only a live user of the tenant with that id, and reports none only when there is none |
| AdminUsers.FindByEmail | backend/src/application/services/admin-user.service.ts:32-39 | finds a user of the tenant with that e-mail, live or removed, and reports none only when there is none |
| AdminUsers.ListUsers | backend/src/application/services/admin-user.service.ts:6-19 | the list holds exactly the tenant's live users |
| AdminUsers.CreatedUserSpec | backend/src/application/services/admin-user.service.ts:30-64 | create succeeds exactly when no user of the tenant, live or removed, holds the e-mail; the removed-holder and live-holder errors occur exactly in their cases; the new user is live in the tenant with a fresh id, the hash of the password, the given role and event, and may log in exactly when an event was given |
| AdminUsers.CreatedUserKeepsValid | backend/src/application/services/admin-user.service.ts:30-64 | a created user keeps ids fresh and distinct and e-mails unique per tenant |
| AdminUsers.CreateUser | backend/src/application/services/admin-user.service.ts:30-64 | returns what the create specification decides; on success appends exactly the new row and advances the id counter; on failure changes nothing |
| AdminUsers.ChangedSpec | backend/src/application/services/admin-user.service.ts:78-92 | the rewrite keeps id, tenant and deletion stamp; applying it twice is applying it once; with no field supplied it changes nothing; it keeps access tied to the event link, and a supplied link decides access |
| AdminUsers.UpdatedUserSpec | backend/src/application/services/admin-user.service.ts:66-106 | "not found" exactly when the user is not live in the tenant; "e-mail in use" exactly when a new, different e-mail is held by any user of the tenant; "last admin" exactly when an ADMIN is demoted to USER with at most one live ADMIN; on success only that row changes, by the rewrite |
| AdminUsers.UpdatedUserKeepsValid | backend/src/application/services/admin-user.service.ts:70-76 | an update that writes no empty e-mail keeps ids distinct and e-mails unique per tenant |
| AdminUsers.UpdateKeepsAnAdmin | backend/src/application/services/admin-user.service.ts:94-100 | an update never takes a tenant from at least one live ADMIN to none, and only a demotion lowers the tenant's ADMIN count |
| AdminUsers.UpdateUser | backend/src/application/services/admin-user.service.ts:66-106 | the error or the table the update specification decides; on failure nothing changes |
| AdminUsers.DeletedUserSpec | backend/src/application/services/admin-user.service.ts:108-125 | self-deletion is refused exactly when the requester is the user; "not found" exactly when the user is not live in the tenant; "last admin" exactly when deleting the only live ADMIN; on success only the deletion stamp is set, the table stays valid, and the user is gone from lookup and list |
| AdminUsers.DeleteKeepsAnAdmin | backend/src/application/services/admin-user.service.ts:114-119 | a delete never takes a tenant from at least one live ADMIN to none |
| AdminUsers.DeleteUser | backend/src/application/services/admin-user.service.ts:108-125 | the error or the table the delete specification decides; on failure nothing changes |
| AdminUsers.AssignedSpec | backend/src/application/services/admin-user.service.ts:127-145 | succeeds exactly when the user is live in the tenant and a given event is live in the same tenant; on success only that user changes: linked to the event or unlinked, and allowed to log in exactly when linked |
| AdminUsers.AssignEvento | backend/src/application/services/admin-user.service.ts:127-145 | the error or the table the assignment specification decides; on failure nothing changes |
| AdminUsers.SelfDeleteAsWritten | backend/src/interfaces/http/controllers/admin/user.controller.ts:74-85 | there are users and claims for which an ADMIN deletes their own account through the route as written |
| AdminUsers.DeleteRoute | backend/src/interfaces/http/controllers/admin/user.controller.ts:74-85 | with the requester taken from the user-id claim, deleting oneself is refused and every other id behaves as the route as written |
| Regionals.FindRegional | backend/src/application/services/regional.service.ts:12-16 | finds only a regional with that id in the caller's tenant, and reports none only when there is none |
| Regionals.FindAnywhere | backend/src/application/services/regional.service.ts:29-30 | finds the row with that id in any tenant, and reports none only when no row has it |
| Regionals.ListRegionais | backend/src/application/services/regional.service.ts:5-10 | the list holds exactly the tenant's regionals |
| Regionals.UpperOpt | backend/src/application/services/regional.service.ts:22 | an optional sector stays present exactly when it was given |
| Regionals.NewRegionalSpec | backend/src/application/services/regional.service.ts:18-26 | the stored name and sector are the given ones upper-cased: no lower-case letter left, other characters and length kept, upper-casing again changes nothing |
| Regionals.CreateRegional | backend/src/application/services/regional.service.ts:18-26 | appends exactly the new regional with the next id |
| Regionals.CreatedRegionalKeepsValid | backend/src/application/services/regional.service.ts:18-26 | a created regional keeps ids unique and stored names upper-case |
| Regionals.UpdatedRegionalSpec | backend/src/application/services/regional.service.ts:28-37 | fails exactly when no row has the id; otherwise rewrites that row alone, keeping id and tenant, writing supplied names upper-cased, keeping absent fields |
| Regionals.UpdateRegional | backend/src/application/services/regional.service.ts:28-37 | the error or the table the update specification decides; on failure nothing changes |
| Regionals.DeleteGuard | backend/src/application/services/regional.service.ts:40-46 | delete is refused exactly while a user or an event of any tenant, live or removed, points at the regional |
| Regionals.DeletedRegionalRows | backend/src/application/services/regional.service.ts:39-51 | after delete the one row with that id is gone, every other row stays, nothing else is stored |
| Regionals.DeleteKeepsReferences | backend/src/application/services/regional.service.ts:39-51 | a delete that goes through leaves no user's and no event's regional dangling |
| Regionals.DeleteRegional | backend/src/application/services/regional.service.ts:39-51 | the error or the table the delete specification decides; on failure nothing changes |
| Regionals.CrossTenantWriteAsWritten | backend/src/application/services/regional.service.ts:28-51 | there is a regional another tenant's caller cannot find yet can rename and delete |
| Regionals.UpdateInTenantIsolated | backend/src/application/services/regional.service.ts:28-37 | scoped to the tenant, update leaves every other tenant's rows exactly as they were |
| Regionals.DeleteInTenantIsolated | backend/src/application/services/regional.service.ts:39-51 | scoped to the tenant, delete leaves every other tenant's rows exactly as they were |
| Regionals.InTenantAgrees | backend/src/application/services/regional.service.ts:28-51 | on a regional of the caller's own tenant, the scoped update and delete do what the code as written does |
| Registration.LatestWhere | backend/src/application/services/presenca.service.ts:44-53 | the event chosen satisfies the filter and starts no earlier than any other that does; none exactly when no event does |
| Registration.WindowKnown | backend/src/application/services/presenca.service.ts:76-84 | past the configuration check both ends of the window are known, yet a start only in the new pair with an end only in the legacy pair is still refused |
| Registration.EventGate | backend/src/application/services/presenca.service.ts:34-107 | a passing gate yields an event of the tenant that is live, active, has a window around now (ends included) and, in summons mode, has summoned the user; a linked event is the one used; "no active event" exactly when there is no link and no open event |
| Registration.GateOrder | backend/src/application/services/presenca.service.ts:61-91 | the checks fail in source order: not found, removed, inactive, misconfigured, not yet open, closed |
| Registration.LinkedHasNoFallback | backend/src/application/services/presenca.service.ts:40-59 | a user linked to an inactive event is refused, never sent to the open event instead |
| Registration.ByKeySpec | backend/src/application/services/presenca.service.ts:119-135 | the name lookup reuses a live row, restores a removed one or inserts a new one; only a refused insert fails; the id it gives is live in the tenant; the unique keys and ids survive |
| Registration.CityStepSpec | backend/src/application/services/presenca.service.ts:110-148 | a given city id must be a live city of the tenant; without id a name is looked up by its key; with neither the city is required; the id it gives is live |
| Registration.InstrumentStepSpec | backend/src/application/services/presenca.service.ts:150-179 | a given instrument id must be a live instrument of the tenant; otherwise a name is looked up by its instrument key; with neither there is no instrument |
| Registration.LiveIdFound | backend/src/application/services/presenca.service.ts:144-146 | a live row of the tenant is found by its id |
| Registration.FindOrCreate | backend/src/application/services/presenca.service.ts:119-135 | the step-by-step lookup computes the name-lookup specification |
| Registration.ResolveCity | backend/src/application/services/presenca.service.ts:110-148 | the step-by-step city resolution computes the city step |
| Registration.ResolveInstrument | backend/src/application/services/presenca.service.ts:150-179 | the step-by-step instrument resolution computes the instrument step |
| Registration.Create | backend/src/application/services/presenca.service.ts:20-196 | the tables become those the registration specification gives, and any failure leaves every table as it was |
| Registration.Register | backend/src/application/services/presenca.service.ts:31-195 | the transaction's steps compute the registration specification and keep the city and instrument tables valid |
| Registration.RecordAttendance | backend/src/application/services/presenca.service.ts:109-192 | the writes compute the write specification |
| Registration.AttendKeepsValid | backend/src/application/services/presenca.service.ts:109-192 | the writes keep the unique keys and ids of the city and instrument tables |
| Registration.AttendRecord | backend/src/application/services/presenca.service.ts:181-192 | a successful registration appends exactly one record: the user's, in the tenant, for the event, with the normalised ministry function, a live city, a live instrument when there is one, no free-text instrument and a fresh id |
| Registration.AttendErrors | backend/src/application/services/presenca.service.ts:138-158 | the city fails before the instrument; without a city id or name the city is required whatever the instrument |
| Registration.AttendByIds | backend/src/application/services/presenca.service.ts:143-159 | with ids of a live city and live instrument (or no instrument) the registration succeeds and adds nothing to either table |
| Registration.RegisteredGate | backend/src/application/services/presenca.service.ts:31-107 | a gate error is the result; a success records attendance at a live, active event of the tenant that is open at now |
| Registration.LinkedLive | backend/src/application/services/presenca.service.ts:224-235 | the linked event found is in the tenant, not deleted, and the one the user is linked to |
| Registration.ActiveEventCases | backend/src/application/services/presenca.service.ts:220-278 | getActiveEvent returns the linked event when it is active and in its window; any other event it returns is an open one; it returns nothing exactly when there is no linked live event and no open event |
| Registration.LegacyWindowShownNotChosen | backend/src/application/services/presenca.service.ts:44-53 | an event with only the legacy window pair is shown by getActiveEvent but never chosen by create's fallback |
| RegistrationHttp.ParseBody | backend/src/interfaces/http/controllers/presenca.controller.ts:10-21 | the body is accepted exactly when the ministry function has at least two characters, the ids are UUIDs, the names have at least two characters and a city id or name is given; the request then carries those fields; a rejection names the ministry function exactly when that field is missing or short |
| RegistrationHttp.ParsedNamesCity | backend/src/interfaces/http/controllers/presenca.controller.ts:16-19 | an accepted body always names a city and passes on only names of at least two characters |
| RegistrationHttp.UnmatchedIsInternal | backend/src/interfaces/http/controllers/presenca.controller.ts:35-41 | as written, a thrown message neither the catch nor the global handler recognises becomes a 500 whose message is hidden in production |
| RegistrationHttp.BusinessErrorsAreInternal | backend/src/interfaces/http/controllers/presenca.controller.ts:38-41 | as written, "no active event", "inactive" and "closed window" are answered with 500, where the intended reply is 400 |
| RegistrationHttp.Caught | backend/src/interfaces/http/controllers/presenca.controller.ts:35-41 | as intended, every business error of the service is a 400 with its message and only a database failure reaches the global handler |
| RegistrationHttp.CaughtKeepsBadRequests | backend/src/interfaces/http/controllers/presenca.controller.ts:35-41 | the intended reply keeps every 400 the written catch gives, with the same message, and makes every other business error a 400 |
| RegistrationHttp.CreateRoute | backend/src/interfaces/http/controllers/presenca.controller.ts:9-43 | a rejected body is the handler's 400 and changes nothing; otherwise the service runs for the token's user and tenant, success is 201 with the new record's id, and an error is answered by the intended catch |
| RegistrationHttp.CreateRouteAsWritten | backend/src/interfaces/http/controllers/presenca.controller.ts:9-43 | the route as written: the same parse, service call and 201, with errors answered by the written catch, so that "no active event", "inactive" and "closed window" come back as 500s |
| ReportTally.MapMatch | backend/src/application/services/pdf-relatorio.service.ts:85-91 | the spelling key found occurs in the instrument text; nothing is found exactly when no key occurs |
| ReportTally.StructureMatchSpec | backend/src/application/services/pdf-relatorio.service.ts:92-103 | a name the sheet search returns is an official name the text holds; when it returns nothing the text holds no official name |
| ReportTally.UpperAtOccurs | backend/src/application/services/pdf-relatorio.service.ts:95 | where a name reads a key once upper-cased, its upper-case form holds the key |
| ReportTally.ShadowedName | backend/src/application/services/pdf-relatorio.service.ts:85-103 | a name shadowed by a spelling key is never the name a text is counted under |
| ReportTally.OfficialShadowed | backend/src/application/services/pdf-relatorio.service.ts:16-18 | seven official names ("Flauta Alto", "Flauta Baixo", "Contra-Fagote" and the four larger clarinets) are shadowed by the spelling keys "FLAUTA", "FAGOTE" and "CLARINETE" |
| ReportTally.Bump | backend/src/application/services/pdf-relatorio.service.ts:87 | the named count goes up by one and no other count moves |
| ReportTally.SumBump | backend/src/application/services/pdf-relatorio.service.ts:87 | bumping a count raises the sum of the counts by one |
| ReportTally.NamesTotalBound | backend/src/application/services/pdf-relatorio.service.ts:212 | over names listed once, the per-name counts add up to at most the sum of all counts |
| ReportTally.CategoriesWithinMusicians | backend/src/application/services/pdf-relatorio.service.ts:210-213 | on a sheet listing each name once, the category totals `catTotal` add up to at most `totalMusicosSoproCordas`, so the category percentages add up to at most 100% |
| ReportTally.SheetTotalIsNames | backend/src/application/services/pdf-relatorio.service.ts:210-212 | the category totals of a sheet are the counts of all its names |
| ReportTally.MinCounts.Inc | backend/src/application/services/pdf-relatorio.service.ts:69-76 | the chosen ministry counter goes up by one, no other moves, and the total goes up by one |
| ReportTally.StepOrganists | backend/src/application/services/pdf-relatorio.service.ts:79-81 | one record adds one to the organist total exactly when it is an organist |
| ReportTally.StepMusicians | backend/src/application/services/pdf-relatorio.service.ts:82-83 | one record adds one to the musician total exactly when it is not an organist and names an instrument |
| ReportTally.StepMinistry | backend/src/application/services/pdf-relatorio.service.ts:69-76 | one record adds one to the counter of its ministry and to no other |
| ReportTally.StepName | backend/src/application/services/pdf-relatorio.service.ts:84-103 | one record adds one to the count of the name it is counted under and to no other |
| ReportTally.OrganistsCounted | backend/src/application/services/pdf-relatorio.service.ts:64-105 | the organist total is the number of organists among the records |
| ReportTally.MusiciansCounted | backend/src/application/services/pdf-relatorio.service.ts:64-105 | the musician total is the number of other records that name an instrument |
| ReportTally.MinistriesCounted | backend/src/application/services/pdf-relatorio.service.ts:64-105 | each ministry counter is the number of records whose function falls under that ministry |
| ReportTally.NamesCounted | backend/src/application/services/pdf-relatorio.service.ts:64-105 | each name's count is the number of musicians counted under that name |
| ReportTally.ShadowedNeverCounted | backend/src/application/services/pdf-relatorio.service.ts:64-105 | a shadowed name's count stays 0 whatever the records are |
| ReportTally.OfficialOrganOnlyByKey | backend/src/application/services/pdf-relatorio.service.ts:40 | the spelling map gives "ÓRGÃO" only from "ORGAO" and "ÓRGÃO" |
| ReportTally.NotNamedWithoutKey | backend/src/application/services/pdf-relatorio.service.ts:85-103 | a text is never counted under an upper-case name it does not hold, unless it holds a spelling key for that name |
| ReportTally.SeesUpper | backend/src/application/services/pdf-relatorio.service.ts:95 | a name already upper case is matched by the sheet only in a text that holds it |
| ReportTally.OrganNotNamed | backend/src/application/services/pdf-relatorio.service.ts:85-103 | a text with neither organ spelling is never counted as "ÓRGÃO" |
| ReportTally.OrganNeverCounted | backend/src/application/services/pdf-relatorio.service.ts:79-103 | organs are counted only as organists: the "ÓRGÃO" name count stays 0 |
| ReportTally.StepSum | backend/src/application/services/pdf-relatorio.service.ts:82-103 | one record raises the sum of the name counts by at most what it adds to the musician total |
| ReportTally.TallyBounds | backend/src/application/services/pdf-relatorio.service.ts:64-107 | the ministry counters and the grand total never exceed the number of records, and the name counts never add up to more than the musician total |
| ReportTally.MatchSpelling | backend/src/application/services/pdf-relatorio.service.ts:85-91 | the loop over the spelling map returns the official name of the first key the text holds |
| ReportTally.MatchNames | backend/src/application/services/pdf-relatorio.service.ts:94-100 | the loop over one category returns the first name the text holds |
| ReportTally.MatchSheet | backend/src/application/services/pdf-relatorio.service.ts:93-102 | the loop over the categories computes the sheet search |
| ReportTally.MatchOfficial | backend/src/application/services/pdf-relatorio.service.ts:84-103 | the search tries the spelling map and then the sheet only when no key matched |
| ReportTally.GerarTally | backend/src/application/services/pdf-relatorio.service.ts:56-107 | the loop over the records computes the tally of all of them |
| AnalyticReport.AddCounts | backend/src/application/services/pdf-relatorio.service.ts:283-291 | one record raises its city's total and its neighbourhood's count by one; every other city keeps its total and its counts |
| AnalyticReport.AddGrandTotal | backend/src/application/services/pdf-relatorio.service.ts:290 | one record adds one to the sum of the city totals |
| AnalyticReport.AddConsistent | backend/src/application/services/pdf-relatorio.service.ts:287-291 | one record keeps every city's total equal to the sum of its neighbourhood counts |
| AnalyticReport.CityKept | backend/src/application/services/pdf-relatorio.service.ts:287-289 | adding a record only appends a group for its own city |
| AnalyticReport.GroupsCount | backend/src/application/services/pdf-relatorio.service.ts:281-292 | each city's total is the number of its records, each neighbourhood count the number of records of that city and neighbourhood, the totals add up to the number of records, and each total is the sum of its neighbourhood counts |
| AnalyticReport.AddAt | backend/src/application/services/pdf-relatorio.service.ts:287-291 | where the city already has a group, that group is changed in place |
| AnalyticReport.AddNew | backend/src/application/services/pdf-relatorio.service.ts:287-289 | where the city has no group, one holding this record is appended |
| AnalyticReport.GroupCities | backend/src/application/services/pdf-relatorio.service.ts:283-292 | the loop over the records computes the grouping |
| Dashboard.PushNames | backend/src/application/services/relatorio.service.ts:49-51 | one row keeps the group names it had and adds at most its city |
| Dashboard.PushSpec | backend/src/application/services/relatorio.service.ts:49-58 | one row adds its count to the sum of the group totals and one neighbourhood entry, and keeps every total equal to the sum of its entries |
| Dashboard.GroupsOfSpec | backend/src/application/services/relatorio.service.ts:42-59 | the grouping loses only the rows whose city is not found: the totals add up to the counts of the other rows, with one entry per such row, and each total is the sum of its entries |
| Dashboard.PushAt | backend/src/application/services/relatorio.service.ts:49-58 | where the city already has a group, that group is changed in place |
| Dashboard.PushNew | backend/src/application/services/relatorio.service.ts:49-58 | where the city has no group, one holding this entry is appended |
| Dashboard.GroupByCity | backend/src/application/services/relatorio.service.ts:42-59 | the loop over the grouped rows computes the grouping |
| Dashboard.InsertSpec | backend/src/application/services/relatorio.service.ts:61 | inserting a group into a list sorted by descending total keeps it sorted and adds exactly that group |
| Dashboard.SortByTotalSpec | backend/src/application/services/relatorio.service.ts:61 | the sort returns the same groups, largest total first |
| Dashboard.StatsCidadeSpec | backend/src/application/services/relatorio.service.ts:39-61 | the city statistics are the groups reordered, largest total first, with no city name twice; their totals add up to the counts of the rows whose city is found, and each total is the sum of its entries |
| Dashboard.GroupSumPermutation | backend/src/application/services/relatorio.service.ts:61 | reordering the groups, as the sort does, keeps the sum of their totals |
| Dashboard.NamesPermutation | backend/src/application/services/relatorio.service.ts:61 | reordering groups whose names are distinct keeps them distinct |
| Dashboard.LabelSpec | backend/src/application/services/relatorio.service.ts:79-82 | a label is never empty: a row without an instrument reads "Sem Instrumento", one with an unknown instrument or an empty name reads "Desconhecido", otherwise the instrument's name |
| Dashboard.CsvRowSpec | backend/src/application/services/relatorio.service.ts:149-159 | the columns with a literal fallback are never empty, the name column is empty only for a user with neither name nor e-mail, and the instrument column shows the joined instrument's name whenever it has one |
| Text.TrimStartSpec | backend/src/shared/utils/normalization.ts:4 | the start of trimming removes only whitespace and keeps a suffix that does not start with whitespace |
| Text.TrimEndSpec | backend/src/shared/utils/normalization.ts:4 | the end of trimming removes only whitespace and keeps a prefix that does not end with whitespace |
| Text.TrimSpec | backend/src/shared/utils/normalization.ts:4 | trimming keeps one contiguous slice of the input and strips only whitespace at either end |
| Text.TrimPadding | backend/src/shared/utils/normalization.ts:4 | whitespace added around a string is removed by trimming |
| Text.TrimIdempotent | backend/src/shared/utils/normalization.ts:4 | trimming twice is trimming once |
| Text.ToUpperIdempotent | backend/src/shared/utils/normalization.ts:5 | upper-casing is idempotent and leaves no lower-case letter |
| Text.TrimToUpperCommute | backend/src/shared/utils/normalization.ts:4-5 | upper-casing and trimming commute |
| Text.CollapseSpacesSpec | backend/src/shared/utils/normalization.ts:8 | collapsing leaves only single plain spaces as whitespace, keeps every other character in order, and maps a non-empty input to a non-empty output |
| Text.CollapseIdempotent | backend/src/shared/utils/normalization.ts:8 | collapsing twice is collapsing once |
| Text.Split | backend/src/application/services/cidade.service.ts:63 | splitting yields at least one part and no part holds the separator |
| Text.SplitPair | backend/src/application/services/cidade.service.ts:63-65 | splitting "a - b" on " - " gives back the two parts when the city has no dash and the rest no " - " |
| Text.JoinSplit | backend/src/shared/utils/normalization.ts:41 | joining the parts of a split with the same separator gives back the input |

## Left out

- Cryptography: bcrypt, JWT signing and verification, SHA-256 and `crypto.randomUUID` are foreign calls. A digest is an injective constructor, a bcrypt hash is a constructor compared by equality, the salt is not modelled, and fresh raw tokens come from a counter.
- The database engine: Prisma, transaction isolation and concurrent writers are not modelled. A unique-key conflict on insert is a parameter of the operation (the row another writer committed, or a failure), not an interleaving.
- Query order: orderings (`orderBy: { nome: 'asc' }` in the city, instrument, function, user and regional lists) are not modelled; these lists are stated as sets of rows. The event list does sort, newest first, and the dashboard's city groups are sorted by total.
- The database's `groupBy`, `count`, `take: 10` and joins in the dashboard are inputs: the grouped rows and the joined records are given to the model, and the totals of presences, cities and events the dashboard reads straight from queries are not modelled.
- Dates and locale: date parsing is a three-way input (blank, parsed to a time, unparseable). Time is an integer number of milliseconds. `toLocaleString` is a parameter. The CSV export's `Data` column, the local-day filter of the dashboard's event search and dayjs formatting are not modelled.
- CSV parsing and writing are libraries: the imports start from already parsed records, and the export is modelled as its row mapping only.
- PDF rendering (layout, fonts, images, percentages computed in floating point) and the business-intelligence PDF are not modelled; only the counting that feeds the reports is.
- Audit logging is best-effort I/O that swallows its own errors and is not modelled.
- The frontend, the Fastify server setup, routes, CORS and rate limiting, the thin admin controllers around the services, scripts, seeds and HTTP test scripts are not part of this model.
- The JWT verification middleware is not part of this model beyond the claims it puts on the request (`userId`, `tenantId`, `role`).
- Events.UpdatedKeepsValid: stated only for updates whose new name is not blank. A name of only spaces is stored as "" and skips the duplicate check, so uniqueness can break; `Events.BlankNameBreaksUniqueness` exhibits it.
- AdminUsers.UpdatedUserKeepsValid: stated only for updates that do not set the e-mail to "". An empty e-mail is falsy, so it skips the uniqueness check yet is written.
- Text.UpperChar: upper-cases ASCII and the Latin-1 letters à-þ and ÿ only. JavaScript's `toUpperCase` also maps ß to "SS" (a longer string), µ to U+039C and every lower-case letter beyond U+00FF; those characters are left unchanged here.
- Text.ToUpper: inherits the Latin-1 restriction of Text.UpperChar, so its "length kept" and "no lower-case letter left" hold for this restricted mapping, not for names holding ß or letters beyond U+00FF.
- Normalization.BaseLetter: covers the precomposed Latin-1 capitals and U+0178 only. Precomposed letters beyond U+00FF (Ă, Ș, Ő and the like) are treated as their own base, where `normalize('NFD')` would split off the mark.
- Normalization.Decompose: the canonical decomposition table is the Latin-1 one of Normalization.BaseLetter; for other precomposed letters the model keeps one character where the real NFD yields two.
- Regionals.NewRegionalSpec: states the stored name and sector under the Latin-1 upper-casing of Text.ToUpper, not JavaScript's full Unicode mapping.
- RegistrationHttp.ParseBody: zod's `.min(2)` counts UTF-16 code units, while the model counts characters (code points). A name of one character outside the Basic Multilingual Plane passes zod but is refused here.
- Funcoes.CreateFuncao: the same gap as RegistrationHttp.ParseBody: zod's `.min(2)` on `nome` counts UTF-16 code units, while the model's `|nome| < 2` counts characters, so a one-character name outside the Basic Multilingual Plane is accepted by zod but refused here.
- Registration.LatestWhere: orders a null `dataInicio` last under the descending order. Where the database puts nulls under `orderBy: 'desc'` depends on the provider (PostgreSQL puts them first); the only filter the registration uses requires `dataInicio` to be set, so the choice never matters there.
- Auth.Login: the stored refresh expiry is `now + RefreshLifetime`, a fixed seven days in milliseconds. The service adds seven local calendar days with `setDate`, which differs by an hour across a daylight-saving change, and the controller reads the clock again for the cookie's expiry; both clock reads are the one `now` here.
- Auth.Refresh: the same fixed seven-day expiry as Auth.Login, for the rotated record and its cookie.
- ReportTally.CategoriesWithinMusicians: stated for a sheet that lists each official name once. That `ESTRUTURA_OFICIAL`'s 33 names are pairwise distinct is not proved here, so the bound is not instantiated for the report's own sheet. The percentages themselves (floating-point division and `toFixed(0)`) are not modelled.

## Findings

| source | as written | input that shows it | evidently intended | confidence | as-written member | corrected member |
|---|---|---|---|---|---|---|
| backend/src/interfaces/http/controllers/presenca.controller.ts:38-41 | only messages containing "não vinculado", "não encontrado" or "inválido" are answered with 400; every other business error of the service is rethrown, matches none of the global handler's rules and becomes a 500 | a registration for a tenant without an open event ("Nenhum evento ativo encontrado…"), for an inactive event, or after the window closed | every business error of the registration is a 400 with its message | not executed | RegistrationHttp.BusinessErrorsAreInternal | RegistrationHttp.Caught |
| backend/src/interfaces/http/controllers/admin/user.controller.ts:74-85 | the requester id is read from the token's `sub` claim, but the JWT middleware puts the id in `userId`, so the requester is always undefined and the self-deletion check never fires | an ADMIN who is not the tenant's last ADMIN deletes their own account | deleting oneself is refused | not executed | AdminUsers.SelfDeleteAsWritten | AdminUsers.DeleteRoute |
| backend/src/application/services/regional.service.ts:28-51 | `update` and `delete` address the row by id alone; the tenant argument is unused, so an administrator of one tenant can rename or delete another tenant's regional | a regional of tenant 0 with id 7, updated or deleted by an administrator of tenant 1 | writes are scoped to the caller's tenant, as `list` and `findById` are | not executed | Regionals.CrossTenantWriteAsWritten | Regionals.UpdateInTenantIsolated |
