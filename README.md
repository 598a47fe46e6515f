# BoxCheckr in Dafny

BoxCheckr keeps a compliance inventory of an organisation's computers. A user enrols a
machine and gets an agent script that carries the machine's enrollment token. The agent
posts inventory reports (disk encryption, antivirus, firewall, screen lock) to
`POST /api/v1/inventory`. Each report becomes one snapshot row. Users see their own
machines and a dashboard. Admins see the whole fleet, annotate machines with notes and
hand out time-limited share links that show the fleet read-only to anyone holding them.

This project models the persistence layer and the request-level rules on top of it:

- `wrappers.dfy`, `models.dfy`: `Option`/`Result` and the record types of
  `internal/db/models.go`. Timestamps are integers (seconds). A missing `Latest` is `None`.
- `store.dfy`: the SQLite store as a class `Store.DB` whose fields are the tables
  (`users`, `machines`, `snapshots`, `notes`, `shareLinks`, plus the two AUTOINCREMENT
  counters). The schema's keys, UNIQUE columns and foreign keys form the invariant `Valid`.
  A write that would break one of them fails with a `DbError`. Every operation is one
  atomic step.
- `snapshots.dfy`, `dashboard.dfy`, `notes.dfy`, `ordering.dfy`: the rules the queries
  follow. These cover latest-snapshot resolution, history with its default cap, the
  dashboard counters, the note listing and the `ORDER BY … DESC LIMIT n` selection.
- `text.dfy`: the string functions the code relies on. These are ASCII lower-casing,
  prefix trimming, substring search and decimal integer parsing (`strconv`).
- `http.dfy`, `middleware.dfy`, `oidc.dfy`: responses and store lookups as handlers see
  them. Also the session gates `RequireAuth`/`RequireAdmin` and the pure OIDC rules.
- `api.dfy`, `share.dfy`, `enrollment.dfy`, `admin.dfy`, `scripts.dfy`, `generator.dfy`:
  the handlers. Each check is a pure function over lookups, in the code's order. A method
  then runs the check against the store and performs the one mutation.

Latest-snapshot resolution is `ORDER BY collected_at DESC LIMIT 1` with no tie-break, in
the single-machine query and in the bulk joins alike. The model therefore promises only
*some* row of the machine with maximal `collected_at`. The dashboard counters are bounded
accordingly. They are exact when no machine's latest row is tied
(`Dashboard.ExactWithoutTies`).

Random values (machine UUIDs, enrollment tokens, share-link ids) and the clock are
parameters of the operations. A colliding id or token gets the constraint error the
schema would raise. JSON decoding is the parameter `decode`.

Choices the model makes where the code is loose or surprising:

- **Ties.** The latest-snapshot queries have no tie-break, so the model allows any row
  with maximal `collected_at`.
- **Share-link errors.** ViewSharedInventory answers 500 "Failed to validate share link"
  on a store error. It uses one 404 message for an empty id and another for a missing or
  expired link. The model keeps all three replies apart, as the code does.
- **Machine lookup errors.** MachineDetail, DeleteMachine, AddMachineNote,
  AdminDeleteMachine and MachineScript answer an error from `GetMachine` like a missing
  machine, with 404. The `Lookup` value `Failed` stands for that error.
- **Note deletion.** `DeleteMachine` itself deletes only the snapshots and the machine.
  The notes go through the schema's `ON DELETE CASCADE` (internal/db/sqlite.go:81),
  which the model states as part of the postcondition.

## Model

| member | source | states |
|---|---|---|
| Text.Lower | internal/scripts/generator.go:49 | same length, every character lower-cased (ASCII) |
| Text.LowerIdempotent | internal/scripts/generator.go:49 | lower-casing twice is lower-casing once |
| Text.TrimPrefix | internal/handlers/api.go:35 | with the prefix present, prefix + result is the input; otherwise the input is returned |
| Text.TrimPrefixUnchangedIff | internal/handlers/api.go:35-36 | for a non-empty prefix, trimming changes nothing exactly when the prefix is absent |
| Text.ParseInt64 | internal/handlers/enrollment.go:176 | a result lies in the int64 range and is the decimal reading of the text; every in-range decimal text is accepted |
| Text.ParseFormatRoundTrip | internal/handlers/share.go:23 | parsing the decimal form of any integer gives that integer back |
| Ordering.TopByKey | internal/db/sqlite.go:441-444 | `ORDER BY key DESC LIMIT cap`: min(cap, pool) rows drawn from the pool (all of it when it fits), non-increasing, and no row left out has a greater key than a returned one |
| Snapshots.ResolveLatest | internal/db/sqlite.go:404-419 | absent exactly when the machine has no row, otherwise a row of that machine with maximal collected_at |
| Snapshots.ResolveBulkLatest | internal/db/sqlite.go:211-216 | the joined listings' latest row: absent iff no row, otherwise a maximal row of the machine without raw_data |
| Snapshots.MaxCollected | internal/db/sqlite.go:178-182 | `MAX(collected_at)` per machine: absent iff no row, otherwise attained by a row of the machine and no row of it is later |
| Snapshots.LatestExists | internal/db/sqlite.go:410-412 | a machine with rows has a latest row |
| Snapshots.LatestIsMax | internal/db/sqlite.go:213-217 | every latest row carries the machine's `MAX(collected_at)` |
| Snapshots.SingleAndBulkAgree | internal/db/sqlite.go:302-307 | the single-machine result with raw_data dropped is an admissible bulk result: both paths follow one rule |
| Snapshots.DistinctTimesMakeLatestUnique | internal/db/sqlite.go:411-412 | when a machine's rows have distinct times, its latest row is unique |
| Snapshots.SnapshotsOf | internal/db/sqlite.go:442 | `WHERE machine_id = ?`: exactly the rows of that machine |
| Snapshots.SnapshotsNotOf | internal/db/sqlite.go:279 | `DELETE … WHERE machine_id = ?` leaves exactly the other machines' rows, ids still increasing |
| Snapshots.AppendOne | internal/db/sqlite.go:385-397 | an insert adds the row at the end of its own machine's rows and leaves every other machine's rows unchanged |
| Snapshots.AppendedIsLatest | internal/db/sqlite.go:58 | a row stamped no earlier than its machine's other rows becomes its latest row and its maximum |
| Snapshots.DeleteKeepsOthers | internal/db/sqlite.go:279 | after the delete the machine has no rows and every other machine keeps its rows in order |
| Snapshots.RowActivityIsLastActivity | internal/db/sqlite.go:218 | `COALESCE(s.collected_at, m.created_at)` over the latest row equals `COALESCE(MAX(collected_at), m.created_at)` |
| Snapshots.EffectiveLimit | internal/db/sqlite.go:432-434 | a limit ≤ 0 becomes 50, a positive limit is kept |
| Snapshots.HistoryRows | internal/db/sqlite.go:436-445 | history rows are rows of that machine, at most the cap, newest first |
| Snapshots.AppendMany | internal/db/sqlite.go:385-397 | N inserts for one machine, one after another, extend its rows by exactly those N rows in order |
| Snapshots.HistoryCountsSubmissions | internal/db/sqlite.go:441-444 | N submissions for a machine with no earlier rows, N within the cap, give exactly those N rows as its history |
| Snapshots.HistoryStartsWithLatest | internal/db/sqlite.go:443 | the first history row is a latest row |
| Dashboard.Tally | internal/db/sqlite.go:506-534 | total = owned machines; encrypted + unencrypted and protected + unprotected = machines with a latest row; each flagged count lies between the machines whose every latest row has the flag and those with one that has it; LastChecked is the newest collection time, nil iff no row |
| Dashboard.CountStep | internal/db/sqlite.go:515-529 | counting one machine's latest row keeps each flag's counters right |
| Dashboard.LaterStep | internal/db/sqlite.go:531-533 | replacing LastChecked only by a later time keeps it the newest time seen |
| Dashboard.ExactWithoutTies | internal/db/sqlite.go:496-498 | without ties, the sure and possible sets coincide, so the counts are exact |
| Notes.FindNote | internal/db/sqlite.go:563 | absent iff no row has the id, otherwise a row with it |
| Notes.NoteListing | internal/db/sqlite.go:576-579 | exactly the machine's rows whose author exists, joined with the author |
| Notes.ListingRows | internal/db/sqlite.go:574-596 | a listing holds only the machine's notes with their authors' names, newest first |
| Notes.NotesNotOf | internal/db/sqlite.go:81 | the cascade leaves exactly the other machines' notes, ids still increasing |
| Notes.WithoutNote | internal/db/sqlite.go:606 | `DELETE … WHERE id = ?` leaves exactly the other notes |
| Notes.EditChangesOnlyTarget | internal/db/sqlite.go:598-603 | the update changes content and updated_at of that note only; ids, machines, authors and creation times stay; an unknown id changes nothing |
| Store.FiltersCombine | internal/db/sqlite.go:312-319 | the owner and machine filters combine with AND; with both empty only the inner join remains |
| Store.FiltersIgnoreCase | internal/db/sqlite.go:313-317 | `LIKE` ignores (ASCII) case: lower-cased filters select the same machines |
| Store.DB.constructor | internal/db/sqlite.go:38-89 | empty tables satisfy the schema's invariant |
| Store.DB.UpsertUser | internal/db/sqlite.go:97-106 | fails iff another user has the email; otherwise the id's row gets email, name and is_admin, keeps its created_at if it existed, and no other row changes |
| Store.DB.GetUser | internal/db/sqlite.go:108-119 | absent (no error) exactly for an unknown id, otherwise that user's row |
| Store.DB.CreateMachine | internal/db/sqlite.go:131-146 | fails iff the id or token is taken or the owner is unknown; otherwise exactly one machine with that owner, name, token and time is added |
| Store.DB.GetMachine | internal/db/sqlite.go:148-159 | absent exactly for an unknown id, otherwise that machine |
| Store.DB.GetMachineByToken | internal/db/sqlite.go:161-172 | absent iff no machine holds the token, otherwise the stored machine holding it |
| Store.DB.GetMachinesByUser | internal/db/sqlite.go:174-200 | exactly the user's machines, each once, most recently active first |
| Store.DB.GetMachinesWithLatestByUser | internal/db/sqlite.go:203-269 | each of the user's machines once, with its latest row set only when it has one, ordered by last activity |
| Store.DB.DeleteMachine | internal/db/sqlite.go:271-289 | the machine, all its snapshots and (by the cascade) all its notes are removed; other rows stay |
| Store.DB.DescribeMachine | internal/db/sqlite.go:351-378 | a fleet row carries the owner's email and name, some latest row and the notes listing |
| Store.DB.GetAllMachinesWithOwners | internal/db/sqlite.go:292-381 | exactly the machines whose owner row exists and that pass both filters, each once, each described |
| Store.DB.UnfilteredFleetIsComplete | internal/db/sqlite.go:300-301 | unfiltered, the inner join drops no machine: every machine appears once |
| Store.DB.CreateSnapshot | internal/db/sqlite.go:385-397 | fails iff the machine is unknown; otherwise exactly one row with the next id, the machine and the clock's time is appended |
| Store.DB.GetLatestSnapshot | internal/db/sqlite.go:399-429 | absent iff the machine has no row, otherwise one of its rows with maximal collected_at |
| Store.DB.GetSnapshotHistory | internal/db/sqlite.go:431-471 | the machine's rows, newest first, capped at the effective limit |
| Store.DB.GetUserDashboardStats | internal/db/sqlite.go:483-537 | the dashboard counters of the user's machines (see Dashboard.Tally) |
| Store.DB.CreateMachineNote | internal/db/sqlite.go:541-555 | fails iff machine or author is unknown; otherwise one note with the next id and both timestamps at now is appended and returned with the author's name |
| Store.DB.GetMachineNote | internal/db/sqlite.go:557-572 | absent iff no note has the id; otherwise that note joined with its author |
| Store.DB.GetMachineNotes | internal/db/sqlite.go:574-596 | the machine's notes with their authors, newest first |
| Store.DB.UpdateMachineNote | internal/db/sqlite.go:598-603 | only that note's content and updated_at change |
| Store.DB.DeleteMachineNote | internal/db/sqlite.go:605-608 | only the note with that id is removed |
| Store.DB.CreateShareLink | internal/handlers/share.go:30 | stores a link by the creator with the given expiry; fails only on a taken id |
| Store.DB.GetValidShareLink | internal/handlers/share.go:89 | present exactly when the link exists and now is before its expiry |
| Store.DB.GetAllShareLinks | internal/handlers/share.go:64 | every stored link, expired or not, each once |
| Store.DB.DeleteShareLink | internal/handlers/share.go:48 | removes the link, no error when it is missing |
| Generator.DetectOS | internal/scripts/generator.go:48-61 | always one of "windows", "darwin", "linux" |
| Generator.DetectOSPrecedence | internal/scripts/generator.go:50-60 | windows iff "windows"/"powershell" occurs; darwin iff not that and "darwin"/"mac" occurs; linux otherwise, also with no keyword |
| Generator.DetectOSIgnoresCase | internal/scripts/generator.go:49 | detection gives the same answer for the lower-cased user agent |
| Generator.PowerShellIsWindows | internal/scripts/generator.go:50-52 | any user agent containing "PowerShell" is Windows, even one that also says "Mac" |
| Generator.TemplateFor | internal/scripts/generator.go:22-33 | exactly "windows" and "darwin" get their own template; "linux" and every other value get the Linux one |
| Middleware.ContextUser | internal/middleware/auth.go:76-79 | nil unless a gate put a user in the context |
| Middleware.ContextIsAdmin | internal/middleware/auth.go:81-84 | true only if a gate put `true` there; false when absent |
| Middleware.RequireAuth | internal/middleware/auth.go:29-48 | passes iff there is a session and its user row is found, with that user and the session's admin flag; otherwise redirect to login, clearing the session iff there was one |
| Middleware.RequireAdmin | internal/middleware/auth.go:50-74 | passes iff the session is an admin's and its user is found; no session redirects; a non-admin session gets 403; an admin session whose user is missing or unreadable is cleared and redirected to login |
| Middleware.NonAdminRefusedWithoutLookup | internal/middleware/auth.go:58-61 | the 403 does not depend on the user lookup at all |
| Middleware.AdminFlagComesFromSession | internal/middleware/auth.go:44-46 | the context's admin flag is the session's, whatever the user row says |
| Middleware.AdminGateRefinesAuthGate | internal/middleware/auth.go:50-74 | RequireAdmin passes exactly the requests RequireAuth passes whose session is an admin's, with the same context |
| Oidc.NewProviderConfig | internal/auth/oidc.go:30-41 | fails iff tenant id, client id or secret is empty; the admin role defaults to "InventoryAdmin" |
| Oidc.ExchangedClaims | internal/auth/oidc.go:97-111 | the email claim falls back to preferred_username when empty |
| Oidc.IsAdmin | internal/auth/oidc.go:114-121 | true iff some role equals the admin role ignoring case |
| Oidc.NoRolesNoAdmin | internal/auth/oidc.go:115-120 | no roles, no admin |
| Oidc.HasRoleIgnoresCase | internal/auth/oidc.go:116 | the role test answers the same for the lower-cased admin role |
| Oidc.DefaultRoleAnyCase | internal/auth/oidc.go:39-41 | with the default role, "inventoryadmin" among the roles makes an admin |
| Api.Unmarshal | internal/handlers/api.go:59-63 | each present key sets its field, each absent one keeps Go's zero value; what the mapping promises is stated by Api.MappingRoundTrip and Api.AbsentFieldsAreZero |
| Api.MappingRoundTrip | internal/handlers/api.go:66-80 | the twelve reported fields reach the stored row unchanged and raw_data is the body verbatim |
| Api.AbsentFieldsAreZero | internal/handlers/api.go:59 | a body with no known key gives an all-zero report that still keeps the body |
| Api.ParseAuthorization | internal/handlers/api.go:29-39 | no header iff empty; a bearer token iff the header starts with "Bearer ", and then the header is "Bearer " + token |
| Api.PrefixIsCaseSensitive | internal/handlers/api.go:35 | "bearer " and "BEARER " are format errors |
| Api.BearerRoundTrip | internal/handlers/api.go:35-36 | parsing "Bearer " + t gives t |
| Api.CheckRequest | internal/handlers/api.go:29-80 | 401 missing, 401 format, 500 lookup error, 401 unknown token, 400 unreadable body, 400 bad JSON, in that order; admitted iff all pass, with the token's machine and the mapped row |
| Api.UnknownTokenIgnoresBody | internal/handlers/api.go:42-63 | an unknown token gets 401 whatever the body is |
| Api.Reply | internal/handlers/api.go:82-92 | 500 iff the insert failed; otherwise exactly {"status": "ok", "machine": name}, no token |
| Api.TokenLookupFinds | internal/db/sqlite.go:51 | with tokens unique, a machine's token finds that machine |
| Api.SubmitInventory | internal/handlers/api.go:27-93 | a refused request leaves the snapshot table as it was; an admitted one appends exactly one row for the token's machine at now |
| Share.Hours | internal/handlers/share.go:20-26 | the form value if it parses as an integer in 1..8760, otherwise 24 |
| Share.ExpiresAt | internal/handlers/share.go:28 | expiry = now + hours × 3600 s, so strictly after now and at most a year later |
| Share.HoursInRangeKept | internal/handlers/share.go:23-25 | every value 1..8760 written in decimal is honoured |
| Share.HoursOutOfRangeDefault | internal/handlers/share.go:21-26 | values ≤ 0 or over 8760, an empty field and text give 24 |
| Share.HoursExamples | internal/handlers/share.go:20-26 | "100" gives 100; "0", "10000" and "abc" give 24 |
| Share.CreateShareLink | internal/handlers/share.go:12-38 | no user gives 401 and stores nothing; otherwise the link by that user, expiring Hours later, is stored and the admin redirected with its id |
| Share.NewLinkLifetime | internal/handlers/share.go:28-30 | a new link is valid exactly until now + hours |
| Share.DeleteShareLink | internal/handlers/share.go:41-60 | empty id gives 400 and changes nothing; otherwise the link is removed without an existence check and the admin redirected |
| Share.AdminShareLinks | internal/handlers/share.go:63-78 | lists every stored link and passes the `new` value on |
| Share.SharedAccess | internal/handlers/share.go:82-97 | 404 for an empty id before any lookup; 500 on a store error; 404 for a missing or expired link; passes iff a live link is found |
| Share.ViewSharedInventory | internal/handlers/share.go:81-111 | a live link shows the unfiltered fleet; everything else is refused as SharedAccess says |
| Share.ExpiredLooksLikeUnknown | internal/handlers/share.go:89-97 | an expired link and an unknown one get the same 404 |
| Enrollment.EnrollMachine | internal/handlers/enrollment.go:17-38 | no user: login redirect; empty name: 400 and nothing created; otherwise 500 with nothing created exactly when the id or token is taken or the user has no row, and else exactly one machine owned by the current user is created and the user redirected to it |
| Enrollment.MachineAccess | internal/handlers/enrollment.go:41-58 | login redirect without user; 404 for a missing machine or lookup error; 403 unless owner or admin; passes otherwise |
| Enrollment.OwnersOnlyUnlessAdmin | internal/handlers/enrollment.go:55-58 | a non-admin passes exactly for their own machines |
| Enrollment.MachineDetail | internal/handlers/enrollment.go:40-72 | past the checks: the machine, a latest row, at most 20 history rows and the notes |
| Enrollment.DetailHistoryBounded | internal/handlers/enrollment.go:61 | the detail page shows at most 20 rows, all of that machine |
| Enrollment.DeleteMachine | internal/handlers/enrollment.go:74-106 | a refused request changes no table; a permitted one deletes the machine with its snapshots and notes and redirects to / |
| Enrollment.NoteAdmission | internal/handlers/enrollment.go:132-149 | login redirect, then 404 missing machine, then 400 empty content; no ownership check |
| Enrollment.AddMachineNote | internal/handlers/enrollment.go:131-164 | a refused request or a failed insert stores nothing and leaves the AUTOINCREMENT counter as it was; otherwise one note by the current user, with the next id, is appended, the counter advances by one and the user is redirected |
| Enrollment.AddMachineNoteRoute | cmd/server/main.go:70 | behind RequireAdmin a refused session stores nothing and leaves the counter (a non-admin gets 403); an admitted admin's request is handled as AddMachineNote with the session's user as author, and cannot hit the 500 |
| Enrollment.NoteRemoval | internal/handlers/enrollment.go:168-187 | login redirect, then 400 for a non-integer id, then 404 when the note is missing or on another machine |
| Enrollment.DeleteMachineNote | internal/handlers/enrollment.go:167-201 | a refused request deletes nothing; otherwise that note is removed and the user redirected |
| Enrollment.OtherMachinesNoteKept | internal/handlers/enrollment.go:176-187 | another machine's note is never deleted through this machine's URL, whatever text ("5", "+5", "007") names its id |
| Admin.AdminMachines | internal/handlers/admin.go:7-32 | the fleet query gets the owner and machine values unchanged and the page echoes them |
| Admin.AdminDeletion | internal/handlers/admin.go:35-46 | 400 for an empty id, 404 for a missing machine or lookup error, passes otherwise |
| Admin.AdminDeleteMachine | internal/handlers/admin.go:34-62 | refusals change nothing; any existing machine is deleted regardless of owner, with its snapshots and notes |
| Admin.DeletedMachineGone | internal/handlers/admin.go:49-52 | after deletion the machine is not found and none of its snapshots or notes remain |
| Scripts.ScriptMode | internal/handlers/scripts.go:26-29 | "onetime" only when mode is empty, otherwise mode unchanged |
| Scripts.ScriptOS | internal/handlers/scripts.go:32-35 | the `os` value if non-empty, otherwise DetectOS of the User-Agent |
| Scripts.ScriptResponse | internal/handlers/scripts.go:11-57 | 404 iff the machine is missing; otherwise the script data carry the machine's token, base URL, owner email or "", mode and id; text/plain and .ps1 iff the OS is "windows" |
| Scripts.OsChoice | internal/handlers/scripts.go:32-44 | an explicit os overrides the User-Agent; a PowerShell client without one gets the Windows script |
| Scripts.UnknownOsGetsShellScript | internal/handlers/scripts.go:38-44 | an unknown os value gets the shell headers and the Linux template |
| Scripts.MachineScript | internal/handlers/scripts.go:11-57 | over the store, the script names the machine's own token and its owner's email |

## Left out

- Store.DB.GetAllMachinesWithOwners: the `ORDER BY LOWER(u.name), LOWER(u.email), …` order of the fleet rows is not stated; membership, uniqueness and the row contents are.
- Dashboard.Tally and Store.DB.GetUserDashboardStats: with tied latest rows, each flagged count is bounded between the sure and the possible machines rather than fixed. The bounds are per flag, so they also admit combinations that no single choice of one latest row per machine produces.
- Api.Unmarshal: JSON syntax and type errors are the `decode` parameter; 64-bit integer limits of `screen_lock_timeout` and of row ids are not modelled (integers are unbounded).
- Api.SubmitInventory: the in-memory store never fails, so the 500 replies for a failed lookup or insert appear only in Api.CheckRequest and Api.Reply.
- Store: SQL text, transactions and indexes are left out. Each operation is one atomic step. Concurrent requests are not modelled.
- Store: the driver connection asks for foreign keys (internal/db/sqlite.go:19). The model assumes they are enforced, including the note cascade. Whether the driver honours that flag is not proved.
- Store: every storage error other than a constraint violation is left out. Handler checks take a `Lookup` whose `Failed` case stands for such an error.
- Store: the share_links table is not in the schema shown (internal/db/sqlite.go:38-89). Its four operations are reconstructed from their call sites in internal/handlers/share.go. A link counts as valid while `now < expiresAt`.
- Text: case-insensitivity (EqualFold, ToLower, SQLite LIKE) covers ASCII only. The `%` and `_` wildcards inside a user's filter text are not modelled.
- Text: the integer parsers keep the decimal syntax (optional sign, then digits) and the int64 range. Go's `0x`/underscore forms are not accepted by `strconv.Atoi` or `ParseInt(…, 10, 64)` either.
- Generator: reading and executing the embedded script templates is left out, and so is their 500 reply. The model stops at the template name and the ScriptData values.
- Html: page rendering (handlers.go), the note HTML fragment and the HTMX variants of the replies are left out. The HTMX variants change only the reply shape, never state.
- Dashboard handler (internal/handlers/dashboard.go): left out. It is glue around GetMachinesWithLatestByUser and GetUserDashboardStats, which are modelled.
- Login: the OAuth redirect and callback flow (internal/handlers/auth.go), OIDC discovery and token verification are left out. So is the cookie session store (internal/middleware/session.go). A session is `Option<Session>`.
- Randomness and time: UUID and token generation (crypto/rand, base64) are left out; the generated values are parameters. `time.Now` and `CURRENT_TIMESTAMP` are an integer `now`, in whole seconds.
- Routing (cmd/server/main.go) is modelled only where it matters. The note routes sit behind RequireAdmin (Enrollment.AddMachineNoteRoute). The script route has no session gate.
