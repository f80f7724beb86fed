# Projects provider: a verified model

This project models the Projects provider of Lenso: the PostgreSQL-backed store of Teams,
catalogs, Projects and Issues with its idempotent commands, revisions and permanent issue
identifiers; the activity stream; the batched issue pages; the streaming, byte-bounded
export; the wire form of domain errors; and the links and replies of the agent web endpoint.

`dafny verify dfyconfig.toml` checks everything.

| file | what it holds |
|---|---|
| `prelude.dfy`, `text.dfy`, `sorting.dfy` | results, decimal text, text order, stable sorting |
| `tables.dfy`, `commands.dfy` | the tables, what every reachable database satisfies, and what each command does |
| `parents.dfy`, `reorder.dfy`, `catalogs.dfy` | parent trees, full-catalog reorder, what catalog commands amount to |
| `effects.dfy` | for every command: each refusal in order, each row, the reply and the record, told of the whole transaction |
| `views.dfy`, `readback.dfy` | rows of a run from the requests alone; replies against later reads |
| `invariants.dfy`, `runs.dfy`, `retries.dfy` | each command keeps the invariant; runs and exactly-once effects; which retries are answered |
| `forests.dfy`, `interleavings.dfy`, `race.dfy` | when parents stay a forest; query and write as separate events; two updates that close a cycle |
| `reservations.dfy`, `overlap.dfy` | command keys reserved by overlapping transactions; what waiting is needed for |
| `history.dfy`, `identifiers.dfy`, `scenarios.dfy` | revisions as counts, no lost updates; identifiers for ever; concrete runs on which a promise fails |
| `store.dfy` | the provider as a class over mutable tables, statement by statement, with reservation and rollback |
| `admission.dfy`, `locks.dfy`, `retention.dfy` | what the checks establish about the actor; row locks; forgetting a subject |
| `activity.dfy`, `pages.dfy` | the commit gate and the polling consumer; four-query pages against the single loader |
| `json.dfy`, `reader.dfy`, `export.dfy` | UTF-8, JSON text, the bounded writer; a JSON reader; the export collector |
| `codec.dfy`, `web.dfy` | domain errors, issue links, bounded replies |

A command has two parts, as in the source: checks made outside any transaction (`Admit`) and
one transaction (`Transact`). A run is the sequence of transactions in commit order. Because
the checks may have read any earlier state, the theorems about runs let the values captured
by them be arbitrary, and with them the parent links seen by the query of `update_issue`;
nothing rests on the checks still being true. Three files take transactions apart:
`locks.dfy`, `interleavings.dfy` and `reservations.dfy` interleave the statements whose order
matters, and the latter two prove that every interleaving is a run.

The class in `store.dfy` is proved equal to `Transact`, operation by operation; what
`Transact` leaves and answers is told row by row in `effects.dfy`, and the properties of whole
runs are proved about it.

## Where the code keeps less than its documentation says

- Commands are documented as idempotent under their key. The checks before the transaction
  come first, so a retry is answered from its receipt if and only if nothing they read was
  taken away (`Retries.RetryExactly`, with the condition per operation in
  `Retries.StillOpen`; `Scenarios.RetryCanBeRefused`).
- Historical identifiers are documented to resolve for ever. A reference is looked up as an
  issue id first, so an identifier resolves to its issue if and only if no other issue of the
  Organization has that text as its id (`Identifiers.ResolvesExactly`,
  `Scenarios.IdentifierCanBeShadowed`). Re-issue is ruled out without any condition.
- A Team that takes over a key used before can be unable to number issues until its key
  changes again (`Scenarios.ReusedKeyCanBlock`, `Identifiers.BlockedUntilRekeyed`); with keys
  that never change this cannot happen (`Identifiers.NextIsFree`).
- Revisions protect Teams, Projects and Issues without exception, but a workflow state or
  project status that is deleted and created again starts at revision 1 again
  (`History.NoLostUpdate`, `Scenarios.RevisionCanComeBack`).
- Every transaction is documented to append an activity record. Retention raises the revision
  of the Issues it unassigns without one (`History.StreamMissesRetention`).
- The parent check and the write of the parent are two statements, and neither locks what the
  other reads. Two updates of different Issues whose queries both come first can commit a
  cycle (`Race.OverlapCanCloseCycle`), if and only if their parents are crossed in the links
  both saw (`Forests.TwoUpdatesExactly`). The parents of a run stay a forest if and only if no
  write closes a loop (`Forests.ForestExactly`, `Interleavings.TraceForestExactly`). Once an
  Issue is its own ancestor, the parent query for it finds new rows for ever
  (`Parents.QueryEndsExactly`).

## Model

| member | source | states |
|---|---|---|
| `Runs.ReachableInvariant` | crates/lenso-projects-postgres-plugin/src/postgres_tests.rs:99-132 | In every run of commands, retries, failures, catalog reads and retention, with any values in place of what was read before the writes: default states and statuses exist and qualify, no Issue or Project refers to a missing or archived entry, an Issue's Team is one of its Project's and its state that Team's, parents exist in the same Organization, every shown identifier is recorded, the stream holds each Team's and Project's revisions as 1, 2, 3, ... and an Issue's in ascending order, with one record per receipt |
| `Invariants.TransactKeeps` | crates/lenso-projects-postgres-plugin/src/storage.rs:75-191 | One transaction keeps all of that whatever was captured before it began: its own statements and the table constraints suffice |
| `Invariants.PutTeamKeeps` | crates/lenso-projects-postgres-plugin/src/storage.rs:2580-2610 | Creating or changing a Team keeps the whole invariant (a valid default state for every Team included) and records the new revision of exactly what it changed |
| `Invariants.CatalogKeeps` | crates/lenso-projects-postgres-plugin/src/storage.rs:207-286 | Creating a status catalog on first use keeps the invariant (exactly one default per catalog included), gives the Organization its catalog and changes no other table |
| `Invariants.ArchiveStateKeeps` | crates/lenso-projects-postgres-plugin/src/storage.rs:3174-3217 | Archiving or unarchiving a state keeps every default and every Issue on a live state |
| `Invariants.DeleteStateKeeps` | crates/lenso-projects-postgres-plugin/src/storage.rs:3274-3330 | Deleting a state leaves no reference to it, although only one Team's Issues are looked at |
| `Invariants.ReorderStatesKeeps` | crates/lenso-projects-postgres-plugin/src/storage.rs:3026-3066 | A reorder disturbs no reference and no default |
| `Invariants.DeleteStatusKeeps` | crates/lenso-projects-postgres-plugin/src/storage.rs:3770-3820 | Deleting a status leaves every Project with a live status |
| `Invariants.CreateProjectKeeps` | crates/lenso-projects-postgres-plugin/src/storage.rs:565-665 | Creating a Project keeps the invariant (live status, at least one Team, timestamps that match the status category) and records the new revision of exactly what it changed |
| `Invariants.UpdateProjectKeeps` | crates/lenso-projects-postgres-plugin/src/storage.rs:795-850 | Updating a Project keeps every one of its Issues on an attached Team and records the new revision of exactly what it changed |
| `Invariants.CreateIssueKeeps` | crates/lenso-projects-postgres-plugin/src/storage.rs:1082-1108 | Creating an Issue keeps the invariant; the only identifier it can add is the one a Team gives out next, never a recorded one; the record is revision 1 of that Issue |
| `Invariants.UpdateIssueKeeps` | crates/lenso-projects-postgres-plugin/src/storage.rs:1377-1402 | Updating an Issue keeps its state its own Team's and its parent an Issue of its Organization, whatever Team and links were captured before, and raises only that Issue's revision, by one |
| `Invariants.MoveIssueKeeps` | crates/lenso-projects-postgres-plugin/src/storage.rs:1513-1536 | Moving an Issue keeps the invariant and every earlier identifier record; the only one it can add is the next of a Team, never a recorded one; it raises only that Issue's revision, by one |
| `Invariants.HistoryGrows` | crates/lenso-projects-postgres-plugin/src/storage.rs:157-191 | A change that accounts for its revisions and appends its record keeps the stream numbering Teams and Projects record by record, and Issues in ascending order |
| `Effects.CreateIssueEffect` | crates/lenso-projects-postgres-plugin/src/storage.rs:1082-1128 | From reservation to commit: each refusal of create_issue in the order of its checks, and otherwise every column of the Issue, the Team and the identifier record, the reply, the activity record and the receipt |
| `Effects.UpdateIssueEffect` | crates/lenso-projects-postgres-plugin/src/storage.rs:1377-1420 | The same for update_issue: the row takes title, state and parent from the request and keeps everything else |
| `Effects.MoveIssueEffect` | crates/lenso-projects-postgres-plugin/src/storage.rs:1513-1550 | The same for move_issue: Team, state and identifier change, the Team counts on, the old identifier stays recorded |
| `Effects.UpdateProjectEffect` | crates/lenso-projects-postgres-plugin/src/storage.rs:795-851 | The same for update_project, completed and canceled times included |
| `Effects.ArchiveStateEffect` | crates/lenso-projects-postgres-plugin/src/storage.rs:3174-3217 | The same for archive_workflow_state: the default is looked at before references, references before the revision |
| `Effects.CreateTeamEffect` | crates/lenso-projects-postgres-plugin/src/storage.rs:2481-2625 | The same for a new Team: it starts with five named states of fixed categories and positions, the second of them its default |
| `Effects.CatalogEffect` | crates/lenso-projects-postgres-plugin/src/storage.rs:207-286 | A new catalog holds six named statuses of fixed categories and positions, the first of them the default, if and only if the fresh ids are new |
| `Views.StateIsAsRequested` | crates/lenso-projects-postgres-plugin/src/storage.rs:1389-1395 | A create, update or move that takes effect leaves and answers the very state asked for, the Team's default if none was, a live state of the Issue's Team |
| `Views.WrongStateIsNotFound` | crates/lenso-projects-postgres-plugin/src/storage.rs:306-322 | A chosen state that is missing, archived, or another Team's or Organization's is refused as not found, and nothing changes |
| `Views.IssuesAreAsAsked` | docs/plugin-card.md:56-57 | In every run each column of an Issue that requests decide is what the requests that took effect last asked for; retention only takes the assignee away |
| `Views.StepTimes` | crates/lenso-projects-postgres-plugin/src/storage.rs:814 | An update that stays in the completed or canceled category leaves that time, entering sets the time of the transaction, leaving clears it, and no other step touches it |
| `Views.TimesAreLastEntries` | crates/lenso-projects-postgres-plugin/src/storage.rs:814 | In every run a Project is completed or canceled at the time of its last entry into that category, and otherwise not at all |
| `Views.RecordTellsIssue` | crates/lenso-projects-postgres-plugin/src/storage.rs:157-191 | The activity record of a command about an Issue names the actor, the Issue, its new revision and the Project it is in, although the Project was read before the transaction |
| `Runs.OneEffectPerKey` | crates/lenso-projects-postgres-plugin/src/storage.rs:75-151 | Under one key all successes have the same request and the same reply, and only the first changes anything, also after the entity is gone |
| `Runs.ConflictChangesNothing` | crates/lenso-projects-postgres-plugin/src/postgres_tests.rs:580-594 | Another request under a used key is a conflict and leaves the database as it is |
| `Runs.ReplaysRemovable` | crates/lenso-projects-postgres-plugin/src/postgres_tests.rs:847-885 | Striking every retry, conflict and failure from a run leaves a run of effective steps that reaches the same database |
| `Runs.EffectsHaveDistinctKeys` | crates/lenso-projects-postgres-plugin/migrations/001_create_projects.sql:1-12 | No key is behind two effects |
| `Runs.ReceiptsLast` | crates/lenso-projects-postgres-plugin/src/storage.rs:110-123 | A receipt is never changed or removed |
| `Runs.KeysExactly` | crates/lenso-projects-postgres-plugin/migrations/001_create_projects.sql:1-12 | Two commands share a key if and only if caller, actor, idempotency key and operation are the same |
| `Runs.ReplayHasOrigin` | crates/lenso-projects-postgres-plugin/src/storage.rs:100-123 | A success without an effect repeats the reply of an earlier effective step of the same caller, actor, key and request |
| `Retries.RetryExactly` | crates/lenso-projects-postgres-plugin/src/storage.rs:1036-1075 | A retry of a command that took effect, checked and reserved at any later moments, gets the first reply if and only if nothing its checks need was taken away; for nine of the eighteen operations (memberships, states, statuses and their reorders) nothing ever can be |
| `Retries.UndisturbedRetry` | crates/lenso-projects-postgres-plugin/src/storage.rs:524-547 | Otherwise only three kinds of other commands can make a retry fail: changing a Team, ending a membership, replacing a Project's Teams; a command never shuts out its own retry |
| `Reservations.TraceIsRun` | crates/lenso-projects-postgres-plugin/src/storage.rs:84-97 | With reservations of overlapping transactions interleaved statement by statement, an insert waiting for another one's uncommitted row of the key, every trace is a run of transactions that each act alone when they end; a skipped insert always finds its row |
| `Reservations.OneEffectUnderOverlap` | crates/lenso-projects-postgres-plugin/src/storage.rs:75-123 | However retries of one command overlap, all that succeed have the same request and reply, and only the first changes anything |
| `Overlap.UnwaitingRepeats` | crates/lenso-projects-postgres-plugin/src/storage.rs:84-97 | Were the insert not to wait, one command under one key could take effect and be recorded twice |
| `Scenarios.RetryCanBeRefused` | crates/lenso-projects-postgres-plugin/src/storage.rs:524-547 | Counterexample to unconditional idempotency: a Project is created, its Team is made private, and the same command is now refused |
| `History.NoLostUpdate` | crates/lenso-projects-postgres-plugin/src/postgres_tests.rs:483-530 | Two commands that expect the same revision of an entity never both take effect; for states and statuses, unless the entity was deleted in between |
| `History.RevisionsGrow` | crates/lenso-projects-postgres-plugin/src/storage.rs:332-338 | No revision goes back while its entity exists |
| `History.RevisionCountsMutations` | docs/plugin-card.md:56-58 | After any run the revision of a Team, Project, Issue, workflow state or project status is the number of effective mutations of it since it was created, its creation included, as decided by the requests: named, listed in an accepted reorder, drawn by a new Team or a new catalog, cleared by retention; it exists if and only if that number is not 0 |
| `History.StreamMissesRetention` | crates/lenso-projects-postgres-plugin/src/storage.rs:4662-4663 | The stream records exactly the revisions of an Issue that no retention gave it, so their number is the revision minus the number of times retention ended its assignment |
| `History.StreamNumbersRevisions` | crates/lenso-projects-postgres-plugin/src/postgres_tests.rs:900-937 | An Issue at revision n that retention never touched has exactly n records, numbered 1 to n |
| `Scenarios.RevisionCanComeBack` | crates/lenso-projects-postgres-plugin/src/storage.rs:3318-3330 | Counterexample for states: delete and re-create bring revision 1 back, and two commands expecting it both take effect |
| `Identifiers.NeverReissued` | crates/lenso-projects-postgres-plugin/src/postgres_tests.rs:565-588 | An identifier once shown by one Issue is never shown by another, in any later state |
| `Identifiers.PreviousIsComplete` | crates/lenso-projects-postgres-plugin/src/storage.rs:432-438 | Every identifier an Issue ever showed is its current one or among the previous ones returned with it |
| `Readback.PreviousAreOwn` | crates/lenso-projects-postgres-plugin/src/storage.rs:432-438 | In every run the previous identifiers of an Issue are exactly those it once showed and does not show now, and no other Issue showed any of them, earlier or later |
| `Readback.GetAgreesWithReply` | crates/lenso-projects-postgres-plugin/src/storage.rs:1148-1175 | Who may see the Issue and reads it right after a command about it gets the row and the previous identifiers that the command answered |
| `Identifiers.ResolvesExactly` | crates/lenso-projects-postgres-plugin/src/storage.rs:482-489 | An identifier keeps resolving to its Issue if and only if no other Issue of the Organization has that text as its id |
| `Scenarios.IdentifierCanBeShadowed` | crates/lenso-projects-postgres-plugin/src/storage.rs:482-489 | Counterexample to resolving for ever: an Issue created with another's identifier as its id takes over the lookup |
| `Identifiers.NextIsFree` | crates/lenso-projects-postgres-plugin/src/storage.rs:1091-1104 | As long as no Team's key changed, a Team's next identifier is always new, so no create or move fails over it |
| `Identifiers.BlockedUntilRekeyed` | crates/lenso-projects-postgres-plugin/src/storage.rs:2598 | Such a Team stays blocked through any run that does not change its key |
| `Scenarios.ReusedKeyCanBlock` | crates/lenso-projects-postgres-plugin/src/storage.rs:2546-2555 | Counterexample: a Team given the key that another one had before cannot number its first Issue |
| `Text.IdentifierInjective` | crates/lenso-projects-postgres-plugin/src/storage.rs:1099 | Key and number can be read off an identifier |
| `Text.RevisionRoundTrip` | crates/lenso-projects-postgres-plugin/src/storage.rs:332-342 | Every revision and row number that is printed parses back to itself, as a revision and as a cursor |
| `Text.ParsesExactly` | crates/lenso-projects-postgres-plugin/src/storage.rs:332-342 | A revision or cursor is accepted if and only if it is the decimal text of a positive 64-bit number, with or without a plus sign and zeros in front |
| `Admission.TeamsCheckedExactly` | crates/lenso-projects-postgres-plugin/src/storage.rs:524-547 | Comparing one count with the length of the list means: no repetition, all exist, all are open to the actor |
| `Admission.IssueChecks` | crates/lenso-projects-postgres-plugin/src/storage.rs:364-382 | In a reachable database the check of an Issue refuses a missing one as not found and anyone who is not an active member of each private Team of its Project, and nobody else |
| `Admission.IssueAdmission` | crates/lenso-projects-postgres-plugin/src/storage.rs:1036-1056 | Which checks stand before a command about an Issue, in which order, and what they carry into its transaction |
| `Locks.ReferencesStayLive` | crates/lenso-projects-postgres-plugin/src/storage.rs:306-322 | However the statements of referring and archiving transactions interleave, the key-share and update locks keep every committed reference off archived entries |
| `Locks.UnlockedBreaks` | crates/lenso-projects-postgres-plugin/src/storage.rs:3174-3176 | The same statements without the locks can commit a reference to an archived entry |
| `Retentions.ForgetKeepsTables` | crates/lenso-projects-postgres-plugin/src/storage.rs:4662-4663 | Forgetting a subject keeps every reference, identifier and parent |
| `Retentions.ApplyKeeps` | crates/lenso-projects-postgres-plugin/src/storage.rs:4627-4668 | A retention action, new or repeated, keeps the whole invariant: Teams and Projects stay numbered record by record, Issues ascending |
| `Retentions.ForgottenExactly` | crates/lenso-projects-postgres-plugin/src/storage.rs:4662-4668 | A new retention action ends the assignments of the subject, each with a new revision, and writes its tombstone for the subject in every record, column by column and nothing else |
| `Retentions.NoTrace` | crates/lenso-projects-postgres-plugin/src/storage.rs:4654-4663 | Afterwards no assignment and no record of the Organization names the subject, unless the subject is called like the tombstone |
| `Catalogs.ReorderStatesExactly` | crates/lenso-projects-postgres-plugin/src/storage.rs:2973-3101 | All or nothing: accepted if and only if every unarchived state is named once at its current revision; then positions and revisions move and the reply is in position order |
| `Catalogs.ReorderStatusesExactly` | crates/lenso-projects-postgres-plugin/src/storage.rs:3463-3590 | The same for project statuses |
| `Reorder.ReorderAcceptedExactly` | crates/lenso-projects-postgres-plugin/src/storage.rs:3026-3052 | Equal counts and distinct ids make the one-sided comparison of ids an equality of sets |
| `Reorder.RefusedAs` | crates/lenso-projects-postgres-plugin/src/storage.rs:3026-3052 | A refused reorder is a revision conflict if and only if the counts agree and the first entry, by id, not named at its revision is named at another; otherwise the request is invalid |
| `Store.CheckItems` | crates/lenso-projects-postgres-plugin/src/storage.rs:3033-3052 | The loop over the locked rows returns the first problem in id order |
| `Catalogs.DeleteStateExactly` | crates/lenso-projects-postgres-plugin/src/storage.rs:3247-3361 | In a reachable database deletion succeeds if and only if the state is archived and the revision matches |
| `Catalogs.DeleteStatusExactly` | crates/lenso-projects-postgres-plugin/src/storage.rs:3741-3852 | The same for statuses |
| `Parents.WouldCreateCycle` | crates/lenso-projects-postgres-plugin/src/storage.rs:506-522 | Where the recursive query ends, it answers whether the proposed parent is below the Issue |
| `Parents.QueryEndsExactly` | crates/lenso-projects-postgres-plugin/src/storage.rs:515 | The query reaches an empty level if and only if the Issue is not below itself |
| `Parents.RelinkKeepsForest` | crates/lenso-projects-postgres-plugin/src/storage.rs:506-522 | A new parent keeps the forest if and only if it is neither the Issue nor below it |
| `Parents.TwoRelinksKeepForest` | crates/lenso-projects-postgres-plugin/src/storage.rs:506-522 | Two new parents that both passed the check on one forest leave a forest if and only if they are not crossed, each at or below the other's child |
| `Forests.ForestExactly` | crates/lenso-projects-postgres-plugin/src/storage.rs:1377-1396 | The parents form a forest throughout a run if and only if no update is written whose parent is below its Issue at that moment, whatever its query saw |
| `Forests.TwoUpdatesExactly` | crates/lenso-projects-postgres-plugin/src/storage.rs:1377-1396 | Two successive update_issue commands whose queries both preceded both writes leave a forest if and only if their parents are not crossed in the links they saw |
| `Forests.SerialChecksKeepForest` | crates/lenso-projects-postgres-plugin/src/storage.rs:1377-1396 | If no link changes between each query and its write, every reachable database is a forest |
| `Interleavings.TraceIsRun` | crates/lenso-projects-postgres-plugin/src/storage.rs:1377-1396 | With query and write as separate events between which others commit, every trace is a run whose updates carry the links their queries saw |
| `Interleavings.TraceForestExactly` | crates/lenso-projects-postgres-plugin/src/storage.rs:1377-1396 | In every such interleaving the parents stay a forest if and only if no write closes a loop |
| `Interleavings.LoopNeedsOverlap` | crates/lenso-projects-postgres-plugin/src/storage.rs:1377-1396 | A write closes a loop only if the parent links changed since its own query |
| `Race.OverlapCanCloseCycle` | crates/lenso-projects-postgres-plugin/src/storage.rs:1377-1396 | Counterexample: two admitted update_issue commands on different Issues, each naming the other, ask, ask, write, write, and both commit a cycle |
| `Store.Provider.ReserveCommand` | crates/lenso-projects-postgres-plugin/src/storage.rs:75-123 | Tells a new key, a replay with its recorded reply and a conflict apart, and reserves only a new key |
| `Store.Provider.CompleteCommand` | crates/lenso-projects-postgres-plugin/src/storage.rs:125-151 | Completes exactly a pending reservation |
| `Store.Provider.EnsureProjectStatusCatalog` | crates/lenso-projects-postgres-plugin/src/storage.rs:207-286 | The insert loop equals the catalog specification, or fails |
| `Store.Provider.InsertDefaultWorkflowStates` | crates/lenso-projects-postgres-plugin/src/storage.rs:2481-2538 | The insert loop equals the workflow specification, or fails |
| `Store.Provider.PutTeam` | crates/lenso-projects-postgres-plugin/src/storage.rs:2580-2625 | Statement by statement what the specification of put_team says, whose outcome `effects.dfy` tells row by row |
| `Store.Provider.ReorderWorkflowStates` | crates/lenso-projects-postgres-plugin/src/storage.rs:3026-3077 | The check loop, the update loop and the reply loop equal the specification |
| `Store.Provider.ReorderProjectStatuses` | crates/lenso-projects-postgres-plugin/src/storage.rs:3510-3570 | The same for reorder_project_statuses |
| `Store.Provider.AttachTeams` | crates/lenso-projects-postgres-plugin/src/storage.rs:840-851 | Inserting the Teams one by one gives their set, or fails on a missing or repeated one |
| `Store.Provider.CreateProject` | crates/lenso-projects-postgres-plugin/src/storage.rs:565-665 | Statement by statement what the specification of create_project says |
| `Store.Provider.UpdateProject` | crates/lenso-projects-postgres-plugin/src/storage.rs:795-851 | The same for update_project, with its replacement of the attached Teams |
| `Store.Provider.CreateIssue` | crates/lenso-projects-postgres-plugin/src/storage.rs:1082-1128 | The same for create_issue, from the Team's counter to the identifier record |
| `Store.Provider.UpdateIssue` | crates/lenso-projects-postgres-plugin/src/storage.rs:1377-1420 | The same for update_issue, with the level-by-level parent query wherever that query ends |
| `Store.Provider.MoveIssue` | crates/lenso-projects-postgres-plugin/src/storage.rs:1513-1550 | The same for move_issue |
| `Store.Provider.Execute` | crates/lenso-projects-postgres-plugin/src/storage.rs:1056-1146 | Reserve, statements, activity, completion and rollback refine one atomic transaction, for every command |
| `Store.Provider.Serve` | crates/lenso-projects-postgres-plugin/src/storage.rs:1030-1146 | A command from its checks, on whatever earlier state their statements saw, to its answer; an error leaves the tables as they were |
| `Activity.ListActivity` | crates/lenso-projects-postgres-plugin/src/storage.rs:1754-1822 | The page loop returns the specified page and cursor text, and refuses invalid limits and cursors |
| `Activity.DeliveredExactly` | crates/lenso-projects-postgres-plugin/src/storage.rs:168-191 | In every interleaving of transactions and polls a consumer has received exactly the visible committed records up to its cursor, once each, ascending |
| `Activity.RowsAreCommitted` | crates/lenso-projects-postgres-plugin/src/storage.rs:173-191 | The table holds exactly what committed transactions appended, as they appended it, gated or not |
| `Activity.NothingBehindTheCursor` | README.md:25-31 | No record ever commits at or below a cursor that was already returned |
| `Activity.ShortPageCatchesUp` | crates/lenso-projects-postgres-plugin/src/storage.rs:1777-1819 | After a page shorter than its limit the consumer has everything committed and visible |
| `Activity.EmptyPageKeepsCursor` | crates/lenso-projects-postgres-plugin/src/storage.rs:1780 | A page is empty exactly when nothing visible is past the cursor, and then repeats the cursor |
| `Activity.UngatedSkips` | crates/lenso-projects-postgres-plugin/src/storage.rs:168-171 | Without the commit gate there is a run in which a committed, visible record stays behind the cursor |
| `Pages.ListIssues` | crates/lenso-projects-postgres-plugin/src/storage.rs:1193-1306 | With a different state at each of the four queries: fails after two of them if and only if a selected issue is gone at the second; otherwise every item is the single-issue loader on what queries two to four saw, and the cursor is that of query one; no query for an invalid page |
| `Pages.GroupAliases` | crates/lenso-projects-postgres-plugin/src/storage.rs:1253-1270 | Grouping the ordered batch gives each issue its own rows in order, without the identifier it shows |
| `Pages.GroupLabels` | crates/lenso-projects-postgres-plugin/src/storage.rs:1276-1285 | Grouping the ordered batch gives each issue its labels in order |
| `Pages.AliasGroup` | crates/lenso-projects-postgres-plugin/src/storage.rs:432-434 | One issue's part of the batch order is the single loader's order by time and identifier |
| `Pages.AllFound` | crates/lenso-projects-postgres-plugin/src/storage.rs:1235-1247 | Comparing counts detects exactly a missing issue |
| `Pages.PageAgreesWithGet` | crates/lenso-projects-postgres-plugin/src/storage.rs:1148-1175 | On an unchanged store every listed item is what get_issue answers |
| `Pages.VisibleExactly` | crates/lenso-projects-postgres-plugin/src/storage.rs:364-382 | An issue is visible if and only if every private Team of its Project has the actor as an active member |
| `Pages.CursorContinues` | crates/lenso-projects-postgres-plugin/src/storage.rs:1216-1290 | A cursor is returned exactly when a lookahead row exists, and continues exactly behind the page |
| `Pages.ReadAll` | crates/lenso-projects-postgres-plugin/src/postgres_tests.rs:1305-1375 | Following the cursors with any limits ends; the items are, once each and by ascending row number, exactly the issues that have a row number, that get_issue answers to the actor, whose Project, Team and state are the ones asked for, and that are unarchived unless archived ones are asked for; each item is what get_issue answers |
| `Pages.PreviousInOrder` | crates/lenso-projects-postgres-plugin/src/storage.rs:432-434 | Previous identifiers come oldest first, by text where the times are equal |
| `Readback.ArchivedIsNotListed` | crates/lenso-projects-postgres-plugin/src/storage.rs:1210 | From an accepted archive_issue until it is undone the Issue is on no page that leaves archived ones out; after an accepted unarchive such pages treat it like any other |
| `Json.Writer.Raw` | crates/lenso-projects-postgres-plugin/src/storage.rs:4298-4318 | A chunk is written exactly when nothing failed before and it fits; a failure is final and writes nothing |
| `Json.Writer.String` | crates/lenso-projects-postgres-plugin/src/storage.rs:4285-4287 | A string written run by run and escape by escape has the bytes of its JSON text, or exhausts exactly when they do not fit |
| `Json.Writer.Json` | crates/lenso-projects-postgres-plugin/src/storage.rs:4285-4287 | The same for any value, numbers included; the buffer never exceeds its limit |
| `Json.Utf8RoundTrip` | crates/lenso-projects-postgres-plugin/src/storage.rs:4293-4295 | What was encoded is valid UTF-8 and decodes to the same text |
| `Json.UnescapeRoundTrip` | crates/lenso-projects-postgres-plugin/tests/export/mod.rs:119-162 | Reading the escapes of section 7 of RFC 8259 back gives the original string |
| `Reader.CompactRoundTrip` | crates/lenso-projects-postgres-plugin/tests/export/mod.rs:119-162 | Every JSON value, numbers, nesting and escapes included, is read back from its text by an independent reader of RFC 8259 |
| `Export.PageContinues` | crates/lenso-projects-postgres-plugin/src/storage.rs:4328-4398 | Seeking past a page's last key continues with the next row, for row numbers and for ids |
| `Export.WithheldDoesNotFit` | crates/lenso-projects-postgres-plugin/src/storage.rs:4336-4345 | A body that the statement withholds for its length could not have fitted, so withholding never refuses an export that fits |
| `Export.WritePage` | crates/lenso-projects-postgres-plugin/src/storage.rs:4568-4577 | Commas and rows of one page: how many rows are decoded when it stops |
| `Export.CollectSection` | crates/lenso-projects-postgres-plugin/src/storage.rs:4559-4583 | One section with its pages, the last of them not full, and the exact counts when it stops |
| `Export.CollectExport` | crates/lenso-projects-postgres-plugin/src/storage.rs:4544-4595 | The export succeeds if and only if the whole document fits, and then is byte for byte the one-shot serialization, which parses to every stored column under its key; it fetches and decodes exactly what precedes the point where the budget ends |
| `Export.CompleteCounts` | crates/lenso-projects-postgres-plugin/tests/export/mod.rs:61-117 | A complete export takes n/64+1 statements for n rows of a section and decodes every row once |
| `Export.StreamIsDocument` | crates/lenso-projects-postgres-plugin/src/storage.rs:4555-4585 | The framing written piecemeal is the framing of the serialized object |
| `Export.ExportReadsBack` | crates/lenso-projects-postgres-plugin/src/storage.rs:4436-4520 | Who parses an export finds the documented keys in their order and under each key exactly the stored column of each row of the four sections, optional columns as null, numbers as decimal text |
| `Codec.Serialize` | crates/lenso-capability-projects/src/generated.rs:1765-1803 | The declared length is the number of entries emitted |
| `Codec.Deserialize` | crates/lenso-capability-projects/src/generated.rs:1806-1838 | Taking code and payload out of the object gives the specified error or failure |
| `Codec.RoundTripExactly` | crates/lenso-capability-projects/src/generated.rs:1765-1838 | Decoding undoes encoding if and only if the extra entries avoid the keys code and payload |
| `Codec.DecodedIsStable` | crates/lenso-capability-projects/src/generated.rs:1806-1838 | Every decoded error avoids them, so decoding, encoding and decoding again changes nothing |
| `Codec.EncodedExactly` | crates/lenso-capability-projects/src/generated.rs:1765-1803 | A known error is its bare code; any other is an object of its code, its payload if any, and its extra entries |
| `Codec.DecodedExactly` | crates/lenso-capability-projects/src/generated.rs:1806-1838 | Exactly strings and objects with a code are errors; the fifteen codes of the contract are known, any other string is not, and an object keeps code, payload and the rest apart |
| `Web.Response.ProjectIssueLinks` | crates/lenso-projects-agent-web-plugin/src/lib.rs:206-247 | The in-place projection equals its specification; without a well-formed issue the content is untouched |
| `Web.OnlyLinksChange` | crates/lenso-projects-agent-web-plugin/src/lib.rs:206-247 | The content changes only if some item is well formed, and then only under the key for links |
| `Web.LinkedExactly` | crates/lenso-projects-agent-web-plugin/src/lib.rs:206-247 | For the five issue tools, a clean origin and an object with a well-formed item, there is one link per well-formed item, in item order, with that item's title, id and page; everything else is left as it was |
| `Web.ProjectionIsIdempotent` | crates/lenso-projects-agent-web-plugin/src/lib.rs:206-247 | Projecting twice is projecting once, for every body |
| `Web.Replied` | crates/lenso-projects-agent-web-plugin/src/lib.rs:301-328 | The mutual recursion with problem ends, and no body exceeds the response limit |
| `Web.ReplyExactly` | crates/lenso-projects-agent-web-plugin/src/lib.rs:298-328 | A body that fits is sent as it is, any other is answered with the one short error |

## Left out

- Runs.Run: transactions are atomic and take effect in commit order. What that rests on is proved for three places: references to catalog entries (`locks.dfy`), reservations of command keys (`reservations.dfy`) and the parent check, where it fails (`interleavings.dfy`); the rest of the isolation of transactions, and deadlocks, are not modelled. The statements of one admission see one state in `Admit`.
- Parents.WouldCreateCycle: the query is evaluated level by level to its end. Where it has none, in a stored cycle, the method is not applicable, and neither is the class method that calls it; the runs then let the update have any outcome its check could have given. That a database may stop at the first match is not modelled.
- Comments, project updates, relations, external links, labels, cycles and milestones as commands: they repeat the patterns proved here. With them go the fields of Projects and Issues that refer to them, the descriptive text fields, the removal of foreign labels on a move, and the check that labels fit the Team.
- Retentions.ForgetKeepsTables: the effect of retention on comments and project updates is not modelled.
- History.RevisionCountsMutations: memberships have revisions too, which no command expects; they are not counted.
- Export.CollectExport: the source does not change while it is exported and no statement fails; a failing row stream only ends the export early with its error.
- Export.CollectSection: the retained capacity of the byte buffer is not modelled, its length is.
- Store.Provider: the remaining commands (memberships, single states and statuses, archiving, assignment, retention) are methods there as well, equal to their specification by one case distinction each, and have no row above; neither have their lemmas in `effects.dfy`.
- Authorization, actor assertions, organization membership and the shape checks of request fields outside storage: the model starts at the storage layer; names arrive trimmed.
- Database errors carry no text: every constraint violation, immediate or deferred, is one runtime error, and revisions and counters do not overflow; activity ids and row numbers do have their 64-bit limit.
- Stored requests are compared as values, not as JSON text; replies are the rows, not their rendering.
- Text is ordered by code point, also where the database would use a collation.
- Fresh catalog ids are any ids; a collision is a runtime error, as in the table constraints, and update_project reports it ahead of a Team that is still in use.
- Activity: the visibility of one consumer is fixed; the gate is one lock for the whole schema, as in the code, so per-Organization streams are a special case.
- Activity.ListActivity: visibility by private Team is a parameter here; it is modelled for issues in `Pages`.
- Web: parsing, printing and URL building are parameters; the printer is assumed to print what parses back.
- The adapters between nested and flat results, endpoint dispatch and the generated client in crates/lenso-capability-projects/src/generated.rs: short case distinctions that would only add easy members.
