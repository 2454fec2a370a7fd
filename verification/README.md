# A model of db-operator, with proofs

db-operator is a Kubernetes operator: it compares custom resources (Db, User, DbServer, backup jobs and
schedules) with a database server and issues the create, drop, grant and revoke steps that bring the server in
line. This project models its core in Dafny and proves what that core guarantees. A world is what the API server
holds for one resource plus the database server behind it. Every call that can fail has a *fate*, a flag that a
statement quantifies over, so "whatever fails" means all fates; environment steps (a resource is marked, collected,
tables come and go, jobs progress) are interleaved freely.

Where the original updates fields, maps or the server step by step, there is a class or a looping method, and its
`ensures` ties the new state to a specification function; the laws are lemmas about those functions.

| file | what it holds |
|---|---|
| `Text.dfy`, `Wrappers.dfy`, `Funk.dfy`, `Sorting.dfy` | strings as Go treats them, options and results, slice helpers as loops, sorted lists |
| `PrivilegeSpec.dfy`, `EntryReach.dfy`, `PrivsResolver.dfy` | from a privilege entry, in its old or new spelling, to the reconciler that enforces it, and the code as it runs |
| `Grants.dfy`, `PgConnection.dfy` | reading, diffing, revoking and granting on Postgres and CockroachDB: specification, and the code as it runs |
| `GrantLaws.dfy`, `PlanLaws.dfy`, `FutureTables.dfy` | what one entry, a list of entries, and entries interleaved with table creation guarantee |
| `Reco.dfy`, `RecoController.dfy`, `RecoLaws.dfy` | the generic reconcile loop, as a transition system and as it runs, and its laws for every controller |
| `DbReco.dfy`, `UserReco.dfy`, `Controllers.dfy` | the Db and the Postgres User controller as instances of the loop, and the controllers as they run |
| `ApiTime.dfy`, `BackupJob.dfy`, `BackupSchedule.dfy`, `BackupControllers.dfy` | the CockroachDB backup job and schedule machines, and the controllers as they run |
| `MySqlGrants.dfy`, `MySqlSpec.dfy`, `PrivPiece.dfy`, `ColumnGrants.dfy` | MySQL privileges: the update, the unpacking of a spec, the comma splitter, the canonical column list |
| `DbServerStatus.dfy`, `ConnectionStore.dfy`, `Backoff.dfy` | status publication and server look-up, the connection cache, the growing retry delay |

## What turned out not to hold as one would expect

Each of these is a lemma with the exact condition.

- `NO*` role flags always look changed, overlapping entries that disagree undo each other, and default privileges
  other than SELECT, INSERT, UPDATE and DELETE are never seen: a pass settles a User exactly when the spec has none
  of these (`UserReco.PassSettles`, `NoLoginAlwaysAlters`, `DisagreeingEntries`).
- `ALL` on default privileges expands to nothing (`PrivilegeSpec.DefaultTableAll`, `DefaultTableAllAlone`).
- A marked resource is left without a retry when the finalizer update whose result is ignored fails, and a User also
  when it cannot be read; there is no third way, and a Db is always retried (`RecoLaws.ForgottenExactly`,
  `UserReco.ForgottenUser`, `UnreadUser`, `DbReco.NeverForgotten`).
- A User with an entry that comes out empty can never be removed with its privileges revoked, over any run
  (`UserReco.UndroppableForever`, `RemovedExactlyWhenRevocable`, `DefaultAllIsBlocked`).
- `changed` is reported without effect when all there is to send is a default privilege that is held but not
  decoded (`GrantLaws.ChangedMeansChanged`, `RegrantedTruncate`).
- A backup schedule whose replacement is not recorded after the old one was dropped is lost for good; if the
  unrecorded write is the cause, no retry is asked for (`BackupSchedule.LosesScheduleExactly`,
  `LosesSilentlyExactly`, `DanglingForever`, `LostReplacement`, `LostToSuspension`).
- A finished backup job's status, and a schedule's, is stored again on every pass unless its times are whole seconds
  in the local zone (`BackupJob.SilentAtRestExactly`, `FractionIsRewritten`, `BackupSchedule.LoadWritesExactly`).
- MySQL revoke errors are dropped, and percent signs are doubled on the way into statements that are no format
  strings, so a successful update meets the spec only under a condition (`MySqlGrants.UpdateMeetsSpec`,
  `FailedRevokeMatters`); of scopes with percent signs it is that they were right already
  (`PercentsMustBeRightAlready`, `WildcardNotGiven`).
- A column grant in the documented form is refused, and the normalisation of column grants on a parsed list either
  does nothing or panics (`MySqlSpec.SpacedColumnsInvalid`, `ColumnsPanic`, `NestedPanics`).
- Column sorting is idempotent unless a column has blanks just inside its backticks or the one that sorts last ends
  in a parenthesis (`ColumnGrants.IdempotentExactly`, `BlankInsideBackticks`, `ParenthesisLost`).
- The connection cache takes empty names for missing ones, both ways round (`ConnectionStore.AnswerMatchesExactly`,
  `EmptyDatabaseFirst`, `EmptyUserSecond`).

Where the comments and the code disagree (the list of handled column grants, the message of a failed connection that
is composed only after it was published), the model follows the code.

## Model

| member | source | states |
|---|---|---|
| `Funk.Without` | dbservers/mysql/privileges.go:768 | the subtraction the grant code relies on holds exactly the elements of one list that are not in the other |
| `Funk.Subtract` | dbservers/mysql/privileges.go:768 | the subtracting loop computes `Without` |
| `Funk.Difference` | dbservers/postgres/privs_reconciler.go:22-26 | the two halves of a diff are the two set differences |
| `Funk.Unique` | dbservers/postgres/privileges.go:119 | first occurrences: same elements, no duplicates |
| `Funk.Uniq` | dbservers/postgres/privileges.go:119 | the deduplicating loop computes `Unique` |
| `Funk.Remove` | dbservers/postgres/privileges.go:55-63 | the loop drops every occurrence of the item and nothing else |
| `PrivilegeSpec.NormalForm` | dbservers/postgres/privileges.go:109-120 | normalised privileges are distinct, valid, hold exactly what the list asks for with ALL and TEMP spelled out, and are their own normal form |
| `PrivilegeSpec.NormalFormOfType` | dbservers/postgres/privs_reconciler.go:167-172 | the same for each known privilege type and server product, with what default privileges lose |
| `PrivilegeSpec.ResolvedReconciler` | dbservers/postgres/privs_reconciler.go:147-180 | every resolved reconciler has one of four types and a distinct, valid set free of ALL and TEMP; unless it is about default privileges it holds exactly what was asked and is a fixed point |
| `PrivilegeSpec.DefaultTableAll` | dbservers/postgres/privs_reconciler.go:167-172 | a default-privileges entry holds what it asks for if and only if ALL is not in it or every table privilege is listed anyway |
| `PrivilegeSpec.DefaultTableAllAlone` | dbservers/postgres/privs_reconciler.go:172 | ALL alone leaves a default-privileges entry empty, a table entry not |
| `PrivilegeSpec.SpellingsAgree` | dbservers/postgres/privs_reconciler.go:80-145 | the deprecated spelling of a database, schema or default-table entry resolves to the same reconciler as the typed one |
| `PrivilegeSpec.PrivSetReadsBack` | dbservers/postgres/privileges.go:122-125 | a comma list with any blanks and case is read as its privileges in order |
| `EntryReach.DatabaseReach` | dbservers/postgres/privs_reconciler.go:84-124 | a database entry on d resolves if and only if its privileges are valid, and is about database d |
| `EntryReach.SchemaReach` | dbservers/postgres/privs_reconciler.go:97-103 | a schema entry on d.s resolves if and only if its privileges are valid, and is about schema s of database d |
| `EntryReach.DefaultTablesReach` | dbservers/postgres/privs_reconciler.go:91-96 | a default-privileges entry on d.x with grantor g is about tables g will create in database d |
| `EntryReach.AllTablesReach` | dbservers/postgres/table_privs.go:12-33 | a table entry on d.s.ALL is about every table of schema s of database d |
| `EntryReach.OldTableReach` | dbservers/postgres/privs_reconciler.go:106-111 | the old spelling t:privs in scope d is about table t of the public schema of d |
| `EntryReach.OldAllTablesReach` | dbservers/postgres/privs_reconciler.go:106-111 | with t written x.s.ALL it is about every table of schema s of d |
| `EntryReach.OneDotExactly` | dbservers/postgres/privileges.go:377-383 | a scope has a part after its database if and only if it has one dot |
| `PrivsResolver.NormalizeList` | dbservers/postgres/privileges.go:109-120 | the code that appends, removes and deduplicates computes the normal form |
| `PrivsResolver.GetPrivsReconciler` | dbservers/postgres/privs_reconciler.go:147-180 | the checks in order refine resolution; a reconciler has a known type and a duplicate-free set without ALL and TEMP |
| `PrivsResolver.ResolveAll` | dbservers/postgres/privileges.go:294-298 | the entries resolved one by one are the plan |
| `PgConnection.Connection.Read` | dbservers/postgres/table_privs.go:91-112 | reading reports the privileges held, or for a whole schema those held on every table, in some order |
| `PgConnection.Connection.ReconcilePrivs` | dbservers/postgres/privs_reconciler.go:48-74 | the read, diff, revoke, grant sequence with its early returns refines the set-level specification; the server between the statements and the one after lie between what was held and what is asked for |
| `PgConnection.Connection.UpdateEntries` | dbservers/postgres/privileges.go:294-305 | the loop over entries refines the fold that stops at the first failure |
| `PgConnection.Connection.RoleDiffers` | dbservers/postgres/privileges.go:271-278 | some flag is a NO flag or is not set on the role |
| `PgConnection.Connection.UpdateUserPrivs` | dbservers/postgres/privileges.go:251-306 | role attributes first, then the entries: refines the specification, counting every statement sent |
| `PgConnection.Connection.SweepSchemas` | dbservers/postgres/privileges.go:235-240 | schemas are swept in map order up to the first refusal |
| `PgConnection.Connection.RevokeAllPrivs` | dbservers/postgres/privs_reconciler.go:76-78 | one entry is taken back, after a sweep of every schema if it is about default privileges |
| `PgConnection.Connection.RevokeAllDbPrivs` | dbservers/postgres/privileges.go:219-249 | the loop over entries refines the fold that stops at the first failure |
| `Grants.ApplyStops` | dbservers/postgres/privileges.go:294-303 | once an entry has failed, later ones are not looked at |
| `GrantLaws.BetweenAtEveryPoint` | dbservers/postgres/privs_reconciler.go:48-74 | between and after the two statements, whatever fails, the held set lies between the intersection and the union of held and asked for, and nothing else changes |
| `GrantLaws.ExactOnSuccess` | dbservers/postgres/privs_reconciler.go:48-74 | on success a reached target holds exactly what is asked for, save what a schema-wide entry never revokes and what the reading code cannot see |
| `GrantLaws.AllTablesNeverRevokes` | dbservers/postgres/table_privs.go:12-33 | a schema-wide reconciler sends no REVOKE and takes nothing away |
| `GrantLaws.ChangedMeansChanged` | dbservers/postgres/privs_reconciler.go:56-73 | `changed` says whether a statement took effect, if and only if the call is not one that goes through and only re-grants hidden privileges |
| `GrantLaws.RegrantedTruncate` | dbservers/postgres/default_table_privs.go:91-118 | TRUNCATE as a default privilege, asked for and held, is such a call |
| `GrantLaws.FourAreVisible` | dbservers/postgres/default_table_privs.go:97-110 | default privileges are seen exactly for SELECT, INSERT, UPDATE and DELETE |
| `GrantLaws.QuietWhenSatisfied` | dbservers/postgres/privs_reconciler.go:54-73 | a successful silent reconcile happens exactly when what is found is what is asked for |
| `PlanLaws.OthersUntouched` | dbservers/postgres/privileges.go:294-305 | whatever fails, other users and targets no entry reaches keep exactly what they had |
| `PlanLaws.LastEntryWins` | dbservers/postgres/privileges.go:294-305 | after success a privilege is held at a target if and only if an entry asks for it that no later entry overrules, or it was there and no entry names the target |
| `PlanLaws.HiddenAccumulates` | dbservers/postgres/default_table_privs.go:91-118 | default privileges that are not decoded are only ever added to |
| `PlanLaws.FailurePoint` | dbservers/postgres/privileges.go:294-303 | a failing run has one failing entry: those before are fully applied, those after not at all |
| `PlanLaws.SettledIffCompatible` | dbservers/postgres/privileges.go:294-305 | after success every entry is satisfied if and only if the entries are compatible |
| `PlanLaws.SilentIffSatisfied` | dbservers/postgres/privileges.go:294-305 | a run over satisfied entries sends nothing, and a successful silent run found them satisfied |
| `PlanLaws.RunOnlyRepairs` | dbservers/postgres/privileges.go:294-305 | however a run over compatible entries ends, it introduces no wrong privilege |
| `PlanLaws.NothingWrong` | dbservers/postgres/privs_reconciler.go:48-74 | every entry is satisfied if and only if no single privilege is missing or in excess |
| `PlanLaws.RevokeAllRemoves` | dbservers/postgres/privileges.go:219-249 | taking back adds nothing, touches no other user, and on success leaves no listed privilege anywhere |
| `PlanLaws.RevokeEntryExactly` | dbservers/postgres/privs_reconciler.go:76-78 | taking back one entry removes exactly its privileges where it reaches and what is swept: what is not listed stays |
| `PlanLaws.RevokeAllExactly` | dbservers/postgres/privileges.go:219-249 | a successful take-back of a list removes exactly what its entries take |
| `PlanLaws.UnlistedStays` | dbservers/postgres/privs_reconciler.go:76-78 | with CONNECT listed, CREATE stays |
| `PlanLaws.SweepExactly` | dbservers/postgres/privileges.go:235-240 | a sweep takes exactly the user's table privileges in the listed schemas of the database |
| `PlanLaws.DefaultTakeBackClearsTables` | dbservers/postgres/privileges.go:229-245 | taking back a default-privileges entry leaves nothing on any table outside the system schemas |
| `PlanLaws.UpdateThenRevokeClears` | dbservers/postgres/privileges.go:219-306 | a successful update then a successful take-back, overlapping entries or not, leaves the named targets bare and other users as they were |
| `FutureTables.RunEstablishes` | dbservers/postgres/table_privs.go:91-120 | a successful run with a default-table and a schema-wide entry gives the privileges on every table there is and in the defaults |
| `FutureTables.StepKeeps` | dbservers/postgres/default_table_privs.go:42-50 | creating, dropping and anyone's faulty reconcile keep the promise |
| `FutureTables.PromiseKept` | dbservers/postgres/default_table_privs.go:42-50 | over every interleaving each table that existed then and each the grantor created since carries the privileges |
| `FutureTables.NoTableLeftOut` | dbservers/postgres/table_privs.go:91-120 | while only the grantor creates tables, that is every table of the schema |
| `Reco.EnsureFinalizer` | controllers/reconcilable.go:46-55 | success means the finalizer is stored |
| `RecoController.Controller.Reconcile` | controllers/reconcilable.go:72-146 | the loop, step by step, refines its transition function and calls each callback only when it is ready |
| `RecoController.Controller.UpdateFinalizer` | controllers/reconcilable.go:57-60 | an update sets the finalizer as asked, or leaves it and counts a fault |
| `RecoController.Controller.Ensure` | controllers/reconcilable.go:46-55 | a finalizer that is there is not written again |
| `RecoLaws.ReleasedOnlyWithExcuse` | controllers/reconcilable.go:90-132 | a pass takes the finalizer only of a marked resource whose object was removed, was absent, or had a parent that was not found |
| `RecoLaws.ReleasedExactly` | controllers/reconcilable.go:90-132 | a pass takes the finalizer of a marked resource if and only if it can read and update it and has such an excuse |
| `RecoLaws.VanishesOnlyWithExcuse` | controllers/reconcilable.go:90-132 | over every run, a resource that held the finalizer vanishes only after such a pass |
| `RecoLaws.LivePassGrows` | controllers/reconcilable.go:102-131 | a pass over a live resource keeps it live and keeps its finalizer |
| `RecoLaws.NoRequeueMeansFinalizer` | controllers/reconcilable.go:102-145 | past loading a live resource, no retry means the finalizer is stored and the callback succeeded |
| `RecoLaws.ForgottenExactly` | controllers/reconcilable.go:73-132 | a marked resource keeps its finalizer without a retry if and only if it could not be read and its controller then asks for none, or a parent was missing and the update failed |
| `DbReco.InstanceLawful` | controllers/db_controller.go:59-133 | the Db controller keeps the interface's typestate |
| `DbReco.GoneOnlyWhenDropped` | controllers/db_controller.go:59-133 | over every run a Db to be dropped vanishes only when the database is gone or its DbServer was not found |
| `DbReco.NeverForgotten` | controllers/db_controller.go:50-87 | a marked Db that keeps its finalizer is always retried |
| `DbReco.ReleasedDbExactly` | controllers/db_controller.go:59-133 | a marked Db is let go of if and only if it can be read and updated and its DbServer is gone, or the server answered and the database was absent, is kept, or was dropped (with CASCADE only from CockroachDB); only a dropped database goes |
| `DbReco.CreationSends` | controllers/db_controller.go:89-117 | creation sends the statement, the after-create one if there is one, and the missing finalizer, and adds that database alone |
| `DbReco.PassOverLiveDb` | controllers/db_controller.go:89-117 | a pass never loses ground, settles the Db unless a call fails, is silent when settled, and no retry certifies it settled |
| `DbReco.FaultsAbsorbed` | controllers/db_controller.go:59-117 | k faults are absorbed within k + 1 passes |
| `DbController.Controller.Reconcile` | controllers/db_controller.go:59-133 | the loop through the controller's own callbacks, each called with its connection and mark in place, is the pass of the laws; no retry leaves a live Db settled, a released one is gone, kept on purpose, or had no DbServer, and a marked one that is not released is retried |
| `UserReco.InstanceLawful` | controllers/user_controller.go:55-207 | the User controller keeps the interface's typestate |
| `UserReco.GoneOnlyWhenDropped` | controllers/user_controller.go:55-153 | over every run a User to be dropped vanishes only when the role is gone or a look-up said not found |
| `UserReco.ForgottenUser` | controllers/reconcilable.go:94-99 | a marked User whose DbServer is gone keeps its finalizer without a retry when the update fails |
| `UserReco.UnreadUser` | controllers/user_controller.go:155-162 | a marked User that cannot be read keeps its finalizer without a retry |
| `UserReco.ReleasedUserExactly` | controllers/user_controller.go:55-153 | a marked User is let go of if and only if it can be read and updated and a parent is gone, or the server answered and the role was absent, is kept, or was dropped |
| `UserReco.SettledIffNoDefect` | controllers/user_controller.go:168-207 | settled is the absence of every single defect |
| `UserReco.NoNewDefect` | controllers/user_controller.go:116-207 | however faulty, a pass over a live User with a sound spec introduces no defect |
| `UserReco.CorrectSettles` | controllers/user_controller.go:168-207 | when the correction succeeds, flags and privileges are settled if and only if there is no NO flag and the entries are compatible |
| `UserReco.AttributesAsFlagged` | dbservers/postgres/privileges.go:264-292 | after a successful update each role attribute is on by its flag, off by its NO flag, else as it was, and no other role has changed |
| `UserReco.FlagsReadBack` | dbservers/postgres/privileges.go:98-107 | role flags joined by commas are read back as they are, or refused as a whole |
| `UserReco.PassSettles` | controllers/user_controller.go:116-207 | a pass without fault, or one that asks for no retry, leaves role and finalizer in place, and settled if and only if the spec is sound |
| `UserReco.SettledPassIsSilent` | controllers/user_controller.go:168-207 | a pass over a settled User writes nothing at all, whatever fails |
| `UserReco.FaultsAbsorbed` | controllers/user_controller.go:55-207 | over any passes no defect appears, and k faults are absorbed within k + 1 passes |
| `UserReco.GoodPassHasNoFault` | controllers/user_controller.go:116-140 | when every call succeeds on a workable spec there is no fault, so convergence does happen |
| `UserReco.RevokeAllSucceedsIff` | dbservers/postgres/privileges.go:219-249 | when every call succeeds, taking back goes through if and only if no entry is unresolved, refused or empty |
| `UserReco.RemovedExactlyWhenRevocable` | dbservers/postgres/connection.go:54-103 | one pass in which every call succeeds drops the role and releases the resource if and only if no entry is blocked and the entries take all that the user holds |
| `UserReco.DropsWithoutRevokeExactly` | dbservers/postgres/connection.go:54-103 | without a take-back the role goes if and only if the options do not conflict, the server agrees and it holds nothing |
| `UserReco.UndroppableForever` | dbservers/postgres/connection.go:54-103 | with one entry unresolved, empty or refused, the role and the finalizer stay over every run, whatever fails, until somebody else drops the role or a look-up says not found |
| `UserReco.BlockedTakeBackFails` | dbservers/postgres/privileges.go:219-249 | a blocked entry fails the take-back under all faults |
| `UserReco.DefaultAllIsBlocked` | dbservers/postgres/privs_reconciler.go:167-172 | ALL as default privileges makes a User undroppable |
| `UserReco.NoLoginAlwaysAlters` | dbservers/postgres/privileges.go:271-278 | NOLOGIN turns LOGIN off and is altered on every pass |
| `UserReco.DisagreeingEntries` | dbservers/postgres/privileges.go:294-305 | a spec with two one-word entries for one database, such as CONNECT and CREATE, is not sound |
| `UserReco.DisagreeingDatabases` | dbservers/postgres/privileges.go:294-305 | nor is any spec with two entries for one database of which one asks for a privilege the other does not |
| `UserController.Controller.Reconcile` | controllers/user_controller.go:55-207 | the loop through the controller's own callbacks, each called with connection, role and mark in place, is the pass of the laws; no retry leaves a live User with role and finalizer, settled if and only if its spec is sound |
| `UserController.Controller.EnsureCorrect` | controllers/user_controller.go:168-207 | refines the correction, through the running privilege code; needs the connection and the role |
| `UserController.Controller.Drop` | dbservers/postgres/connection.go:54-103 | refines the drop with its conflicting options and its take-back of privileges |
| `BackupJob.InstanceLawful` | controllers/cockroachdbbackupjob_controller.go:53-213 | the backup job controller keeps the interface's typestate |
| `BackupJob.RunBalanced` | controllers/cockroachdbbackupjob_controller.go:53-208 | over every run each BACKUP sent is a failed one, one whose id was lost, or the one recorded; a recorded id stays and stops further ones |
| `BackupJob.BackupsBounded` | controllers/cockroachdbbackupjob_controller.go:166-208 | at most one more BACKUP is sent than BACKUP calls and status writes fail |
| `BackupJob.RecordedStays` | controllers/cockroachdbbackupjob_controller.go:53-125 | from the moment an id is recorded it never changes and no BACKUP is sent |
| `BackupJob.GoodPassStarts` | controllers/cockroachdbbackupjob_controller.go:166-208 | when every call succeeds a new resource gets exactly one BACKUP, its id and the finalizer stored in one pass, and a retry |
| `BackupJob.ReleasedJobExactly` | controllers/cockroachdbbackupjob_controller.go:53-84 | a marked resource is let go of if and only if it can be read and updated and loading does not fail; the job is left alone |
| `BackupJob.EndedWords` | controllers/cockroachdbbackupjob_controller.go:142-144 | succeeded and failed end a job, running and pending do not |
| `BackupJob.RetriedWhileRunning` | controllers/cockroachdbbackupjob_controller.go:153-158 | a running job is retried, one that succeeded is not |
| `BackupJob.RestExactly` | controllers/cockroachdbbackupjob_controller.go:142-158 | no retry if and only if nothing failed and the job is finished, and then the resource is at rest and stays so |
| `BackupJob.SilentAtRestExactly` | controllers/cockroachdbbackupjob_controller.go:111-125 | at rest the comparing pass writes nothing if and only if the job's times survive storing; otherwise it stores the same status again |
| `BackupJob.FractionIsRewritten` | controllers/cockroachdbbackupjob_controller.go:111-125 | half a second in the creation time is enough for that |
| `BackupJobController.Controller.Reconcile` | controllers/cockroachdbbackupjob_controller.go:53-213 | the loop through the controller's own callbacks is the pass of the laws; it keeps the books balanced and a recorded id and the count of BACKUPs for good |
| `BackupJobController.Controller.SetStatus` | controllers/cockroachdbbackupjob_controller.go:111-125 | refines storing a status that differs, then the finalizer |
| `BackupSchedule.InstanceLawful` | controllers/cockroachdbbackupcronjob_controller.go:55-254 | the schedule controller keeps the interface's typestate |
| `BackupSchedule.PassShape` | controllers/cockroachdbbackupcronjob_controller.go:55-240 | what any pass does to the recorded id and the schedules, whatever fails, with label uniqueness kept |
| `BackupSchedule.LoadWritesExactly` | controllers/cockroachdbbackupcronjob_controller.go:77-100 | loading what is stored already takes no status write if and only if the creation time survives storing |
| `BackupSchedule.LosesScheduleExactly` | controllers/cockroachdbbackupcronjob_controller.go:136-146 | a pass loses its schedule if and only if it drops the one it read and does not get as far as recording another |
| `BackupSchedule.LosesSilentlyExactly` | controllers/cockroachdbbackupcronjob_controller.go:136-171 | it does so without asking for a retry if and only if the status write is what failed and the finalizer is or gets stored |
| `BackupSchedule.LostReplacement` | controllers/cockroachdbbackupcronjob_controller.go:136-146 | one changed target and one failed status write lose the schedule without a retry |
| `BackupSchedule.LostToSuspension` | controllers/cockroachdbbackupcronjob_controller.go:136-188 | a changed target of a suspended resource loses the schedule although nothing fails |
| `BackupSchedule.CorrectTouchesOne` | controllers/cockroachdbbackupcronjob_controller.go:116-171 | a right schedule is kept, a wrong one dropped at most once, no other schedule touched |
| `BackupSchedule.FlipExactly` | controllers/cockroachdbbackupcronjob_controller.go:157-168 | suspended leaves PAUSED, unsuspended ACTIVE unless the state says something, and every other schedule as it was |
| `BackupSchedule.GoodPassFlips` | controllers/cockroachdbbackupcronjob_controller.go:148-170 | a good pass over a schedule with the right command does that and nothing else |
| `BackupSchedule.GoodPassRuns` | controllers/cockroachdbbackupcronjob_controller.go:116-171 | after a good pass over a recorded schedule of an unsuspended resource the recorded one runs |
| `BackupSchedule.ReleasedScheduleExactly` | controllers/cockroachdbbackupcronjob_controller.go:55-254 | a marked resource is let go of if and only if it can be read and updated and nothing is recorded, a parent is gone, or the schedule was loaded and is kept or was dropped; only a dropped schedule goes |
| `BackupSchedule.SettledStays` | controllers/cockroachdbbackupcronjob_controller.go:116-171 | settled with an unchanged spec, no run of passes and server changes drops or creates anything |
| `BackupSchedule.DanglingForever` | controllers/cockroachdbbackupcronjob_controller.go:55-87 | with the recorded schedule gone no run ever creates another or releases the resource |
| `BackupSchedule.TwoGoodPassesSettle` | controllers/cockroachdbbackupcronjob_controller.go:116-240 | two passes without failure end with one recorded schedule under the label, with the right command and active unless its state says something, if and only if the recorded id was 0 or named a schedule |
| `BackupScheduleController.Controller.UpdateStatus` | controllers/cockroachdbbackupcronjob_controller.go:77-100 | refines reading a schedule and storing its status |
| `BackupScheduleController.Controller.CreateObj` | controllers/cockroachdbbackupcronjob_controller.go:179-240 | refines creating, or adopting the schedule that has the label, and recording it |
| `BackupScheduleController.Controller.Reconcile` | controllers/cockroachdbbackupcronjob_controller.go:55-254 | the loop through the controller's own callbacks is the pass of the laws; it keeps label uniqueness and a settled resource settled, and loses the schedule exactly when it drops and does not record another |
| `MySqlGrants.MySqlUser.UpdateUserPrivs` | dbservers/mysql/privileges.go:739-794 | the two loops over the two maps, in any order, refine the folds over those orders |
| `MySqlGrants.MySqlUser.RevokeExcess` | dbservers/mysql/privileges.go:740-776 | the first loop, long lists collapsed and errors dropped, refines the fold over its order |
| `MySqlGrants.MySqlUser.GrantMissing` | dbservers/mysql/privileges.go:778-793 | the second loop, stopped by the first error, refines the fold over its order |
| `MySqlGrants.EscapeFixes` | dbservers/mysql/privileges.go:599 | escaping changes exactly the scopes that have a percent sign |
| `MySqlGrants.ScopeEndsAsAsked` | dbservers/mysql/privileges.go:740-793 | one scope ends with exactly what is asked for, unless a failed REVOKE left something that should have gone |
| `MySqlGrants.UpdateVerdict` | dbservers/mysql/privileges.go:739-794 | for every walk of the maps: when an update panics, fails or succeeds, and that `changes` then means a difference |
| `MySqlGrants.UpdateAt` | dbservers/mysql/privileges.go:739-794 | for every walk of the maps the diff of each scope is carried out where its statements land, or all but its grants if one failed |
| `MySqlGrants.UpdatesEverywhere` | dbservers/mysql/privileges.go:739-794 | after success every scope is moved by the diff of the one scope that escapes to it, and no other moves |
| `MySqlGrants.EscapeInverse` | dbservers/mysql/privileges.go:599-632 | escaping is undone by unescaping, so no two scopes land on one |
| `MySqlGrants.UnescapeInverse` | dbservers/mysql/privileges.go:599-632 | exactly the scopes whose percent signs stand in pairs are escapes |
| `MySqlGrants.UnpairedNeverUpdated` | dbservers/mysql/privileges.go:599-632 | a scope whose percent signs do not all stand in pairs is never touched, however an update ends |
| `MySqlGrants.UpdateMeetsSpec` | dbservers/mysql/privileges.go:731-795 | a successful update makes the held map the desired one, USAGE read as empty, if and only if every scope meets a condition on what was held before: no failed REVOKE that mattered, and for percent signs what its escape makes of it |
| `MySqlGrants.PercentsMustBeRightAlready` | dbservers/mysql/privileges.go:599-632 | unless a percent scope lists more beside ALL, the spec is met if and only if those were as asked before and no failed REVOKE mattered to the others |
| `MySqlGrants.FailedRevokeMatters` | dbservers/mysql/privileges.go:769-774 | one scope that a dropped REVOKE error leaves as it was |
| `MySqlGrants.WildcardNotGiven` | dbservers/mysql/privileges.go:632 | a grant asked for on one percent sign is not given there, nor on two that stand apart |
| `MySqlGrants.NextUpdateIsQuiet` | dbservers/mysql/privileges.go:747-756 | where the spec is met one more update reports no change if and only if the spec says what it means as the server does, ALL read back as the long list included |
| `MySqlGrants.GlobalUsageMakesCanonical` | dbservers/mysql/privileges.go:582-585 | without the default USAGE on *.* no spec that omits it could come to rest, with it exactly the plainly written ones do |
| `MySqlSpec.PrivilegesUnpack` | dbservers/mysql/privileges.go:542-588 | the loop over entries refines the fold that stops at the first refusal |
| `MySqlSpec.AddressableExactly` | dbservers/mysql/privileges.go:564-569 | statements can be built for an unpacked scope if and only if it has no object kind and is *.* or has a database side that is not a bare star |
| `MySqlSpec.ScopeText` | dbservers/mysql/privileges.go:553-569 | the key of an entry spelled out: both sides quoted, a star bare, *.* as it is |
| `MySqlSpec.KindScopeText` | dbservers/mysql/privileges.go:556-561 | an object kind gives the kind and the name that follows it, quoted in place of the database |
| `MySqlSpec.KeysDistinct` | dbservers/mysql/privileges.go:553-569 | distinct plain scopes have distinct keys |
| `MySqlSpec.UnpacksExactly` | dbservers/mysql/privileges.go:553-580 | entries unpack if and only if each is valid and has no column grant, and then to the items as written |
| `MySqlSpec.LastEntryUnpacked` | dbservers/mysql/privileges.go:570-571 | every unpacked scope has the items of its last entry |
| `MySqlSpec.SpecUnpacked` | dbservers/mysql/privileges.go:553-587 | the whole map: the last entry for every scope that is named, *.* included, USAGE on *.* if none is, and no other scope |
| `MySqlSpec.HasGrantOnCol` | dbservers/mysql/privileges.go:415-444 | the searching loop computes the first span of a column grant |
| `MySqlSpec.NormalizeColumns` | dbservers/mysql/privileges.go:521-529 | the loop over the four kinds of column grant refines the fold, panics included |
| `MySqlSpec.ParseEntry` | dbservers/mysql/privileges.go:570-579 | splitting, validating and normalising one entry |
| `MySqlSpec.ColumnsPanic` | dbservers/mysql/privileges.go:497-528 | on a parsed list the column normalisation is the identity or panics, the latter if and only if some item looks like a column grant |
| `MySqlSpec.SpacedColumnsInvalid` | dbservers/mysql/privileges.go:573-576 | a column grant in the documented form is refused as invalid |
| `MySqlSpec.NestedPanics` | dbservers/mysql/privileges.go:508-511 | a valid privilege with a column grant inside its parentheses panics |
| `PrivPiece.ParsePrivPiece` | dbservers/mysql/privileges.go:372-406 | the accumulating loop computes the pieces between top-level commas and their stripped forms |
| `PrivPiece.NothingLost` | dbservers/mysql/privileges.go:372-406 | the items joined by commas are the text, but for a top-level comma it ends in |
| `PrivPiece.OnlyWayToCut` | dbservers/mysql/privileges.go:372-406 | a list is how a text is cut if and only if it is well formed and joins to the text |
| `PrivPiece.ItemsRoundTrip` | dbservers/mysql/privileges.go:372-406 | well-formed items come back from their join, if and only if the last is not empty |
| `PrivPiece.ListsInStep` | dbservers/mysql/privileges.go:399-405 | stripped items are the full ones without their parenthesised text, one for one but for a last item wholly in parentheses |
| `PrivPiece.StripExactly` | dbservers/mysql/privileges.go:379-396 | what is stripped is text in parentheses, closed or not, and nothing else |
| `ColumnGrants.SortColumnOrder` | dbservers/mysql/privileges.go:467-490 | the in-place trimming loop and the sort compute the canonical text |
| `ColumnGrants.CanonicalOf` | dbservers/mysql/privileges.go:467-490 | of every statement with a list: prefix and columns hold no character the text is cut at, and the canonical text is the prefix and the bare columns in order |
| `ColumnGrants.SameTextExactly` | dbservers/mysql/privileges.go:467-490 | any two statements get the same text if and only if prefix and multiset of bare columns are the same |
| `ColumnGrants.IdempotentExactly` | dbservers/mysql/privileges.go:467-490 | of any statement a second time changes nothing if and only if no column, bared, begins or ends with a blank and the one that sorts last does not end in a parenthesis |
| `ColumnGrants.BareTwiceExactly` | dbservers/mysql/privileges.go:483-486 | the same for one column |
| `ColumnGrants.BlankInsideBackticks` | dbservers/mysql/privileges.go:483-486 | a blank just inside the backticks goes only the second time |
| `ColumnGrants.ParenthesisLost` | dbservers/mysql/privileges.go:478 | a parenthesis at the end of the column that sorts last is kept the first time and lost the second |
| `ColumnGrants.ParenthesisInColumn` | dbservers/mysql/privileges.go:478 | the columns of S(b),a) are such |
| `ColumnGrants.ReadBack` | dbservers/mysql/privileges.go:476-481 | a statement gives back its prefix and its columns, but for the parentheses the last one ends in |
| `ColumnGrants.PlainStatements` | dbservers/mysql/privileges.go:467-490 | of plain column names the text is the same columns in order, is its own canonical text, and is shared exactly by statements with the same prefix and columns |
| `ColumnGrants.PanicsExactly` | dbservers/mysql/privileges.go:476-478 | a statement without a parenthesis, and no other, panics |
| `ColumnGrants.PlainIsBare` | dbservers/mysql/privileges.go:483-486 | plain column names are their own bare form |
| `Sorting.SortedSame` | controllers/dbserver_controller.go:145-146 | two lists sort to the same list if and only if they hold the same strings equally often |
| `DbServerStatus.SortedNames` | controllers/dbserver_controller.go:116-119 | names collected in any map order and sorted give the one ordered list of the set |
| `DbServerStatus.DbServerReconciler.SetStatus` | controllers/dbserver_controller.go:144-165 | the finalizer is stored without the status, the status only when it differs |
| `DbServerStatus.DbServerReconciler.Reconcile` | controllers/dbserver_controller.go:71-142 | refines the pass; no retry of a live resource means finalizer and, unless just added, status are stored |
| `DbServerStatus.UpdatesDue` | controllers/dbserver_controller.go:95-165 | on an unchanged server each good pass makes one of at most two updates due, and no pass any other |
| `DbServerStatus.PublishedIsRead` | controllers/dbserver_controller.go:95-136 | the published lists hold exactly the names read, in order, each once; available if and only if all was read |
| `DbServerStatus.MarkedReleased` | controllers/dbserver_controller.go:84-93 | a marked resource is let go of if and only if it can be read and updated |
| `DbServerStatus.GetDbServer` | controllers/dbserver_controller.go:186-220 | a local server of the name wins, otherwise the only one anywhere, otherwise not found or ambiguous |
| `DbServerStatus.OrderDoesNotMatter` | controllers/dbserver_controller.go:194-219 | two listings of the same servers get the same answer |
| `ConnectionStore.ConnectionsStore.GetDbConnection` | shared/connection_store.go:40-68 | a cached connection or a newly opened one under its key, or an error and no change |
| `ConnectionStore.ConnectionsStore.Close` | shared/connection_store.go:70-79 | in any order: an error if and only if some connection does not close, and on success all are closed and forgotten |
| `ConnectionStore.GetSound` | shared/connection_store.go:40-68 | the stored connections stay exactly those opened since the last complete closing, one per key, all older ones closed |
| `ConnectionStore.OneOpenPerKey` | shared/connection_store.go:44-47 | no key is opened twice between closings |
| `ConnectionStore.StoredOrClosed` | shared/connection_store.go:63-66 | every connection ever opened is stored or closed |
| `ConnectionStore.AnswersMatch` | shared/connection_store.go:49-66 | while no name is empty, every answer over all calls was opened with the credentials and database asked for |
| `ConnectionStore.GetGenuine` | shared/connection_store.go:49-66 | whatever names are asked for, every connection stays one opened for the question it records |
| `ConnectionStore.OpensExactly` | shared/connection_store.go:49-68 | a question that is not cached opens one connection if and only if the user has credentials and the server accepts them, and otherwise changes nothing |
| `ConnectionStore.AnswerMatchesExactly` | shared/connection_store.go:23-68 | of any store: a new connection matches the question, a cached one if and only if question and opener agree on having an empty database name, and an empty user name unless that has the server's credentials |
| `ConnectionStore.EmptyNamesConflated` | shared/connection_store.go:23-38 | where no empty name was asked before, a cached answer matches if and only if the database name is not empty and the user name is not or makes no difference |
| `ConnectionStore.EmptyDatabaseFirst` | shared/connection_store.go:23-38 | an empty database name first spoils the question without one |
| `ConnectionStore.EmptyUserSecond` | shared/connection_store.go:23-38 | an empty user name without credentials is handed the server's connection |
| `ConnectionStore.SecondGetIsFree` | shared/connection_store.go:44-47 | asking again opens nothing and answers the same |
| `Backoff.Delay` | shared/shared.go:228-240 | a delay is whole seconds in 1..300, the age rounded down between those limits |
| `Backoff.DelayMonotone` | shared/shared.go:228-232 | delay and next age grow with the age |
| `Backoff.AgeAfter` | shared/shared.go:228-240 | after n retries the age is at least 2^(n-1) up to ten, and 512 + 300(n-10) beyond |
| `Backoff.AgeAfterIsTight` | shared/shared.go:228-240 | retried on the dot from age 0, exactly that |
| `Backoff.RetriesWithin` | shared/shared.go:228-240 | at most 10 + T/300 retries happen in the first T seconds |

## Left out

- The Kubernetes client, SQL drivers, logging, password generation, TLS and sleeping: each call appears as a flag that says whether it succeeds; reads are fresh, never from a stale cache.
- The `Reconcilable` interface is a record of total functions with a predicate for the typestate its callbacks rely on, so a callback of the generic loop cannot be a method; each controller class runs the loop through its own methods and is proved equal to the generic pass over its instance.
- The wrapper for errors that were already handled, and the notification of the DbServer controller after a change.
- Decoding of ACL letters, version strings and SHOW GRANTS output: reads are faithful, except that only SELECT, INSERT, UPDATE and DELETE are seen of default privileges.
- Reading a single table whose name has a dot indexes past a one-element split: such an entry counts as failing.
- The GRANT OPTION and TLS requirement paths of MySQL, and the MySQL User as an instance of the loop.
- The lists of valid and of all MySQL privileges are parameters, so the laws hold for any such lists.
- MySqlGrants.UpdateMeetsSpec: no GRANT option in the spec or among what is held.
- MySqlGrants.UpdateVerdict: says nothing of the statements the code sends for a GRANT option that is held or asked for, because that path is not modelled.
- MySqlGrants.UpdateAt: the same.
- MySqlGrants.UpdatesEverywhere: the same.
- MySqlGrants.PercentsMustBeRightAlready: the same; a percent scope that lists more beside ALL, or spells it ALL PRIVILEGES, falls under `UpdateMeetsSpec` only.
- Case mapping covers ASCII letters and trimming the blanks of Latin-1; text is a sequence of characters, invalid UTF-8 does not appear.
- DROP OWNED and REASSIGN OWNED have no effect on the modelled grants; their conflict is modelled.
- The backup statement is compared as opaque text; that the server shows a schedule's command in the redacted form the code builds is taken for granted.
- BackupJob.RunBalanced: the server never hands out job id 0.
- A resource that a failing status write would report as not found: the schedule controller wraps that error, so only the job controller distinguishes it.
- Job, CronJob, Copy and Restore controllers are thinner copies of the Db controller, several of which ignore errors of creation; the Schema controller checks one name and drops another; the lazy helpers keep no invariant; builders of pods and manifests only fill in data.
- A default-privileges entry names its grantor by the User resource, and defaults are read for the role that resource stands for: the two names are taken to be equal.
- Backoff.Delay: ages are exact reals, float rounding does not appear.
