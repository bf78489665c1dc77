# Branch references of an Iceberg table, and the SQL statements that manage them

This project models the branch reference manager of an Iceberg table as the Spark
SQL extensions drive it, and proves what the branch statements do.

A table has an append-only log of snapshot ids and a map from reference names to
references. A reference is a branch or a tag. It points at a snapshot and may carry
up to three retention settings: `minSnapshotsToKeep`, `maxSnapshotAgeMs` and
`maxRefAgeMs`. The branch `main` lives in the same map, and the table's current
snapshot is main's snapshot. Main exists exactly when the table has a snapshot.

The model has four layers.

- `RefUpdates`: the primitive updates of the snapshot-management API that
  these statements and tests use: `createBranch`, `createTag`, `replaceBranch`,
  `removeBranch` and the three per-field setters. The tag operations
  `removeTag` and `replaceTag` are not among them. A batch of them is applied in order to a pending copy of the
  map. The first failure fails the whole batch.
- `TableMetadata`: the table state. It covers appending rows (a new snapshot that
  main moves to) and committing a batch (all or nothing).
- `BranchDdl`: the statements `CREATE BRANCH [IF NOT EXISTS]`, `REPLACE BRANCH`,
  `CREATE OR REPLACE BRANCH` and `DROP BRANCH [IF EXISTS]`, after parsing.
  Options are `AS OF VERSION`, `RETAIN n unit` and
  `WITH SNAPSHOT RETENTION [k SNAPSHOTS] [m unit]`. A statement first picks its target
  snapshot and checks its existence clause. It then stages primitive updates and
  commits them as one batch.
- `Tables.Table`: a class whose fields `snapshots` and `refs` the operations update
  in place. Each method is proved equal to the functions above.

`ManageSnapshots` states, for each primitive committed on its own through the API,
the outcome and the new map for every table, error cases included.

`TimeUnits` models `TimeUnit.toMillis` for DAYS, HOURS and MINUTES. It saturates at
the bounds of a Java `long`. `Lifecycle` proves invariants over any history of
appends, commits and statements. `Scenarios` replays each test of
`TestBranchDDL.java` on a fresh `Table`. What each test asserts is the contract of
the method that replays it.

Errors are kinds, not exception classes or messages:

| kind | meaning |
|---|---|
| `NoSnapshot` | "main has no snapshot" |
| `AlreadyExists` | "Ref b1 already exists" |
| `NotFound` | "Branch does not exist" |
| `IsTag` | "Ref b1 is a tag not a branch" |
| `CannotRemoveMain` | "Cannot remove main branch" |
| `InvalidRetention` | a retention value that is not positive, or a branch-only setting on a tag |
| `UnknownSnapshot` | a target that is not in the snapshot log |

The table invariant `TableMetadata.Valid` has four parts:

- main exists exactly when the log is non-empty, and main is a branch;
- every reference points into the log;
- tags carry no `minSnapshotsToKeep` and no `maxSnapshotAgeMs`;
- every retention value present is positive.

## Model

| member | source | states |
|---|---|---|
| TimeUnits.ToMillis | spark/v3.2/spark-extensions/src/test/java/org/apache/iceberg/spark/extensions/TestBranchDDL.java:93-96 | equals count times the unit's milliseconds when that fits in a long, else saturates at Long.MAX/MIN by sign; the result is positive or zero exactly when the count is |
| TimeUnits.ProductBounds | spark/v3.2/spark-extensions/src/test/java/org/apache/iceberg/spark/extensions/TestBranchDDL.java:42 | the product leaves the long range exactly when the count passes MAX_LONG divided by the unit's milliseconds, which is the JDK's overflow test |
| TimeUnits.ToMillisMonotone | spark/v3.2/spark-extensions/src/test/java/org/apache/iceberg/spark/extensions/TestBranchDDL.java:93-96 | toMillis never decreases as the count grows |
| TimeUnits.DaysAreHours | spark/v3.2/spark-extensions/src/test/java/org/apache/iceberg/spark/extensions/TestBranchDDL.java:42 | n DAYS and 24n HOURS give the same milliseconds |
| TimeUnits.HoursAreMinutes | spark/v3.2/spark-extensions/src/test/java/org/apache/iceberg/spark/extensions/TestBranchDDL.java:42 | n HOURS and 60n MINUTES give the same milliseconds |
| RefUpdates.ApplyUpdate | spark/v3.2/spark-extensions/src/test/java/org/apache/iceberg/spark/extensions/TestBranchDDL.java:246 | frame of one update: a successful update changes only the entry it names, removes it exactly for removeBranch, keeps an existing reference's kind and a tag's snapshot (the entry's new value and every error case are stated per primitive by the ManageSnapshots lemmas) |
| RefUpdates.ApplyAll | spark/v3.2/spark-extensions/src/test/java/org/apache/iceberg/spark/extensions/TestBranchDDL.java:344-350 | a successful batch changes only the names it mentions; every existing tag is still a tag at the same snapshot |
| RefUpdates.ApplyAllOne | spark/v3.2/spark-extensions/src/test/java/org/apache/iceberg/spark/extensions/TestBranchDDL.java:246 | a batch of one update behaves as that update |
| RefUpdates.ApplyAllCons | spark/v3.2/spark-extensions/src/test/java/org/apache/iceberg/spark/extensions/TestBranchDDL.java:344-350 | a batch fails with its first update's error, or applies the rest to that update's result |
| RefUpdates.ApplyUpdateKeepsValid | spark/v3.2/spark-extensions/src/test/java/org/apache/iceberg/spark/extensions/TestBranchDDL.java:270 | every successful update keeps the reference-map invariant |
| RefUpdates.ApplyAllKeepsValid | spark/v3.2/spark-extensions/src/test/java/org/apache/iceberg/spark/extensions/TestBranchDDL.java:344-350 | every successful batch keeps the reference-map invariant |
| RefUpdates.NamesCons | spark/v3.2/spark-extensions/src/test/java/org/apache/iceberg/spark/extensions/TestBranchDDL.java:344-350 | the names of a batch are its first update's name plus the names of the rest |
| RefUpdates.SameOutsideCompose | spark/v3.2/spark-extensions/src/test/java/org/apache/iceberg/spark/extensions/TestBranchDDL.java:344-350 | two steps that each change only their own names together change only the union of those names |
| TableMetadata.EmptyTable | spark/v3.2/spark-extensions/src/test/java/org/apache/iceberg/spark/extensions/TestBranchDDL.java:46 | a new table is valid and has no current snapshot |
| TableMetadata.Append | spark/v3.2/spark-extensions/src/test/java/org/apache/iceberg/spark/extensions/TestBranchDDL.java:515-521 | the log gains the new id, which becomes current; main keeps its retention or is created bare; no other reference changes |
| TableMetadata.AppendKeepsValid | spark/v3.2/spark-extensions/src/test/java/org/apache/iceberg/spark/extensions/TestBranchDDL.java:515-521 | appending keeps the table invariant |
| TableMetadata.Commit | spark/v3.2/spark-extensions/src/test/java/org/apache/iceberg/spark/extensions/TestBranchDDL.java:344-350 | never touches the log; a failed batch leaves the table unchanged; only the names it mentions change |
| TableMetadata.CommitKeepsValid | spark/v3.2/spark-extensions/src/test/java/org/apache/iceberg/spark/extensions/TestBranchDDL.java:344-350 | committing keeps the table invariant |
| BranchDdl.Millis | spark/v3.2/spark-extensions/src/test/java/org/apache/iceberg/spark/extensions/TestBranchDDL.java:93-96 | a duration converts exactly when one is given; the result is positive exactly when the count is |
| BranchDdl.RetentionUpdates | spark/v3.2/spark-extensions/src/test/java/org/apache/iceberg/spark/extensions/TestBranchDDL.java:79-88 | the staged setters name only the branch, and there are at most three |
| BranchDdl.Target | spark/v3.2/spark-extensions/src/test/java/org/apache/iceberg/spark/extensions/TestBranchDDL.java:100-120 | AS OF VERSION wins when given; without it a valid table has a target exactly when it has a snapshot, and that target is in its log |
| BranchDdl.PlanBranch | spark/v3.2/spark-extensions/src/test/java/org/apache/iceberg/spark/extensions/TestBranchDDL.java:100-107 | rejected with NoSnapshot exactly when there is no target; skipped exactly for IF NOT EXISTS on an existing name; a staged plan names only the branch |
| BranchDdl.PlanStatement | spark/v3.2/spark-extensions/src/test/java/org/apache/iceberg/spark/extensions/TestBranchDDL.java:288-308 | a staged plan names only the statement's branch |
| BranchDdl.Execute | spark/v3.2/spark-extensions/src/test/java/org/apache/iceberg/spark/extensions/TestBranchDDL.java:154-177 | a statement never touches the log; skipped or failed means unchanged; at most the named reference changes |
| BranchDdl.ExecuteKeepsValid | spark/v3.2/spark-extensions/src/test/java/org/apache/iceberg/spark/extensions/TestBranchDDL.java:240-255 | every statement keeps the table invariant |
| BranchDdlProperties.ApplyAllConcat | spark/v3.2/spark-extensions/src/test/java/org/apache/iceberg/spark/extensions/TestBranchDDL.java:344-350 | applying a + b is applying a, then b to its result, and fails as soon as a fails |
| BranchDdlProperties.ApplyKeep | spark/v3.2/spark-extensions/src/test/java/org/apache/iceberg/spark/extensions/TestBranchDDL.java:122-136 | the SNAPSHOTS clause on an existing branch sets minSnapshotsToKeep when given and positive, fails with InvalidRetention when not positive, and keeps the stored value when absent |
| BranchDdlProperties.ApplyAge | spark/v3.2/spark-extensions/src/test/java/org/apache/iceberg/spark/extensions/TestBranchDDL.java:138-152 | the snapshot-age clause on an existing branch sets maxSnapshotAgeMs to its milliseconds when given and positive, fails with InvalidRetention when not positive, and keeps the stored value when absent |
| BranchDdlProperties.ApplyRetain | spark/v3.2/spark-extensions/src/test/java/org/apache/iceberg/spark/extensions/TestBranchDDL.java:205-216 | the RETAIN clause on an existing branch sets maxRefAgeMs to its milliseconds when given and positive, fails with InvalidRetention when not positive, and keeps the stored value when absent |
| BranchDdlProperties.ApplyRetention | spark/v3.2/spark-extensions/src/test/java/org/apache/iceberg/spark/extensions/TestBranchDDL.java:122-152 | the setters on an existing branch set every setting given and keep every other one, or fail with InvalidRetention when a value is not positive |
| BranchDdlProperties.CreateBranchStores | spark/v3.2/spark-extensions/src/test/java/org/apache/iceberg/spark/extensions/TestBranchDDL.java:69-98 | CREATE BRANCH of a new name adds a branch at the target with the count, both ages in milliseconds of their units, and absent settings left absent; nothing else changes |
| BranchDdlProperties.CreateBranchDefaults | spark/v3.2/spark-extensions/src/test/java/org/apache/iceberg/spark/extensions/TestBranchDDL.java:109-120 | CREATE BRANCH with no options adds a branch at the current snapshot with all three settings absent |
| BranchDdlProperties.NoSnapshotFails | spark/v3.2/spark-extensions/src/test/java/org/apache/iceberg/spark/extensions/TestBranchDDL.java:100-107 | a create or replace with no AS OF on a table without a current snapshot fails with NoSnapshot and changes nothing |
| BranchDdlProperties.EmptyTableHasNoCurrent | spark/v3.2/spark-extensions/src/test/java/org/apache/iceberg/spark/extensions/TestBranchDDL.java:100-107 | on a valid table there is no current snapshot exactly when the log is empty |
| BranchDdlProperties.CreateExistingBranch | spark/v3.2/spark-extensions/src/test/java/org/apache/iceberg/spark/extensions/TestBranchDDL.java:154-177 | CREATE BRANCH of an existing name fails with AlreadyExists, or is skipped with IF NOT EXISTS, and changes nothing |
| BranchDdlProperties.CreateBranchRejectsRetention | spark/v3.2/spark-extensions/src/test/java/org/apache/iceberg/spark/extensions/TestBranchDDL.java:122-152 | CREATE BRANCH of a new name whose target is a snapshot of the table, with a retention value that is not positive, fails with InvalidRetention and changes nothing |
| BranchDdlProperties.CreateAppliedFacts | spark/v3.2/spark-extensions/src/test/java/org/apache/iceberg/spark/extensions/TestBranchDDL.java:69-98 | an applied create means the name was absent and was not main, the retention was valid and the target is in the log |
| BranchDdlProperties.CreateIfNotExistsIdempotent | spark/v3.2/spark-extensions/src/test/java/org/apache/iceberg/spark/extensions/TestBranchDDL.java:169 | after a first CREATE BRANCH IF NOT EXISTS that applied or was skipped, a second one is skipped and leaves the table as it is; after one that failed, the second fails the same way on the same table |
| BranchDdlProperties.ReplaceBranchMerges | spark/v3.2/spark-extensions/src/test/java/org/apache/iceberg/spark/extensions/TestBranchDDL.java:331-364 | REPLACE BRANCH moves the branch to the target; each setting given wins and each one left out keeps its stored value; nothing else changes |
| BranchDdlProperties.ReplaceBranchRejectsRetention | spark/v3.2/spark-extensions/src/test/java/org/apache/iceberg/spark/extensions/TestBranchDDL.java:384-489 | REPLACE BRANCH of a branch with a retention value that is not positive fails with InvalidRetention and changes nothing |
| BranchDdlProperties.UnknownTargetFails | spark/v3.2/spark-extensions/src/test/java/org/apache/iceberg/spark/extensions/TestBranchDDL.java:79-91 | a CREATE of a new name (with or without IF NOT EXISTS) or a REPLACE of a branch whose target is not a snapshot of the table fails with UnknownSnapshot and changes nothing |
| BranchDdlProperties.ReplaceAppliedFacts | spark/v3.2/spark-extensions/src/test/java/org/apache/iceberg/spark/extensions/TestBranchDDL.java:331-364 | an applied REPLACE BRANCH means the name was a branch, the target is in the log and the retention is valid: the converse of ReplaceBranchMerges' preconditions |
| BranchDdlProperties.ReplaceBranchRefused | spark/v3.2/spark-extensions/src/test/java/org/apache/iceberg/spark/extensions/TestBranchDDL.java:310-329 | REPLACE BRANCH of an absent name fails with NotFound, of a tag with IsTag, and changes nothing |
| BranchDdlProperties.CreateOrReplaceDispatch | spark/v3.2/spark-extensions/src/test/java/org/apache/iceberg/spark/extensions/TestBranchDDL.java:491-513 | CREATE OR REPLACE is REPLACE on an existing name and CREATE on an absent one |
| BranchDdlProperties.DropBranchRemoves | spark/v3.2/spark-extensions/src/test/java/org/apache/iceberg/spark/extensions/TestBranchDDL.java:240-255 | DROP BRANCH of a branch other than main removes exactly that entry |
| BranchDdlProperties.DropAbsentBranch | spark/v3.2/spark-extensions/src/test/java/org/apache/iceberg/spark/extensions/TestBranchDDL.java:257-264 | DROP BRANCH of an absent name fails with NotFound, or is skipped with IF EXISTS; nothing changes |
| BranchDdlProperties.DropMainFails | spark/v3.2/spark-extensions/src/test/java/org/apache/iceberg/spark/extensions/TestBranchDDL.java:288-295 | DROP BRANCH main fails with CannotRemoveMain, with or without IF EXISTS, and changes nothing |
| BranchDdlProperties.DropTagFails | spark/v3.2/spark-extensions/src/test/java/org/apache/iceberg/spark/extensions/TestBranchDDL.java:266-277 | DROP BRANCH of a tag fails with IsTag, with or without IF EXISTS, and changes nothing |
| BranchDdlProperties.CreateThenDrop | spark/v3.2/spark-extensions/src/test/java/org/apache/iceberg/spark/extensions/TestBranchDDL.java:240-255 | creating a branch and then dropping it gives back the original table |
| ManageSnapshots.CommitCreateBranch | spark/v3.2/spark-extensions/src/test/java/org/apache/iceberg/spark/extensions/TestBranchDDL.java:246 | AlreadyExists for an existing name, UnknownSnapshot for an id outside the log, otherwise a bare branch at the id is added and nothing else changes |
| ManageSnapshots.CommitCreateTag | spark/v3.2/spark-extensions/src/test/java/org/apache/iceberg/spark/extensions/TestBranchDDL.java:270 | AlreadyExists for an existing name, UnknownSnapshot for an id outside the log, otherwise a bare tag at the id is added and nothing else changes |
| ManageSnapshots.CommitReplaceBranch | spark/v3.2/spark-extensions/src/test/java/org/apache/iceberg/spark/extensions/TestBranchDDL.java:344-350 | NotFound, IsTag or UnknownSnapshot as the case may be, otherwise the branch moves to the id keeping its settings |
| ManageSnapshots.CommitRemoveBranch | spark/v3.2/spark-extensions/src/test/java/org/apache/iceberg/spark/extensions/TestBranchDDL.java:288-295 | main is never removed (CannotRemoveMain); NotFound for an absent name, IsTag for a tag, otherwise exactly that entry goes |
| ManageSnapshots.CommitSetMinSnapshotsToKeep | spark/v3.2/spark-extensions/src/test/java/org/apache/iceberg/spark/extensions/TestBranchDDL.java:348 | NotFound for an absent name, InvalidRetention on a tag or for k <= 0, otherwise only that setting of that branch changes |
| ManageSnapshots.CommitSetMaxSnapshotAgeMs | spark/v3.2/spark-extensions/src/test/java/org/apache/iceberg/spark/extensions/TestBranchDDL.java:349 | NotFound for an absent name, InvalidRetention on a tag or for ms <= 0, otherwise only that setting of that branch changes |
| ManageSnapshots.CommitSetMaxRefAgeMs | spark/v3.2/spark-extensions/src/test/java/org/apache/iceberg/spark/extensions/TestBranchDDL.java:347 | NotFound for an absent name, InvalidRetention for ms <= 0, otherwise only that setting changes, on a branch or a tag |
| ManageSnapshots.TagRefusesBranchUpdates | spark/v3.2/spark-extensions/src/test/java/org/apache/iceberg/spark/extensions/TestBranchDDL.java:320 | a tag made with createTag stays at its snapshot, and replaceBranch or removeBranch on it fails with IsTag and changes nothing |
| Lifecycle.ApplyKeepsValid | spark/v3.2/spark-extensions/src/test/java/org/apache/iceberg/spark/extensions/TestBranchDDL.java:515-521 | each append, commit or statement keeps the table invariant |
| Lifecycle.RunKeepsValid | spark/v3.2/spark-extensions/src/test/java/org/apache/iceberg/spark/extensions/TestBranchDDL.java:331-448 | every history of appends, commits and statements keeps the table invariant |
| Lifecycle.RunExtendsLog | spark/v3.2/spark-extensions/src/test/java/org/apache/iceberg/spark/extensions/TestBranchDDL.java:515-521 | the snapshot log only grows |
| Lifecycle.MainSurvives | spark/v3.2/spark-extensions/src/test/java/org/apache/iceberg/spark/extensions/TestBranchDDL.java:288-295 | once the table has a snapshot, main exists as a branch after every history |
| Lifecycle.ApplyPinsTag | spark/v3.2/spark-extensions/src/test/java/org/apache/iceberg/spark/extensions/TestBranchDDL.java:310-329 | no single command of this model removes, moves or retypes a tag |
| Lifecycle.TagsArePinned | spark/v3.2/spark-extensions/src/test/java/org/apache/iceberg/spark/extensions/TestBranchDDL.java:310-329 | no history of this model's commands removes, moves or retypes a tag: it stays a tag at the same snapshot |
| Tables.Table.constructor | spark/v3.2/spark-extensions/src/test/java/org/apache/iceberg/spark/extensions/TestBranchDDL.java:46 | a new table is valid and equal to the empty table |
| Tables.Table.CurrentSnapshot | spark/v3.2/spark-extensions/src/test/java/org/apache/iceberg/spark/extensions/TestBranchDDL.java:72 | on a valid table there is a current snapshot exactly when the log is non-empty, and it is in the log |
| Tables.Table.Lookup | spark/v3.2/spark-extensions/src/test/java/org/apache/iceberg/spark/extensions/TestBranchDDL.java:90 | null exactly when no reference has the name, otherwise the stored reference, which on a valid table points into the log and, for a tag, has no branch-only retention |
| Tables.Table.Append | spark/v3.2/spark-extensions/src/test/java/org/apache/iceberg/spark/extensions/TestBranchDDL.java:515-521 | the new state is TableMetadata.Append of the old one, and the invariant holds |
| Tables.Table.Commit | spark/v3.2/spark-extensions/src/test/java/org/apache/iceberg/spark/extensions/TestBranchDDL.java:344-350 | the loop over the batch gives exactly TableMetadata.Commit of the old state |
| Tables.Table.CreateBranch | spark/v3.2/spark-extensions/src/test/java/org/apache/iceberg/spark/extensions/TestBranchDDL.java:69-98 | outcome and new state are Execute of CREATE BRANCH on the old state |
| Tables.Table.ReplaceBranch | spark/v3.2/spark-extensions/src/test/java/org/apache/iceberg/spark/extensions/TestBranchDDL.java:355 | outcome and new state are Execute of REPLACE BRANCH on the old state |
| Tables.Table.CreateOrReplaceBranch | spark/v3.2/spark-extensions/src/test/java/org/apache/iceberg/spark/extensions/TestBranchDDL.java:505-507 | outcome and new state are Execute of CREATE OR REPLACE BRANCH on the old state |
| Tables.Table.DropBranch | spark/v3.2/spark-extensions/src/test/java/org/apache/iceberg/spark/extensions/TestBranchDDL.java:250 | outcome and new state are Execute of DROP BRANCH on the old state |
| Scenarios.TableWithRows | spark/v3.2/spark-extensions/src/test/java/org/apache/iceberg/spark/extensions/TestBranchDDL.java:515-521 | after one append the log is that snapshot and main is a bare branch at it |
| Scenarios.CreateBranchAllOptions | spark/v3.2/spark-extensions/src/test/java/org/apache/iceberg/spark/extensions/TestBranchDDL.java:69-98 | for every unit, branch b1+unit is at the snapshot, keeps 2 snapshots and has ages toMillis(2) and toMillis(10) in that unit |
| Scenarios.CreateBranchOnEmptyTable | spark/v3.2/spark-extensions/src/test/java/org/apache/iceberg/spark/extensions/TestBranchDDL.java:100-107 | CREATE BRANCH on a new table fails with NoSnapshot |
| Scenarios.CreateBranchDefaultConfig | spark/v3.2/spark-extensions/src/test/java/org/apache/iceberg/spark/extensions/TestBranchDDL.java:109-120 | b1 is at the current snapshot with no retention settings |
| Scenarios.CreateBranchPartialRetention | spark/v3.2/spark-extensions/src/test/java/org/apache/iceberg/spark/extensions/TestBranchDDL.java:122-152 | each combination of clauses sets exactly the settings it gives, in milliseconds of DAYS |
| Scenarios.CreateOnFreshTable | spark/v3.2/spark-extensions/src/test/java/org/apache/iceberg/spark/extensions/TestBranchDDL.java:179-195 | after one append, CREATE BRANCH b1 stores the converted options at that snapshot |
| Scenarios.CreateBranchIfNotExists | spark/v3.2/spark-extensions/src/test/java/org/apache/iceberg/spark/extensions/TestBranchDDL.java:154-177 | the second create fails with AlreadyExists, the IF NOT EXISTS one is skipped, and b1 keeps its snapshot age |
| Scenarios.DropBranch | spark/v3.2/spark-extensions/src/test/java/org/apache/iceberg/spark/extensions/TestBranchDDL.java:240-255 | b1 is at the snapshot before the drop, the drop succeeds, and b1 is gone after |
| Scenarios.DropBranchDoesNotExist | spark/v3.2/spark-extensions/src/test/java/org/apache/iceberg/spark/extensions/TestBranchDDL.java:257-264 | the drop fails with NotFound |
| Scenarios.DropBranchFailsForTag | spark/v3.2/spark-extensions/src/test/java/org/apache/iceberg/spark/extensions/TestBranchDDL.java:266-277 | the drop of tag b1 fails with IsTag |
| Scenarios.DropMainBranchFails | spark/v3.2/spark-extensions/src/test/java/org/apache/iceberg/spark/extensions/TestBranchDDL.java:288-295 | DROP BRANCH main fails with CannotRemoveMain |
| Scenarios.DropBranchIfExists | spark/v3.2/spark-extensions/src/test/java/org/apache/iceberg/spark/extensions/TestBranchDDL.java:297-308 | the name is absent before and after, and the drop is skipped |
| Scenarios.ReplaceBranchFailsForTag | spark/v3.2/spark-extensions/src/test/java/org/apache/iceberg/spark/extensions/TestBranchDDL.java:310-329 | the replace fails with IsTag and tag1 stays a tag at the first snapshot |
| Scenarios.ReplaceBranch | spark/v3.2/spark-extensions/src/test/java/org/apache/iceberg/spark/extensions/TestBranchDDL.java:331-364 | b1 is at the second snapshot and keeps 2, 1000 and 1000 |
| Scenarios.ReplaceBranchDoesNotExist | spark/v3.2/spark-extensions/src/test/java/org/apache/iceberg/spark/extensions/TestBranchDDL.java:366-382 | the replace fails with NotFound |
| Scenarios.ReplaceEachUnit | spark/v3.2/spark-extensions/src/test/java/org/apache/iceberg/spark/extensions/TestBranchDDL.java:402-415 | after the replace for each unit in turn, b1 is at the second snapshot with the given settings in that unit, and absent settings stay absent |
| Scenarios.ReplaceBranchWithRetain | spark/v3.2/spark-extensions/src/test/java/org/apache/iceberg/spark/extensions/TestBranchDDL.java:384-416 | per unit: b1 at the second snapshot, no snapshot settings, reference age toMillis(10) |
| Scenarios.ReplaceBranchWithSnapshotRetention | spark/v3.2/spark-extensions/src/test/java/org/apache/iceberg/spark/extensions/TestBranchDDL.java:418-448 | per unit: b1 at the second snapshot, keeps 2, snapshot age toMillis(2), no reference age |
| Scenarios.ReplaceBranchWithRetainAndSnapshotRetention | spark/v3.2/spark-extensions/src/test/java/org/apache/iceberg/spark/extensions/TestBranchDDL.java:450-489 | per unit: b1 at the second snapshot with all three settings from the statement |
| Scenarios.CreateOrReplace | spark/v3.2/spark-extensions/src/test/java/org/apache/iceberg/spark/extensions/TestBranchDDL.java:491-513 | b1 is back at the first snapshot, as a bare branch |

## Left out

- Parsing: the statements are modelled after parsing. The parse errors are not modelled: a bare WITH SNAPSHOT RETENTION, a RETAIN without a count or with a non-numeric one, the unit SECONDS, a numeric branch name (`TestBranchDDL.java` lines 197-202, 218-237, 279-286). Because of this, `TimeUnit` has only the three units the grammar accepts.
- Spark session, catalog, table refresh and test parameterisation (lines 49-67): these are environment, not reference management. `Table` is the state the tests read back after each refresh.
- Writing rows: an append is a snapshot id the caller chooses. Data files are not modelled, and neither is the uniqueness of generated ids.
- Concurrency: the metadata commit's optimistic retry and conflicts between writers are not modelled. A commit here is atomic and never conflicts.
- Exceptions: classes and message texts are reduced to the `Error` kinds listed above.
- SNAPSHOTS count: the `k SNAPSHOTS` count is taken as a Java `int`. The parser's long-to-int conversion is not modelled.
- UnknownSnapshot: a target outside the log is refused when its update is staged, not when the batch commits. So a batch whose unknown target a later update in the same batch overwrites or removes (such as createBranch(b, x) followed by replaceBranch(b, s) or removeBranch(b), with x not a snapshot) fails here with UnknownSnapshot, while a check on the final map at commit would accept it. In a batch with two faults it can also change which error is reported.
- Reference names: no rule on their form is modelled apart from the special name `main`.
- ApplyUpdate: its own contract is only the frame of one update. What the named entry becomes and which input fails with which error are stated, for every table, by the ManageSnapshots lemmas about committing that one update.
- TagsArePinned: holds only over the commands this model has. Tag removal and retargeting (DROP TAG, `removeTag`, `replaceTag`) and the other snapshot-management operations (rollback, cherry-pick, fast-forward, snapshot expiry) are not modelled, because no statement or test here uses them. In the full system a tag is destroyed by an explicit drop.
