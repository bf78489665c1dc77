/** The reference entity: one named pointer into the table's snapshot log, of kind
    branch or tag, with its three optional retention settings. */
module Refs {
  import opened TimeUnits

  datatype Option<+T> = None | Some(value: T)

  /** Snapshot ids are longs. */
  type SnapshotId = Int64

  /** The name of the table's default branch. */
  const MainBranch: string := "main"

  datatype RefKind = Branch | Tag

  /** A snapshot reference. An absent retention field means "use the table's
      default", which is distinct from any number. */
  datatype Ref = Ref(
    kind: RefKind,
    snapshotId: SnapshotId,
    minSnapshotsToKeep: Option<Int32>,
    maxSnapshotAgeMs: Option<Int64>,
    maxRefAgeMs: Option<Int64>)

  /** A fresh branch at `id`, every retention field absent. */
  function BranchRef(id: SnapshotId): Ref {
    Ref(Branch, id, None, None, None)
  }

  /** A fresh tag at `id`, every retention field absent. */
  function TagRef(id: SnapshotId): Ref {
    Ref(Tag, id, None, None, None)
  }

  /** The table's reference map, name to reference. */
  type RefMap = map<string, Ref>

  /** The error kinds a reference operation can end with. */
  datatype Error =
    | NoSnapshot        // no AS OF snapshot and main has no snapshot
    | AlreadyExists     // "Ref <name> already exists"
    | NotFound          // "Branch does not exist: <name>"
    | IsTag             // "Ref <name> is a tag not a branch"
    | CannotRemoveMain  // "Cannot remove main branch"
    | InvalidRetention  // a non-positive retention value, or a branch-only setting on a tag
    | UnknownSnapshot   // the target id is not in the table's snapshot log

  datatype Result<+T> = Ok(value: T) | Err(error: Error)

  /** What every stored reference satisfies: it points into the log, a tag carries
      no branch-only retention, and every retention value present is positive. */
  predicate WellFormed(r: Ref, log: seq<SnapshotId>) {
    && r.snapshotId in log
    && (r.kind == Tag ==> r.minSnapshotsToKeep.None? && r.maxSnapshotAgeMs.None?)
    && (r.minSnapshotsToKeep.Some? ==> r.minSnapshotsToKeep.value > 0)
    && (r.maxSnapshotAgeMs.Some? ==> r.maxSnapshotAgeMs.value > 0)
    && (r.maxRefAgeMs.Some? ==> r.maxRefAgeMs.value > 0)
  }

  /** The reference map's invariant against the snapshot log: main exists exactly
      when the table has a snapshot, main is a branch, and every reference is
      well formed. */
  predicate RefsValid(log: seq<SnapshotId>, refs: RefMap) {
    && (MainBranch in refs <==> |log| > 0)
    && (MainBranch in refs ==> refs[MainBranch].kind == Branch)
    && forall n :: n in refs ==> WellFormed(refs[n], log)
  }
}
