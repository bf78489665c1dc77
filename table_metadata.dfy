/** One version of a table's metadata as far as references are concerned: the
    snapshot log and the reference map, with the two ways it changes here, an append
    of data and a committed batch of reference updates. */
module TableMetadata {
  import opened TimeUnits
  import opened Refs
  import opened RefUpdates

  datatype TableState = TableState(snapshots: seq<SnapshotId>, refs: RefMap)

  /** How a statement ends: it changed the table, it did nothing because of an
      IF EXISTS / IF NOT EXISTS clause, or it failed and changed nothing. */
  datatype Outcome = Applied | Skipped | Failed(error: Error)

  datatype Step = Step(outcome: Outcome, state: TableState)

  predicate Valid(st: TableState) {
    RefsValid(st.snapshots, st.refs)
  }

  /** The table's current snapshot: the one main points at, if main exists. */
  function Current(st: TableState): Option<SnapshotId> {
    if MainBranch in st.refs then Some(st.refs[MainBranch].snapshotId) else None
  }

  /** A table just created: no snapshot, no reference. */
  function EmptyTable(): (st: TableState)
    ensures Valid(st) && Current(st) == None
  {
    TableState([], map[])
  }

  /** Appending rows adds snapshot `id` to the log and moves main to it, creating
      main on the first append; main's retention settings and every other reference
      are kept. */
  function Append(st: TableState, id: SnapshotId): (r: TableState)
    ensures r.snapshots == st.snapshots + [id]
    ensures Current(r) == Some(id)
    ensures r.refs - {MainBranch} == st.refs - {MainBranch}
    ensures MainBranch in st.refs ==>
      r.refs[MainBranch] == st.refs[MainBranch].(snapshotId := id)
    ensures MainBranch !in st.refs ==> r.refs[MainBranch] == BranchRef(id)
  {
    var main := if MainBranch in st.refs then st.refs[MainBranch].(snapshotId := id)
                else BranchRef(id);
    TableState(st.snapshots + [id], st.refs[MainBranch := main])
  }

  lemma AppendKeepsValid(st: TableState, id: SnapshotId)
    requires Valid(st)
    ensures Valid(Append(st, id))
  {
    var r := Append(st, id);
    forall n | n in r.refs ensures WellFormed(r.refs[n], r.snapshots) {
      if n != MainBranch {
        assert n in st.refs - {MainBranch};
      }
    }
  }

  /** Committing a batch of reference updates: on success the reference map is the
      batch's result; on failure nothing changes. The log never changes. */
  function Commit(st: TableState, us: seq<RefUpdate>): (r: Step)
    ensures r.state.snapshots == st.snapshots
    ensures r.outcome != Skipped
    ensures r.outcome != Applied ==> r.state == st
    ensures r.state.refs - Names(us) == st.refs - Names(us)
  {
    match ApplyAll(st.snapshots, st.refs, us)
    case Ok(m) => Step(Applied, st.(refs := m))
    case Err(e) => Step(Failed(e), st)
  }

  lemma CommitKeepsValid(st: TableState, us: seq<RefUpdate>)
    requires Valid(st)
    ensures Valid(Commit(st, us).state)
  {
    ApplyAllKeepsValid(st.snapshots, st.refs, us);
  }
}
