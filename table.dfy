/** The table object the statements act on: its snapshot log and its reference map
    are fields that each operation updates in place. Every method is proved against
    the functions of TableMetadata and BranchDdl and keeps the table's invariant. */
module Tables {
  import opened TimeUnits
  import opened Refs
  import opened RefUpdates
  import opened TableMetadata
  import opened BranchDdl

  class Table {
    var snapshots: seq<SnapshotId>
    var refs: RefMap

    function State(): TableState
      reads this
    {
      TableState(snapshots, refs)
    }

    predicate Valid()
      reads this
    {
      TableMetadata.Valid(State())
    }

    /** CREATE TABLE: no snapshot and no reference yet. */
    constructor ()
      ensures Valid() && State() == EmptyTable()
    {
      snapshots := [];
      refs := map[];
    }

    /** `table.currentSnapshot()`: main's snapshot, if main exists. On a valid
        table there is one exactly when the log is non-empty, and it is in the log. */
    function CurrentSnapshot(): (c: Option<SnapshotId>)
      reads this
      ensures Valid() ==> (c.Some? <==> |snapshots| > 0)
      ensures Valid() && c.Some? ==> c.value in snapshots
    {
      Current(State())
    }

    /** `table.refs().get(name)`: null exactly when no reference has that name; on a
        valid table a reference found points into the log and a tag found carries
        no branch-only retention. */
    function Lookup(name: string): (r: Option<Ref>)
      reads this
      ensures r.Some? <==> name in refs
      ensures r.Some? ==> r.value == refs[name]
      ensures Valid() && r.Some? ==> WellFormed(r.value, snapshots)
    {
      if name in refs then Some(refs[name]) else None
    }

    /** A write of rows: snapshot `id` joins the log and main moves to it. */
    method Append(id: SnapshotId)
      requires Valid()
      modifies this
      ensures Valid()
      ensures State() == TableMetadata.Append(old(State()), id)
    {
      AppendKeepsValid(State(), id);
      var main := if MainBranch in refs then refs[MainBranch].(snapshotId := id) else BranchRef(id);
      snapshots := snapshots + [id];
      refs := refs[MainBranch := main];
    }

    /** `manageSnapshots()` with the staged `updates`, then `commit()`: the updates
        are applied in order to a pending copy of the reference map, which replaces
        the table's only if every one of them succeeds. */
    method Commit(updates: seq<RefUpdate>) returns (outcome: Outcome)
      requires Valid()
      modifies this
      ensures Valid()
      ensures Step(outcome, State()) == TableMetadata.Commit(old(State()), updates)
    {
      CommitKeepsValid(State(), updates);
      var pending := refs;
      var i := 0;
      while i < |updates|
        invariant 0 <= i <= |updates|
        invariant ApplyAll(snapshots, refs, updates) == ApplyAll(snapshots, pending, updates[i..])
      {
        assert updates[i..][0] == updates[i] && updates[i..][1..] == updates[i + 1..];
        var r := ApplyUpdate(snapshots, pending, updates[i]);
        if r.Err? {
          return Failed(r.error);
        }
        pending := r.value;
        i := i + 1;
      }
      assert updates[i..] == [];
      refs := pending;
      outcome := Applied;
    }

    /** ALTER TABLE ... CREATE BRANCH [IF NOT EXISTS] name [options]. */
    method CreateBranch(name: string, o: BranchOptions, ifNotExists: bool) returns (outcome: Outcome)
      requires Valid()
      modifies this
      ensures Valid()
      ensures Step(outcome, State()) == Execute(old(State()), Create(name, o, ifNotExists))
    {
      var target := Target(State(), o);
      if target.None? {
        return Failed(NoSnapshot);
      }
      if ifNotExists && name in refs {
        return Skipped;
      }
      outcome := Commit([RefUpdate.CreateBranch(name, target.value)] + RetentionUpdates(name, o));
    }

    /** ALTER TABLE ... REPLACE BRANCH name [options]. */
    method ReplaceBranch(name: string, o: BranchOptions) returns (outcome: Outcome)
      requires Valid()
      modifies this
      ensures Valid()
      ensures Step(outcome, State()) == Execute(old(State()), Replace(name, o))
    {
      var target := Target(State(), o);
      if target.None? {
        return Failed(NoSnapshot);
      }
      outcome := Commit([RefUpdate.ReplaceBranch(name, target.value)] + RetentionUpdates(name, o));
    }

    /** ALTER TABLE ... CREATE OR REPLACE BRANCH name [options]. */
    method CreateOrReplaceBranch(name: string, o: BranchOptions) returns (outcome: Outcome)
      requires Valid()
      modifies this
      ensures Valid()
      ensures Step(outcome, State()) == Execute(old(State()), CreateOrReplace(name, o))
    {
      if name in refs {
        outcome := ReplaceBranch(name, o);
      } else {
        outcome := CreateBranch(name, o, false);
      }
    }

    /** ALTER TABLE ... DROP BRANCH [IF EXISTS] name. */
    method DropBranch(name: string, ifExists: bool) returns (outcome: Outcome)
      requires Valid()
      modifies this
      ensures Valid()
      ensures Step(outcome, State()) == Execute(old(State()), Drop(name, ifExists))
    {
      if ifExists && name != MainBranch && name !in refs {
        return Skipped;
      }
      outcome := Commit([RemoveBranch(name)]);
    }
  }
}
