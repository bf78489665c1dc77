/** Any sequence of appends, snapshot-management commits and branch statements
    applied to one table: what holds after every such history. */
module Lifecycle {
  import opened Refs
  import opened RefUpdates
  import opened TableMetadata
  import opened BranchDdl

  datatype Command =
    | AppendRows(snapshotId: SnapshotId)   // a write that adds a snapshot to main
    | Manage(updates: seq<RefUpdate>)      // manageSnapshots()...commit()
    | Sql(statement: Statement)            // an ALTER TABLE ... BRANCH statement

  function Apply(st: TableState, c: Command): TableState {
    match c
    case AppendRows(id) => Append(st, id)
    case Manage(us) => Commit(st, us).state
    case Sql(s) => Execute(st, s).state
  }

  function Run(st: TableState, cs: seq<Command>): TableState
    decreases |cs|
  {
    if cs == [] then st else Run(Apply(st, cs[0]), cs[1..])
  }

  lemma ApplyKeepsValid(st: TableState, c: Command)
    requires Valid(st)
    ensures Valid(Apply(st, c))
  {
    match c
    case AppendRows(id) => AppendKeepsValid(st, id);
    case Manage(us) => CommitKeepsValid(st, us);
    case Sql(s) => ExecuteKeepsValid(st, s);
  }

  /** Every history keeps the table's invariant: main exists exactly when there is
      a snapshot and is a branch, every reference points into the log, tags carry
      no branch-only retention, and every retention value is positive. */
  lemma {:induction false} RunKeepsValid(st: TableState, cs: seq<Command>)
    requires Valid(st)
    ensures Valid(Run(st, cs))
    decreases |cs|
  {
    if cs != [] {
      ApplyKeepsValid(st, cs[0]);
      RunKeepsValid(Apply(st, cs[0]), cs[1..]);
    }
  }

  /** The snapshot log is append-only: every history extends it. */
  lemma {:induction false} RunExtendsLog(st: TableState, cs: seq<Command>)
    ensures st.snapshots <= Run(st, cs).snapshots
    decreases |cs|
  {
    if cs != [] {
      RunExtendsLog(Apply(st, cs[0]), cs[1..]);
    }
  }

  /** Once the table has a snapshot, main exists after every history. */
  lemma MainSurvives(st: TableState, cs: seq<Command>)
    requires Valid(st) && |st.snapshots| > 0
    ensures MainBranch in Run(st, cs).refs && Run(st, cs).refs[MainBranch].kind == Branch
  {
    RunKeepsValid(st, cs);
    RunExtendsLog(st, cs);
  }

  /** No single command of this model removes, moves or retypes a tag. */
  lemma ApplyPinsTag(st: TableState, c: Command, n: string)
    requires Valid(st) && n in st.refs && st.refs[n].kind == Tag
    ensures n in Apply(st, c).refs
    ensures Apply(st, c).refs[n].kind == Tag
    ensures Apply(st, c).refs[n].snapshotId == st.refs[n].snapshotId
  {
    match c
    case AppendRows(id) =>
      assert n in st.refs - {MainBranch};
    case Manage(us) =>
    case Sql(s) =>
      match PlanStatement(st, s)
      case Skip =>
      case Reject(e) =>
      case Stage(us) =>
  }

  /** No history of this model's commands removes, moves or retypes a tag: it still
      exists, is still a tag, and still names the same snapshot. The commands
      include no tag removal or retargeting. */
  lemma {:induction false} TagsArePinned(st: TableState, cs: seq<Command>, n: string)
    requires Valid(st) && n in st.refs && st.refs[n].kind == Tag
    ensures n in Run(st, cs).refs
    ensures Run(st, cs).refs[n].kind == Tag
    ensures Run(st, cs).refs[n].snapshotId == st.refs[n].snapshotId
    decreases |cs|
  {
    if cs != [] {
      ApplyPinsTag(st, cs[0], n);
      ApplyKeepsValid(st, cs[0]);
      TagsArePinned(Apply(st, cs[0]), cs[1..], n);
    }
  }
}
