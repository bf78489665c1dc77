/** The branch statements of the SQL extensions, after parsing:
      ALTER TABLE t CREATE BRANCH [IF NOT EXISTS] b [options]
      ALTER TABLE t REPLACE BRANCH b [options]
      ALTER TABLE t CREATE OR REPLACE BRANCH b [options]
      ALTER TABLE t DROP BRANCH [IF EXISTS] b
    where the options are [AS OF VERSION s] [RETAIN n unit]
    [WITH SNAPSHOT RETENTION [k SNAPSHOTS] [m unit]]. A statement first resolves its
    target snapshot and its existence clause, then stages primitive reference
    updates and commits them as one batch. */
module BranchDdl {
  import opened TimeUnits
  import opened Refs
  import opened RefUpdates
  import opened TableMetadata

  /** A count with its unit, as in `RETAIN 10 DAYS`. */
  datatype Duration = Duration(count: Int64, unit: TimeUnit)

  datatype BranchOptions = BranchOptions(
    asOf: Option<SnapshotId>,              // AS OF VERSION s
    snapshotsToKeep: Option<Int32>,        // WITH SNAPSHOT RETENTION k SNAPSHOTS
    snapshotRetention: Option<Duration>,   // WITH SNAPSHOT RETENTION ... m unit
    retain: Option<Duration>)              // RETAIN n unit

  const NoOptions: BranchOptions := BranchOptions(None, None, None, None)

  datatype Statement =
    | Create(name: string, options: BranchOptions, ifNotExists: bool)    // CREATE BRANCH
    | Replace(name: string, options: BranchOptions)                      // REPLACE BRANCH
    | CreateOrReplace(name: string, options: BranchOptions)              // CREATE OR REPLACE BRANCH
    | Drop(name: string, ifExists: bool)                                 // DROP BRANCH

  /** What a statement decides before committing anything. */
  datatype Plan = Skip | Reject(error: Error) | Stage(updates: seq<RefUpdate>)

  /** A duration in milliseconds. */
  function Millis(d: Option<Duration>): (ms: Option<Int64>)
    ensures ms.Some? <==> d.Some?
    ensures ms.Some? ==> (ms.value > 0 <==> d.value.count > 0)
  {
    if d.Some? then Some(ToMillis(d.value.unit, d.value.count)) else None
  }

  /** The setter for WITH SNAPSHOT RETENTION k SNAPSHOTS, if given. */
  function KeepUpdates(name: string, o: BranchOptions): seq<RefUpdate> {
    if o.snapshotsToKeep.Some? then [SetMinSnapshotsToKeep(name, o.snapshotsToKeep.value)] else []
  }

  /** The setter for WITH SNAPSHOT RETENTION ... m unit, if given. */
  function AgeUpdates(name: string, o: BranchOptions): seq<RefUpdate> {
    if o.snapshotRetention.Some? then [SetMaxSnapshotAgeMs(name, Millis(o.snapshotRetention).value)] else []
  }

  /** The setter for RETAIN n unit, if given. */
  function RetainUpdates(name: string, o: BranchOptions): seq<RefUpdate> {
    if o.retain.Some? then [SetMaxRefAgeMs(name, Millis(o.retain).value)] else []
  }

  /** The retention setters a statement's options call for, in the order
      minSnapshotsToKeep, maxSnapshotAgeMs, maxRefAgeMs; a clause left out
      stages no setter. */
  function RetentionUpdates(name: string, o: BranchOptions): (us: seq<RefUpdate>)
    ensures Names(us) <= {name}
    ensures |us| <= 3
  {
    KeepUpdates(name, o) + AgeUpdates(name, o) + RetainUpdates(name, o)
  }

  /** The snapshot a create or replace targets: AS OF VERSION if given, else the
      table's current snapshot. Without AS OF, a valid table has a target exactly
      when it has a snapshot, and that target is in its log. */
  function Target(st: TableState, o: BranchOptions): (t: Option<SnapshotId>)
    ensures o.asOf.Some? ==> t == o.asOf
    ensures Valid(st) && o.asOf.None? ==> (t.Some? <==> |st.snapshots| > 0)
    ensures Valid(st) && o.asOf.None? && t.Some? ==> t.value in st.snapshots
  {
    if o.asOf.Some? then o.asOf else Current(st)
  }

  /** Create or replace branch `name`. With no target snapshot the statement fails
      before anything else is looked at; a plain create of an existing name is
      skipped under IF NOT EXISTS; otherwise the branch is created or replaced and
      its retention settings staged after it. */
  function PlanBranch(st: TableState, name: string, o: BranchOptions, replace: bool, ifNotExists: bool): (p: Plan)
    ensures Target(st, o).None? <==> p == Reject(NoSnapshot)
    ensures p == Skip <==> Target(st, o).Some? && !replace && ifNotExists && name in st.refs
    ensures p.Stage? ==> Names(p.updates) == {name}
  {
    var target := Target(st, o);
    if target.None? then Reject(NoSnapshot)
    else if !replace && ifNotExists && name in st.refs then Skip
    else
      var first := if replace then ReplaceBranch(name, target.value) else CreateBranch(name, target.value);
      var us := [first] + RetentionUpdates(name, o);
      assert Names(us) == {name} by {
        assert us[0].name == name;
        forall k | 0 <= k < |us| ensures us[k].name == name {
          if k > 0 {
            assert us[k] == RetentionUpdates(name, o)[k - 1];
            assert us[k].name in Names(RetentionUpdates(name, o));
          }
        }
      }
      Stage(us)
  }

  /** The plan of a statement. CREATE OR REPLACE replaces when the name exists and
      creates otherwise; DROP of an absent name other than main is skipped under
      IF EXISTS, and main is never skipped. */
  function PlanStatement(st: TableState, s: Statement): (p: Plan)
    ensures p.Stage? ==> Names(p.updates) == {s.name}
  {
    match s
    case Create(name, o, ifNotExists) => PlanBranch(st, name, o, false, ifNotExists)
    case Replace(name, o) => PlanBranch(st, name, o, true, false)
    case CreateOrReplace(name, o) => PlanBranch(st, name, o, name in st.refs, false)
    case Drop(name, ifExists) =>
      if ifExists && name != MainBranch && name !in st.refs then Skip
      else
        assert Names([RemoveBranch(name)]) == {name} by {
          assert [RemoveBranch(name)][0].name == name;
        }
        Stage([RemoveBranch(name)])
  }

  /** Run a statement against the table. Only the named reference can change, the
      snapshot log never does, and a skipped or failed statement changes nothing. */
  function Execute(st: TableState, s: Statement): (r: Step)
    ensures r.state.snapshots == st.snapshots
    ensures r.outcome != Applied ==> r.state == st
    ensures r.state.refs - {s.name} == st.refs - {s.name}
  {
    match PlanStatement(st, s)
    case Skip => Step(Skipped, st)
    case Reject(e) => Step(Failed(e), st)
    case Stage(us) => Commit(st, us)
  }

  lemma ExecuteKeepsValid(st: TableState, s: Statement)
    requires Valid(st)
    ensures Valid(Execute(st, s).state)
  {
    var p := PlanStatement(st, s);
    if p.Stage? {
      CommitKeepsValid(st, p.updates);
    }
  }
}
