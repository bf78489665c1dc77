/** The branch statements exercised as the integration tests of the SQL extensions
    exercise them, each on a fresh table: what each test asserts is the contract of
    the method that replays it. Snapshot ids are the ids the appends produce. */
module Scenarios {
  import opened TimeUnits
  import opened Refs
  import opened RefUpdates
  import opened TableMetadata
  import opened BranchDdl
  import opened BranchDdlProperties
  import opened Tables

  /** The units the tests iterate over, in their order. */
  const AllUnits: seq<TimeUnit> := [Days, Hours, Minutes]

  function UnitName(u: TimeUnit): string {
    match u
    case Days => "DAYS"
    case Hours => "HOURS"
    case Minutes => "MINUTES"
  }

  /** The branch the create test makes for unit `u`: "b1" followed by the unit's name. */
  function UnitBranch(u: TimeUnit): string {
    "b1" + UnitName(u)
  }

  function Retain(count: Int64, u: TimeUnit): Option<Duration> {
    Some(Duration(count, u))
  }

  /** A table after one write of rows. */
  method TableWithRows(s: SnapshotId) returns (t: Table)
    ensures fresh(t) && t.Valid()
    ensures t.snapshots == [s] && t.refs == map[MainBranch := BranchRef(s)]
  {
    t := new Table();
    t.Append(s);
  }

  /** CREATE BRANCH ... AS OF VERSION s RETAIN 10 u WITH SNAPSHOT RETENTION 2
      SNAPSHOTS 2 u, once per unit: each branch is at s, keeps 2 snapshots, and
      holds both ages in milliseconds of its unit. */
  method CreateBranchAllOptions(s: SnapshotId) returns (refs: RefMap)
    ensures forall u: TimeUnit ::
      (UnitBranch(u) in refs &&
       refs[UnitBranch(u)] == Ref(Branch, s, Some(2), Some(ToMillis(u, 2)), Some(ToMillis(u, 10))))
  {
    var t := TableWithRows(s);
    for i := 0 to |AllUnits|
      invariant t.Valid() && t.snapshots == [s] && t.CurrentSnapshot() == Some(s)
      invariant forall k :: 0 <= k < i ==> (UnitBranch(AllUnits[k]) in t.refs &&
        t.refs[UnitBranch(AllUnits[k])] ==
          Ref(Branch, s, Some(2), Some(ToMillis(AllUnits[k], 2)), Some(ToMillis(AllUnits[k], 10))))
      invariant forall k :: i <= k < |AllUnits| ==> UnitBranch(AllUnits[k]) !in t.refs
    {
      var u := AllUnits[i];
      var o := BranchOptions(Some(s), Some(2), Retain(2, u), Retain(10, u));
      CreateBranchStores(t.State(), UnitBranch(u), o, false, s);
      var outcome := t.CreateBranch(UnitBranch(u), o, false);
    }
    refs := t.refs;
    forall u: TimeUnit ensures UnitBranch(u) in refs &&
      refs[UnitBranch(u)] == Ref(Branch, s, Some(2), Some(ToMillis(u, 2)), Some(ToMillis(u, 10)))
    {
      assert u == AllUnits[match u case Days => 0 case Hours => 1 case Minutes => 2];
    }
  }

  /** CREATE BRANCH b1 on a table with no snapshot fails: main has no snapshot. */
  method CreateBranchOnEmptyTable() returns (outcome: Outcome)
    ensures outcome == Failed(NoSnapshot)
  {
    var t := new Table();
    outcome := t.CreateBranch("b1", NoOptions, false);
  }

  /** CREATE BRANCH b1 with no options: b1 is at the current snapshot and all three
      retention settings are absent. */
  method CreateBranchDefaultConfig(s: SnapshotId) returns (ref: Option<Ref>)
    ensures ref == Some(Ref(Branch, s, None, None, None))
  {
    var t := TableWithRows(s);
    CreateBranchDefaults(t.State(), "b1", s);
    var outcome := t.CreateBranch("b1", NoOptions, false);
    ref := t.Lookup("b1");
  }

  /** CREATE BRANCH b1 with, in turn, WITH SNAPSHOT RETENTION 2 SNAPSHOTS;
      WITH SNAPSHOT RETENTION 2 DAYS; WITH SNAPSHOT RETENTION 2 SNAPSHOTS 2 DAYS;
      RETAIN 10 DAYS, each on a fresh table: only the settings given are present. */
  method CreateBranchPartialRetention(s: SnapshotId) returns (keep: Option<Ref>, age: Option<Ref>, both: Option<Ref>, retain: Option<Ref>)
    ensures keep == Some(Ref(Branch, s, Some(2), None, None))
    ensures age == Some(Ref(Branch, s, None, Some(ToMillis(Days, 2)), None))
    ensures both == Some(Ref(Branch, s, Some(2), Some(ToMillis(Days, 2)), None))
    ensures retain == Some(Ref(Branch, s, None, None, Some(ToMillis(Days, 10))))
  {
    keep := CreateOnFreshTable(s, BranchOptions(None, Some(2), None, None));
    age := CreateOnFreshTable(s, BranchOptions(None, None, Retain(2, Days), None));
    both := CreateOnFreshTable(s, BranchOptions(None, Some(2), Retain(2, Days), None));
    retain := CreateOnFreshTable(s, BranchOptions(None, None, None, Retain(10, Days)));
  }

  /** CREATE BRANCH b1 [options] after one write, and what b1 is then. */
  method CreateOnFreshTable(s: SnapshotId, o: BranchOptions) returns (ref: Option<Ref>)
    requires o.asOf.None? && RetentionValid(o)
    ensures ref == Some(Ref(Branch, s, o.snapshotsToKeep, Millis(o.snapshotRetention), Millis(o.retain)))
  {
    var t := TableWithRows(s);
    CreateBranchStores(t.State(), "b1", o, false, s);
    var outcome := t.CreateBranch("b1", o, false);
    ref := t.Lookup("b1");
  }

  /** After CREATE BRANCH b1 WITH SNAPSHOT RETENTION 2 DAYS, a second CREATE BRANCH
      b1 fails with "already exists", and CREATE BRANCH IF NOT EXISTS b1 does
      nothing: b1 keeps its snapshot age. */
  method CreateBranchIfNotExists(s: SnapshotId) returns (second: Outcome, third: Outcome, ref: Option<Ref>)
    ensures second == Failed(AlreadyExists) && third == Skipped
    ensures ref == Some(Ref(Branch, s, None, Some(ToMillis(Days, 2)), None))
  {
    var t := TableWithRows(s);
    var o := BranchOptions(None, None, Retain(2, Days), None);
    CreateBranchStores(t.State(), "b1", o, false, s);
    var first := t.CreateBranch("b1", o, false);
    CreateExistingBranch(t.State(), "b1", NoOptions, false);
    second := t.CreateBranch("b1", NoOptions, false);
    CreateExistingBranch(t.State(), "b1", NoOptions, true);
    third := t.CreateBranch("b1", NoOptions, true);
    ref := t.Lookup("b1");
  }

  /** A branch made through the snapshot-management API, then DROP BRANCH b1:
      b1 is there before and gone after. */
  method DropBranch(s: SnapshotId) returns (before: Option<Ref>, outcome: Outcome, after: Option<Ref>)
    ensures before == Some(BranchRef(s))
    ensures outcome == Applied && after == None
  {
    var t := TableWithRows(s);
    ApplyAllOne(t.snapshots, t.refs, CreateBranch("b1", s));
    var created := t.Commit([CreateBranch("b1", s)]);
    before := t.Lookup("b1");
    DropBranchRemoves(t.State(), "b1", false);
    outcome := t.DropBranch("b1", false);
    after := t.Lookup("b1");
  }

  /** DROP BRANCH of a name that does not exist fails. */
  method DropBranchDoesNotExist() returns (outcome: Outcome)
    ensures outcome == Failed(NotFound)
  {
    var t := new Table();
    outcome := t.DropBranch("nonExistingBranch", false);
  }

  /** DROP BRANCH of a tag fails: it is a tag, not a branch. */
  method DropBranchFailsForTag(s: SnapshotId) returns (outcome: Outcome)
    ensures outcome == Failed(IsTag)
  {
    var t := TableWithRows(s);
    ApplyAllOne(t.snapshots, t.refs, CreateTag("b1", s));
    var tagged := t.Commit([CreateTag("b1", s)]);
    DropTagFails(t.State(), "b1", false);
    outcome := t.DropBranch("b1", false);
  }

  /** DROP BRANCH main fails, even on a table with no snapshot. */
  method DropMainBranchFails() returns (outcome: Outcome)
    ensures outcome == Failed(CannotRemoveMain)
  {
    var t := new Table();
    outcome := t.DropBranch(MainBranch, false);
  }

  /** DROP BRANCH IF EXISTS of an absent name succeeds and changes nothing. */
  method DropBranchIfExists() returns (before: Option<Ref>, outcome: Outcome, after: Option<Ref>)
    ensures before == None && outcome == Skipped && after == None
  {
    var t := new Table();
    before := t.Lookup("nonExistingBranch");
    outcome := t.DropBranch("nonExistingBranch", true);
    after := t.Lookup("nonExistingBranch");
  }

  /** Tag tag1 at the first snapshot; after a second write, REPLACE BRANCH tag1 AS
      OF the second snapshot fails: tag1 is a tag, and it stays where it was. */
  method ReplaceBranchFailsForTag(first: SnapshotId, second: SnapshotId) returns (outcome: Outcome, tag: Option<Ref>)
    ensures outcome == Failed(IsTag)
    ensures tag == Some(TagRef(first))
  {
    var t := TableWithRows(first);
    ApplyAllOne(t.snapshots, t.refs, CreateTag("tag1", first));
    var tagged := t.Commit([CreateTag("tag1", first)]);
    t.Append(second);
    assert "tag1" in t.refs - {MainBranch};
    ReplaceBranchRefused(t.State(), "tag1", BranchOptions(Some(second), None, None, None));
    outcome := t.ReplaceBranch("tag1", BranchOptions(Some(second), None, None, None));
    tag := t.Lookup("tag1");
  }

  /** b1 made at the first snapshot with maxRefAgeMs 1000, minSnapshotsToKeep 2 and
      maxSnapshotAgeMs 1000 in one commit; after a second write, REPLACE BRANCH b1
      AS OF the second snapshot moves it there and keeps all three settings. */
  method ReplaceBranch(first: SnapshotId, second: SnapshotId) returns (ref: Option<Ref>)
    ensures ref == Some(Ref(Branch, second, Some(2), Some(1000), Some(1000)))
  {
    var t := TableWithRows(first);
    var log, m0 := t.snapshots, t.refs;
    var m1 := m0["b1" := BranchRef(first)];
    var m2 := m1["b1" := m1["b1"].(maxRefAgeMs := Some(1000))];
    var m3 := m2["b1" := m2["b1"].(minSnapshotsToKeep := Some(2))];
    var m4 := m3["b1" := m3["b1"].(maxSnapshotAgeMs := Some(1000))];
    ApplyAllCons(log, m0, CreateBranch("b1", first),
                 [SetMaxRefAgeMs("b1", 1000), SetMinSnapshotsToKeep("b1", 2), SetMaxSnapshotAgeMs("b1", 1000)]);
    ApplyAllCons(log, m1, SetMaxRefAgeMs("b1", 1000), [SetMinSnapshotsToKeep("b1", 2), SetMaxSnapshotAgeMs("b1", 1000)]);
    ApplyAllCons(log, m2, SetMinSnapshotsToKeep("b1", 2), [SetMaxSnapshotAgeMs("b1", 1000)]);
    ApplyAllOne(log, m3, SetMaxSnapshotAgeMs("b1", 1000));
    assert [CreateBranch("b1", first), SetMaxRefAgeMs("b1", 1000), SetMinSnapshotsToKeep("b1", 2),
            SetMaxSnapshotAgeMs("b1", 1000)] ==
           [CreateBranch("b1", first)] + ([SetMaxRefAgeMs("b1", 1000)] + ([SetMinSnapshotsToKeep("b1", 2)] +
            [SetMaxSnapshotAgeMs("b1", 1000)]));
    var made := t.Commit([CreateBranch("b1", first), SetMaxRefAgeMs("b1", 1000),
                          SetMinSnapshotsToKeep("b1", 2), SetMaxSnapshotAgeMs("b1", 1000)]);
    assert t.refs == m4;
    t.Append(second);
    assert "b1" in t.refs - {MainBranch};
    assert t.refs["b1"] == Ref(Branch, first, Some(2), Some(1000), Some(1000));
    ReplaceBranchMerges(t.State(), "b1", BranchOptions(Some(second), None, None, None), second);
    var outcome := t.ReplaceBranch("b1", BranchOptions(Some(second), None, None, None));
    ref := t.Lookup("b1");
  }

  /** REPLACE BRANCH of a name that does not exist fails. */
  method ReplaceBranchDoesNotExist(s: SnapshotId) returns (outcome: Outcome)
    ensures outcome == Failed(NotFound)
  {
    var t := TableWithRows(s);
    ReplaceBranchRefused(t.State(), "someBranch", BranchOptions(Some(s), None, None, None));
    outcome := t.ReplaceBranch("someBranch", BranchOptions(Some(s), None, None, None));
  }

  /** b1 at the first snapshot with no settings; after a second write, REPLACE
      BRANCH b1 AS OF the second snapshot with the clauses `o(u)`, once per unit.
      Returns what b1 is after each statement. */
  method ReplaceEachUnit(first: SnapshotId, second: SnapshotId, keep: Option<Int32>,
                         age: Option<Int64>, retain: Option<Int64>) returns (seen: seq<Ref>)
    requires keep.Some? ==> keep.value > 0
    requires age.Some? ==> age.value > 0
    requires retain.Some? ==> retain.value > 0
    ensures |seen| == |AllUnits|
    ensures forall k :: 0 <= k < |seen| ==> (seen[k] ==
      Ref(Branch, second, keep,
          if age.Some? then Some(ToMillis(AllUnits[k], age.value)) else None,
          if retain.Some? then Some(ToMillis(AllUnits[k], retain.value)) else None))
  {
    var t := TableWithRows(first);
    ApplyAllOne(t.snapshots, t.refs, CreateBranch("b1", first));
    var made := t.Commit([CreateBranch("b1", first)]);
    t.Append(second);
    assert "b1" in t.refs - {MainBranch};
    seen := [];
    for i := 0 to |AllUnits|
      invariant t.Valid() && second in t.snapshots
      invariant "b1" in t.refs && t.refs["b1"].kind == Branch
      invariant |seen| == i
      invariant i == 0 ==> t.refs["b1"] == BranchRef(first)
      invariant i > 0 ==> t.refs["b1"] == seen[i - 1]
      invariant forall k :: 0 <= k < i ==> (seen[k] ==
        Ref(Branch, second, keep,
            if age.Some? then Some(ToMillis(AllUnits[k], age.value)) else None,
            if retain.Some? then Some(ToMillis(AllUnits[k], retain.value)) else None))
    {
      var u := AllUnits[i];
      var o := BranchOptions(Some(second), keep,
                             if age.Some? then Retain(age.value, u) else None,
                             if retain.Some? then Retain(retain.value, u) else None);
      ReplaceBranchMerges(t.State(), "b1", o, second);
      var outcome := t.ReplaceBranch("b1", o);
      seen := seen + [t.refs["b1"]];
    }
  }

  /** REPLACE BRANCH b1 AS OF second RETAIN 10 u, per unit: b1 moves, gets the
      reference age of its unit, and keeps its (absent) snapshot settings. */
  method ReplaceBranchWithRetain(first: SnapshotId, second: SnapshotId) returns (seen: seq<Ref>)
    ensures |seen| == 3
    ensures forall k :: 0 <= k < 3 ==>
      seen[k] == Ref(Branch, second, None, None, Some(ToMillis(AllUnits[k], 10)))
  {
    seen := ReplaceEachUnit(first, second, None, None, Some(10));
  }

  /** REPLACE BRANCH b1 AS OF second WITH SNAPSHOT RETENTION 2 SNAPSHOTS 2 u, per
      unit: b1 moves, gets both snapshot settings, and keeps its (absent)
      reference age. */
  method ReplaceBranchWithSnapshotRetention(first: SnapshotId, second: SnapshotId) returns (seen: seq<Ref>)
    ensures |seen| == 3
    ensures forall k :: 0 <= k < 3 ==>
      seen[k] == Ref(Branch, second, Some(2), Some(ToMillis(AllUnits[k], 2)), None)
  {
    seen := ReplaceEachUnit(first, second, Some(2), Some(2), None);
  }

  /** REPLACE BRANCH b1 AS OF second RETAIN 10 u WITH SNAPSHOT RETENTION 2
      SNAPSHOTS 2 u, per unit: all three settings are the statement's. */
  method ReplaceBranchWithRetainAndSnapshotRetention(first: SnapshotId, second: SnapshotId) returns (seen: seq<Ref>)
    ensures |seen| == 3
    ensures forall k :: 0 <= k < 3 ==>
      seen[k] == Ref(Branch, second, Some(2), Some(ToMillis(AllUnits[k], 2)), Some(ToMillis(AllUnits[k], 10)))
  {
    seen := ReplaceEachUnit(first, second, Some(2), Some(2), Some(10));
  }

  /** b1 made at the second snapshot; CREATE OR REPLACE BRANCH b1 AS OF the first
      moves it back to the first. */
  method CreateOrReplace(first: SnapshotId, second: SnapshotId) returns (ref: Option<Ref>)
    ensures ref == Some(BranchRef(first))
  {
    var t := TableWithRows(first);
    t.Append(second);
    ApplyAllOne(t.snapshots, t.refs, CreateBranch("b1", second));
    var made := t.Commit([CreateBranch("b1", second)]);
    CreateOrReplaceDispatch(t.State(), "b1", BranchOptions(Some(first), None, None, None));
    ReplaceBranchMerges(t.State(), "b1", BranchOptions(Some(first), None, None, None), first);
    var outcome := t.CreateOrReplaceBranch("b1", BranchOptions(Some(first), None, None, None));
    ref := t.Lookup("b1");
  }
}
