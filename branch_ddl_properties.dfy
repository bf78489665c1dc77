/** What the branch statements do, stated for every table state: the outcome and the
    stored reference for create, replace, create-or-replace and drop, their error
    cases, and how statements compose. */
module BranchDdlProperties {
  import opened TimeUnits
  import opened Refs
  import opened RefUpdates
  import opened TableMetadata
  import opened BranchDdl

  /** A setting the statement gives wins over the one already stored. */
  function Override<T>(kept: Option<T>, given: Option<T>): Option<T> {
    if given.Some? then given else kept
  }

  /** Every retention value the statement gives is positive. */
  predicate RetentionValid(o: BranchOptions) {
    && (o.snapshotsToKeep.Some? ==> o.snapshotsToKeep.value > 0)
    && (o.snapshotRetention.Some? ==> o.snapshotRetention.value.count > 0)
    && (o.retain.Some? ==> o.retain.value.count > 0)
  }

  /** `base` with the statement's retention settings laid over it. */
  function WithRetention(base: Ref, o: BranchOptions): Ref {
    base.(minSnapshotsToKeep := Override(base.minSnapshotsToKeep, o.snapshotsToKeep),
          maxSnapshotAgeMs := Override(base.maxSnapshotAgeMs, Millis(o.snapshotRetention)),
          maxRefAgeMs := Override(base.maxRefAgeMs, Millis(o.retain)))
  }

  /** Applying `a + b` is applying `a`, then `b` to its result. */
  lemma {:induction false} ApplyAllConcat(log: seq<SnapshotId>, refs: RefMap, a: seq<RefUpdate>, b: seq<RefUpdate>)
    ensures ApplyAll(log, refs, a + b) ==
      match ApplyAll(log, refs, a)
      case Ok(m) => ApplyAll(log, m, b)
      case Err(e) => Err(e)
    decreases |a|
  {
    if a == [] {
      assert a + b == b;
    } else {
      assert (a + b)[0] == a[0];
      assert (a + b)[1..] == a[1..] + b;
      var step := ApplyUpdate(log, refs, a[0]);
      if step.Ok? {
        ApplyAllConcat(log, step.value, a[1..], b);
      }
    }
  }

  /** The SNAPSHOTS setter on an existing branch sets minSnapshotsToKeep when given
      and positive, fails when given and not positive, and is absent otherwise. */
  lemma ApplyKeep(log: seq<SnapshotId>, refs: RefMap, name: string, o: BranchOptions)
    requires name in refs && refs[name].kind == Branch
    ensures ApplyAll(log, refs, KeepUpdates(name, o)) ==
      if o.snapshotsToKeep.Some? && o.snapshotsToKeep.value <= 0 then Err(InvalidRetention)
      else Ok(refs[name := refs[name].(minSnapshotsToKeep := Override(refs[name].minSnapshotsToKeep, o.snapshotsToKeep))])
  {
    if o.snapshotsToKeep.Some? {
      ApplyAllOne(log, refs, SetMinSnapshotsToKeep(name, o.snapshotsToKeep.value));
    } else {
      assert refs[name := refs[name]] == refs;
    }
  }

  /** The snapshot-age setter on an existing branch, likewise. */
  lemma ApplyAge(log: seq<SnapshotId>, refs: RefMap, name: string, o: BranchOptions)
    requires name in refs && refs[name].kind == Branch
    ensures ApplyAll(log, refs, AgeUpdates(name, o)) ==
      if o.snapshotRetention.Some? && o.snapshotRetention.value.count <= 0 then Err(InvalidRetention)
      else Ok(refs[name := refs[name].(maxSnapshotAgeMs := Override(refs[name].maxSnapshotAgeMs, Millis(o.snapshotRetention)))])
  {
    if o.snapshotRetention.Some? {
      ApplyAllOne(log, refs, SetMaxSnapshotAgeMs(name, Millis(o.snapshotRetention).value));
    } else {
      assert refs[name := refs[name]] == refs;
    }
  }

  /** The RETAIN setter on an existing branch, likewise. */
  lemma ApplyRetain(log: seq<SnapshotId>, refs: RefMap, name: string, o: BranchOptions)
    requires name in refs && refs[name].kind == Branch
    ensures ApplyAll(log, refs, RetainUpdates(name, o)) ==
      if o.retain.Some? && o.retain.value.count <= 0 then Err(InvalidRetention)
      else Ok(refs[name := refs[name].(maxRefAgeMs := Override(refs[name].maxRefAgeMs, Millis(o.retain)))])
  {
    if o.retain.Some? {
      ApplyAllOne(log, refs, SetMaxRefAgeMs(name, Millis(o.retain).value));
    } else {
      assert refs[name := refs[name]] == refs;
    }
  }

  /** The retention setters of a statement, applied to an existing branch, set
      exactly the settings the statement gives, or fail with InvalidRetention when
      one of them is not positive. */
  lemma ApplyRetention(log: seq<SnapshotId>, refs: RefMap, name: string, o: BranchOptions)
    requires name in refs && refs[name].kind == Branch
    ensures ApplyAll(log, refs, RetentionUpdates(name, o)) ==
      if RetentionValid(o) then Ok(refs[name := WithRetention(refs[name], o)])
      else Err(InvalidRetention)
  {
    var keep, age, retain := KeepUpdates(name, o), AgeUpdates(name, o), RetainUpdates(name, o);
    assert RetentionUpdates(name, o) == keep + (age + retain);
    ApplyAllConcat(log, refs, keep, age + retain);
    ApplyKeep(log, refs, name, o);
    var r1 := ApplyAll(log, refs, keep);
    if r1.Ok? {
      ApplyAllConcat(log, r1.value, age, retain);
      ApplyAge(log, r1.value, name, o);
      var r2 := ApplyAll(log, r1.value, age);
      if r2.Ok? {
        ApplyRetain(log, r2.value, name, o);
        var r3 := ApplyAll(log, r2.value, retain);
        if r3.Ok? {
          assert r3.value[name] == WithRetention(refs[name], o);
          assert r3.value == refs[name := WithRetention(refs[name], o)];
        }
      }
    }
  }

  // ---- CREATE BRANCH ----

  /** CREATE BRANCH of a new name stores a branch at the target snapshot whose
      retention settings are exactly the ones the statement gives, in milliseconds
      for the ages, and absent otherwise. Nothing else changes. */
  lemma CreateBranchStores(st: TableState, name: string, o: BranchOptions, ifNotExists: bool, t: SnapshotId)
    requires name !in st.refs && Target(st, o) == Some(t) && t in st.snapshots
    requires RetentionValid(o)
    ensures Execute(st, Create(name, o, ifNotExists)) ==
      Step(Applied, st.(refs := st.refs[name := Ref(Branch, t, o.snapshotsToKeep,
                                                   Millis(o.snapshotRetention), Millis(o.retain))]))
  {
    var created := st.refs[name := BranchRef(t)];
    ApplyAllConcat(st.snapshots, st.refs, [CreateBranch(name, t)], RetentionUpdates(name, o));
    assert ApplyAll(st.snapshots, st.refs, [CreateBranch(name, t)]) == Ok(created);
    ApplyRetention(st.snapshots, created, name, o);
  }

  /** CREATE BRANCH with no options points the new branch at the current snapshot
      and leaves all three retention settings absent. */
  lemma CreateBranchDefaults(st: TableState, name: string, s: SnapshotId)
    requires Valid(st) && Current(st) == Some(s) && name !in st.refs
    ensures Execute(st, Create(name, NoOptions, false)) ==
      Step(Applied, st.(refs := st.refs[name := Ref(Branch, s, None, None, None)]))
  {
    assert WellFormed(st.refs[MainBranch], st.snapshots);
    CreateBranchStores(st, name, NoOptions, false, s);
  }

  /** A create or replace with no AS OF on a table whose main has no snapshot
      fails with NoSnapshot before any other check, and changes nothing. */
  lemma NoSnapshotFails(st: TableState, s: Statement)
    requires !s.Drop? && s.options.asOf.None? && Current(st).None?
    ensures Execute(st, s) == Step(Failed(NoSnapshot), st)
  {
  }

  /** On a valid table the current snapshot is missing exactly when the table has
      no snapshot at all. */
  lemma EmptyTableHasNoCurrent(st: TableState)
    requires Valid(st)
    ensures Current(st).None? <==> |st.snapshots| == 0
  {
  }

  /** CREATE BRANCH of an existing name fails with AlreadyExists, and with IF NOT
      EXISTS is skipped; either way no setting of the existing reference changes. */
  lemma CreateExistingBranch(st: TableState, name: string, o: BranchOptions, ifNotExists: bool)
    requires name in st.refs && Target(st, o).Some?
    ensures Execute(st, Create(name, o, ifNotExists)) ==
      Step(if ifNotExists then Skipped else Failed(AlreadyExists), st)
  {
    if !ifNotExists {
      var us := [CreateBranch(name, Target(st, o).value)] + RetentionUpdates(name, o);
      assert us[0] == CreateBranch(name, Target(st, o).value);
    }
  }

  /** A new branch whose retention settings are not all positive is refused with
      InvalidRetention, and the table is unchanged. */
  lemma CreateBranchRejectsRetention(st: TableState, name: string, o: BranchOptions, ifNotExists: bool, t: SnapshotId)
    requires name !in st.refs && Target(st, o) == Some(t) && t in st.snapshots
    requires !RetentionValid(o)
    ensures Execute(st, Create(name, o, ifNotExists)) == Step(Failed(InvalidRetention), st)
  {
    var created := st.refs[name := BranchRef(t)];
    ApplyAllConcat(st.snapshots, st.refs, [CreateBranch(name, t)], RetentionUpdates(name, o));
    assert ApplyAll(st.snapshots, st.refs, [CreateBranch(name, t)]) == Ok(created);
    ApplyRetention(st.snapshots, created, name, o);
  }

  /** Facts behind an applied CREATE BRANCH: the name was absent, the target
      snapshot is in the log, the retention settings are positive, and so the
      name is not main. */
  lemma CreateAppliedFacts(st: TableState, name: string, o: BranchOptions, ifNotExists: bool)
    requires Valid(st)
    requires Execute(st, Create(name, o, ifNotExists)).outcome == Applied
    ensures name !in st.refs && name != MainBranch && RetentionValid(o)
    ensures Target(st, o).Some? && Target(st, o).value in st.snapshots
  {
    var t := Target(st, o).value;
    ApplyAllConcat(st.snapshots, st.refs, [CreateBranch(name, t)], RetentionUpdates(name, o));
    if !RetentionValid(o) {
      CreateBranchRejectsRetention(st, name, o, ifNotExists, t);
    }
  }

  /** CREATE BRANCH IF NOT EXISTS twice leaves the table as the first one did:
      after a first run that applied or was skipped, the second is skipped; after
      a first run that failed, the second fails the same way. */
  lemma CreateIfNotExistsIdempotent(st: TableState, name: string, o: BranchOptions)
    requires Valid(st)
    ensures var first := Execute(st, Create(name, o, true));
            !first.outcome.Failed? ==> Execute(first.state, Create(name, o, true)) == Step(Skipped, first.state)
    ensures var first := Execute(st, Create(name, o, true));
            first.outcome.Failed? ==> Execute(first.state, Create(name, o, true)) == first
  {
    var first := Execute(st, Create(name, o, true));
    if first.outcome == Applied {
      CreateAppliedFacts(st, name, o, true);
      CreateBranchStores(st, name, o, true, Target(st, o).value);
      var once := first.state;
      assert Current(once) == Current(st);
      CreateExistingBranch(once, name, o, true);
    }
  }

  // ---- REPLACE BRANCH and CREATE OR REPLACE BRANCH ----

  /** REPLACE BRANCH of an existing branch moves it to the target snapshot, sets
      the retention settings the statement gives and keeps every other one. */
  lemma ReplaceBranchMerges(st: TableState, name: string, o: BranchOptions, t: SnapshotId)
    requires name in st.refs && st.refs[name].kind == Branch
    requires Target(st, o) == Some(t) && t in st.snapshots
    requires RetentionValid(o)
    ensures var prior := st.refs[name];
      Execute(st, Replace(name, o)) ==
      Step(Applied, st.(refs := st.refs[name := Ref(Branch, t,
        Override(prior.minSnapshotsToKeep, o.snapshotsToKeep),
        Override(prior.maxSnapshotAgeMs, Millis(o.snapshotRetention)),
        Override(prior.maxRefAgeMs, Millis(o.retain)))]))
  {
    var moved := st.refs[name := st.refs[name].(snapshotId := t)];
    ApplyAllConcat(st.snapshots, st.refs, [ReplaceBranch(name, t)], RetentionUpdates(name, o));
    assert ApplyAll(st.snapshots, st.refs, [ReplaceBranch(name, t)]) == Ok(moved);
    ApplyRetention(st.snapshots, moved, name, o);
  }

  /** REPLACE BRANCH of an existing branch whose retention settings are not all
      positive is refused with InvalidRetention, and the table is unchanged. */
  lemma ReplaceBranchRejectsRetention(st: TableState, name: string, o: BranchOptions, t: SnapshotId)
    requires name in st.refs && st.refs[name].kind == Branch
    requires Target(st, o) == Some(t) && t in st.snapshots
    requires !RetentionValid(o)
    ensures Execute(st, Replace(name, o)) == Step(Failed(InvalidRetention), st)
  {
    var moved := st.refs[name := st.refs[name].(snapshotId := t)];
    ApplyAllConcat(st.snapshots, st.refs, [ReplaceBranch(name, t)], RetentionUpdates(name, o));
    assert ApplyAll(st.snapshots, st.refs, [ReplaceBranch(name, t)]) == Ok(moved);
    ApplyRetention(st.snapshots, moved, name, o);
  }

  /** CREATE or REPLACE BRANCH whose target is not a snapshot of the table fails
      with UnknownSnapshot once the name passes its existence check, and the table
      is unchanged. */
  lemma UnknownTargetFails(st: TableState, name: string, o: BranchOptions, ifNotExists: bool, t: SnapshotId)
    requires Target(st, o) == Some(t) && t !in st.snapshots
    ensures name !in st.refs ==>
      Execute(st, Create(name, o, ifNotExists)) == Step(Failed(UnknownSnapshot), st)
    ensures name in st.refs && st.refs[name].kind == Branch ==>
      Execute(st, Replace(name, o)) == Step(Failed(UnknownSnapshot), st)
  {
    ApplyAllConcat(st.snapshots, st.refs, [CreateBranch(name, t)], RetentionUpdates(name, o));
    ApplyAllOne(st.snapshots, st.refs, CreateBranch(name, t));
    ApplyAllConcat(st.snapshots, st.refs, [ReplaceBranch(name, t)], RetentionUpdates(name, o));
    ApplyAllOne(st.snapshots, st.refs, ReplaceBranch(name, t));
  }

  /** Facts behind an applied REPLACE BRANCH: the name was a branch, the target
      snapshot is in the log and the retention settings are positive, which are
      exactly the preconditions of ReplaceBranchMerges. */
  lemma ReplaceAppliedFacts(st: TableState, name: string, o: BranchOptions)
    requires Execute(st, Replace(name, o)).outcome == Applied
    ensures name in st.refs && st.refs[name].kind == Branch && RetentionValid(o)
    ensures Target(st, o).Some? && Target(st, o).value in st.snapshots
  {
    var t := Target(st, o).value;
    if name !in st.refs || st.refs[name].kind == Tag {
      ReplaceBranchRefused(st, name, o);
    } else if t !in st.snapshots {
      UnknownTargetFails(st, name, o, false, t);
    } else if !RetentionValid(o) {
      ReplaceBranchRejectsRetention(st, name, o, t);
    }
  }

  /** REPLACE BRANCH of an absent name fails with NotFound, of a tag with IsTag;
      the table is unchanged. */
  lemma ReplaceBranchRefused(st: TableState, name: string, o: BranchOptions)
    requires Target(st, o).Some?
    requires name !in st.refs || st.refs[name].kind == Tag
    ensures Execute(st, Replace(name, o)) ==
      Step(Failed(if name !in st.refs then NotFound else IsTag), st)
  {
    var us := [ReplaceBranch(name, Target(st, o).value)] + RetentionUpdates(name, o);
    assert us[0] == ReplaceBranch(name, Target(st, o).value);
  }

  /** CREATE OR REPLACE BRANCH is REPLACE BRANCH on an existing name and CREATE
      BRANCH on an absent one, so it never fails on existence alone. */
  lemma CreateOrReplaceDispatch(st: TableState, name: string, o: BranchOptions)
    ensures name in st.refs ==>
      Execute(st, CreateOrReplace(name, o)) == Execute(st, Replace(name, o))
    ensures name !in st.refs ==>
      Execute(st, CreateOrReplace(name, o)) == Execute(st, Create(name, o, false))
  {
  }

  // ---- DROP BRANCH ----

  /** DROP BRANCH of an existing branch other than main removes it and nothing else. */
  lemma DropBranchRemoves(st: TableState, name: string, ifExists: bool)
    requires name != MainBranch && name in st.refs && st.refs[name].kind == Branch
    ensures Execute(st, Drop(name, ifExists)) == Step(Applied, st.(refs := st.refs - {name}))
  {
    var us := [RemoveBranch(name)];
    assert us[0] == RemoveBranch(name) && us[1..] == [];
    assert ApplyUpdate(st.snapshots, st.refs, us[0]) == Ok(st.refs - {name});
    assert ApplyAll(st.snapshots, st.refs, us) == Ok(st.refs - {name});
  }

  /** DROP BRANCH of an absent name fails with NotFound; with IF EXISTS it is
      skipped. The table is unchanged. */
  lemma DropAbsentBranch(st: TableState, name: string, ifExists: bool)
    requires name != MainBranch && name !in st.refs
    ensures Execute(st, Drop(name, ifExists)) ==
      Step(if ifExists then Skipped else Failed(NotFound), st)
  {
  }

  /** DROP BRANCH main always fails with CannotRemoveMain, with or without IF
      EXISTS, and on an empty table as well. */
  lemma DropMainFails(st: TableState, ifExists: bool)
    ensures Execute(st, Drop(MainBranch, ifExists)) == Step(Failed(CannotRemoveMain), st)
  {
  }

  /** DROP BRANCH of a tag fails with IsTag, with or without IF EXISTS. */
  lemma DropTagFails(st: TableState, name: string, ifExists: bool)
    requires name != MainBranch && name in st.refs && st.refs[name].kind == Tag
    ensures Execute(st, Drop(name, ifExists)) == Step(Failed(IsTag), st)
  {
  }

  /** Creating a branch and then dropping it gives back the table as it was. */
  lemma CreateThenDrop(st: TableState, name: string, o: BranchOptions, ifNotExists: bool, ifExists: bool)
    requires Valid(st)
    requires Execute(st, Create(name, o, ifNotExists)).outcome == Applied
    ensures var created := Execute(st, Create(name, o, ifNotExists)).state;
            Execute(created, Drop(name, ifExists)) == Step(Applied, st)
  {
    var created := Execute(st, Create(name, o, ifNotExists)).state;
    CreateAppliedFacts(st, name, o, ifNotExists);
    CreateBranchStores(st, name, o, ifNotExists, Target(st, o).value);
    DropBranchRemoves(created, name, ifExists);
    assert created.refs - {name} == st.refs;
  }
}
