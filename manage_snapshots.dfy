/** The snapshot-management API used directly: `manageSnapshots()`, one primitive
    update, `commit()`. For each primitive and every table, the outcome and the new
    reference map, error cases included. */
module ManageSnapshots {
  import opened TimeUnits
  import opened Refs
  import opened RefUpdates
  import opened TableMetadata

  /** createBranch(n, id): refused when n exists or id is not a snapshot of the
      table; otherwise adds a branch at id with no retention settings. */
  lemma CommitCreateBranch(st: TableState, n: string, id: SnapshotId)
    ensures n in st.refs ==> Commit(st, [CreateBranch(n, id)]) == Step(Failed(AlreadyExists), st)
    ensures n !in st.refs && id !in st.snapshots ==>
      Commit(st, [CreateBranch(n, id)]) == Step(Failed(UnknownSnapshot), st)
    ensures n !in st.refs && id in st.snapshots ==>
      Commit(st, [CreateBranch(n, id)]) == Step(Applied, st.(refs := st.refs[n := BranchRef(id)]))
  {
    ApplyAllOne(st.snapshots, st.refs, CreateBranch(n, id));
  }

  /** createTag(n, id): refused when n exists or id is not a snapshot of the
      table; otherwise adds a tag at id with no retention settings. */
  lemma CommitCreateTag(st: TableState, n: string, id: SnapshotId)
    ensures n in st.refs ==> Commit(st, [CreateTag(n, id)]) == Step(Failed(AlreadyExists), st)
    ensures n !in st.refs && id !in st.snapshots ==>
      Commit(st, [CreateTag(n, id)]) == Step(Failed(UnknownSnapshot), st)
    ensures n !in st.refs && id in st.snapshots ==>
      Commit(st, [CreateTag(n, id)]) == Step(Applied, st.(refs := st.refs[n := TagRef(id)]))
  {
    ApplyAllOne(st.snapshots, st.refs, CreateTag(n, id));
  }

  /** replaceBranch(n, id): refused for an absent name, a tag, or an id that is
      not a snapshot; otherwise moves the branch to id and keeps its settings. */
  lemma CommitReplaceBranch(st: TableState, n: string, id: SnapshotId)
    ensures n !in st.refs ==> Commit(st, [ReplaceBranch(n, id)]) == Step(Failed(NotFound), st)
    ensures n in st.refs && st.refs[n].kind == Tag ==>
      Commit(st, [ReplaceBranch(n, id)]) == Step(Failed(IsTag), st)
    ensures n in st.refs && st.refs[n].kind == Branch && id !in st.snapshots ==>
      Commit(st, [ReplaceBranch(n, id)]) == Step(Failed(UnknownSnapshot), st)
    ensures n in st.refs && st.refs[n].kind == Branch && id in st.snapshots ==>
      Commit(st, [ReplaceBranch(n, id)]) ==
      Step(Applied, st.(refs := st.refs[n := st.refs[n].(snapshotId := id)]))
  {
    ApplyAllOne(st.snapshots, st.refs, ReplaceBranch(n, id));
  }

  /** removeBranch(n): main can never be removed; an absent name or a tag is
      refused; otherwise exactly that entry goes. */
  lemma CommitRemoveBranch(st: TableState, n: string)
    ensures Commit(st, [RemoveBranch(MainBranch)]) == Step(Failed(CannotRemoveMain), st)
    ensures n != MainBranch && n !in st.refs ==> Commit(st, [RemoveBranch(n)]) == Step(Failed(NotFound), st)
    ensures n != MainBranch && n in st.refs && st.refs[n].kind == Tag ==>
      Commit(st, [RemoveBranch(n)]) == Step(Failed(IsTag), st)
    ensures n != MainBranch && n in st.refs && st.refs[n].kind == Branch ==>
      Commit(st, [RemoveBranch(n)]) == Step(Applied, st.(refs := st.refs - {n}))
  {
    ApplyAllOne(st.snapshots, st.refs, RemoveBranch(MainBranch));
    ApplyAllOne(st.snapshots, st.refs, RemoveBranch(n));
  }

  /** setMinSnapshotsToKeep(n, k): refused for an absent name, for a tag (the
      setting is for branches only) and for k <= 0; otherwise sets it on n. */
  lemma CommitSetMinSnapshotsToKeep(st: TableState, n: string, k: Int32)
    ensures n !in st.refs ==> Commit(st, [SetMinSnapshotsToKeep(n, k)]) == Step(Failed(NotFound), st)
    ensures n in st.refs && (st.refs[n].kind == Tag || k <= 0) ==>
      Commit(st, [SetMinSnapshotsToKeep(n, k)]) == Step(Failed(InvalidRetention), st)
    ensures n in st.refs && st.refs[n].kind == Branch && k > 0 ==>
      Commit(st, [SetMinSnapshotsToKeep(n, k)]) ==
      Step(Applied, st.(refs := st.refs[n := st.refs[n].(minSnapshotsToKeep := Some(k))]))
  {
    ApplyAllOne(st.snapshots, st.refs, SetMinSnapshotsToKeep(n, k));
  }

  /** setMaxSnapshotAgeMs(n, ms): refused for an absent name, for a tag (the
      setting is for branches only) and for ms <= 0; otherwise sets it on n. */
  lemma CommitSetMaxSnapshotAgeMs(st: TableState, n: string, ms: Int64)
    ensures n !in st.refs ==> Commit(st, [SetMaxSnapshotAgeMs(n, ms)]) == Step(Failed(NotFound), st)
    ensures n in st.refs && (st.refs[n].kind == Tag || ms <= 0) ==>
      Commit(st, [SetMaxSnapshotAgeMs(n, ms)]) == Step(Failed(InvalidRetention), st)
    ensures n in st.refs && st.refs[n].kind == Branch && ms > 0 ==>
      Commit(st, [SetMaxSnapshotAgeMs(n, ms)]) ==
      Step(Applied, st.(refs := st.refs[n := st.refs[n].(maxSnapshotAgeMs := Some(ms))]))
  {
    ApplyAllOne(st.snapshots, st.refs, SetMaxSnapshotAgeMs(n, ms));
  }

  /** setMaxRefAgeMs(n, ms): refused for an absent name and for ms <= 0; it applies
      to branches and tags alike. */
  lemma CommitSetMaxRefAgeMs(st: TableState, n: string, ms: Int64)
    ensures n !in st.refs ==> Commit(st, [SetMaxRefAgeMs(n, ms)]) == Step(Failed(NotFound), st)
    ensures n in st.refs && ms <= 0 ==>
      Commit(st, [SetMaxRefAgeMs(n, ms)]) == Step(Failed(InvalidRetention), st)
    ensures n in st.refs && ms > 0 ==>
      Commit(st, [SetMaxRefAgeMs(n, ms)]) ==
      Step(Applied, st.(refs := st.refs[n := st.refs[n].(maxRefAgeMs := Some(ms))]))
  {
    ApplyAllOne(st.snapshots, st.refs, SetMaxRefAgeMs(n, ms));
  }

  /** A tag created through the API can be neither moved nor removed as a branch:
      both updates fail with IsTag and the tag stays where it was. */
  lemma TagRefusesBranchUpdates(st: TableState, n: string, id: SnapshotId, other: SnapshotId)
    requires n != MainBranch && n !in st.refs && id in st.snapshots
    ensures var tagged := Commit(st, [CreateTag(n, id)]).state;
      && Commit(tagged, [ReplaceBranch(n, other)]) == Step(Failed(IsTag), tagged)
      && Commit(tagged, [RemoveBranch(n)]) == Step(Failed(IsTag), tagged)
      && tagged.refs[n] == TagRef(id)
  {
    CommitCreateTag(st, n, id);
    var tagged := Commit(st, [CreateTag(n, id)]).state;
    CommitReplaceBranch(tagged, n, other);
    CommitRemoveBranch(tagged, n);
  }
}
