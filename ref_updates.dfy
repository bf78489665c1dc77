/** The primitive reference updates a pending snapshot-management operation stages
    (createBranch, createTag, replaceBranch, removeBranch and the three retention
    setters), and a batch of them applied in order, all or nothing, as one commit. */
module RefUpdates {
  import opened TimeUnits
  import opened Refs

  datatype RefUpdate =
    | CreateBranch(name: string, snapshotId: SnapshotId)
    | CreateTag(name: string, snapshotId: SnapshotId)
    | ReplaceBranch(name: string, snapshotId: SnapshotId)
    | RemoveBranch(name: string)
    | SetMinSnapshotsToKeep(name: string, minSnapshotsToKeep: Int32)
    | SetMaxSnapshotAgeMs(name: string, maxSnapshotAgeMs: Int64)
    | SetMaxRefAgeMs(name: string, maxRefAgeMs: Int64)

  /** One update against the pending reference map `refs`, with `log` the table's
      snapshot ids. Only the named reference can change; an existing reference keeps
      its kind, and a tag keeps its snapshot. */
  function ApplyUpdate(log: seq<SnapshotId>, refs: RefMap, u: RefUpdate): (r: Result<RefMap>)
    ensures r.Ok? ==> r.value - {u.name} == refs - {u.name}
    ensures r.Ok? ==> (u.name in r.value <==> !u.RemoveBranch?)
    ensures r.Ok? && u.name in refs && u.name in r.value ==>
      && r.value[u.name].kind == refs[u.name].kind
      && (refs[u.name].kind == Tag ==> r.value[u.name].snapshotId == refs[u.name].snapshotId)
  {
    match u
    case CreateBranch(name, id) =>
      if name in refs then Err(AlreadyExists)
      else if id !in log then Err(UnknownSnapshot)
      else Ok(refs[name := BranchRef(id)])
    case CreateTag(name, id) =>
      if name in refs then Err(AlreadyExists)
      else if id !in log then Err(UnknownSnapshot)
      else Ok(refs[name := TagRef(id)])
    case ReplaceBranch(name, id) =>
      if name !in refs then Err(NotFound)
      else if refs[name].kind == Tag then Err(IsTag)
      else if id !in log then Err(UnknownSnapshot)
      else Ok(refs[name := refs[name].(snapshotId := id)])
    case RemoveBranch(name) =>
      if name == MainBranch then Err(CannotRemoveMain)
      else if name !in refs then Err(NotFound)
      else if refs[name].kind == Tag then Err(IsTag)
      else Ok(refs - {name})
    case SetMinSnapshotsToKeep(name, n) =>
      if name !in refs then Err(NotFound)
      else if refs[name].kind == Tag || n <= 0 then Err(InvalidRetention)
      else Ok(refs[name := refs[name].(minSnapshotsToKeep := Some(n))])
    case SetMaxSnapshotAgeMs(name, ms) =>
      if name !in refs then Err(NotFound)
      else if refs[name].kind == Tag || ms <= 0 then Err(InvalidRetention)
      else Ok(refs[name := refs[name].(maxSnapshotAgeMs := Some(ms))])
    case SetMaxRefAgeMs(name, ms) =>
      if name !in refs then Err(NotFound)
      else if ms <= 0 then Err(InvalidRetention)
      else Ok(refs[name := refs[name].(maxRefAgeMs := Some(ms))])
  }

  /** The names a batch of updates mentions. */
  function Names(us: seq<RefUpdate>): set<string> {
    set k | 0 <= k < |us| :: us[k].name
  }

  /** A batch applied in order; the first failing update fails the whole batch.
      References the batch does not name are untouched, and a tag that exists
      before stays a tag at the same snapshot if the batch succeeds. */
  function ApplyAll(log: seq<SnapshotId>, refs: RefMap, us: seq<RefUpdate>): (r: Result<RefMap>)
    ensures r.Ok? ==> r.value - Names(us) == refs - Names(us)
    ensures r.Ok? ==> forall n :: n in refs && refs[n].kind == Tag ==>
      n in r.value && r.value[n].kind == Tag && r.value[n].snapshotId == refs[n].snapshotId
    decreases |us|
  {
    if us == [] then Ok(refs)
    else
      match ApplyUpdate(log, refs, us[0])
      case Err(e) => Err(e)
      case Ok(next) =>
        var r := ApplyAll(log, next, us[1..]);
        NamesCons(us);
        if r.Ok? then
          SameOutsideCompose(refs, next, r.value, us[0].name, Names(us[1..]));
          r
        else r
  }

  lemma NamesCons(us: seq<RefUpdate>)
    requires us != []
    ensures Names(us) == {us[0].name} + Names(us[1..])
  {
    forall n | n in Names(us) ensures n in {us[0].name} + Names(us[1..]) {
      var k :| 0 <= k < |us| && us[k].name == n;
      if k > 0 { assert us[1..][k - 1].name == n; }
    }
    forall n | n in Names(us[1..]) ensures n in Names(us) {
      var k :| 0 <= k < |us[1..]| && us[1..][k].name == n;
      assert us[k + 1].name == n;
    }
  }

  /** Agreement outside {a}, then outside `rest`, is agreement outside both. */
  lemma SameOutsideCompose(m0: RefMap, m1: RefMap, m2: RefMap, a: string, rest: set<string>)
    requires m1 - {a} == m0 - {a}
    requires m2 - rest == m1 - rest
    ensures m2 - ({a} + rest) == m0 - ({a} + rest)
  {
    assert m2 - ({a} + rest) == (m2 - rest) - {a};
    assert m0 - ({a} + rest) == (m0 - {a}) - rest;
    assert m1 - ({a} + rest) == (m1 - rest) - {a};
    assert m1 - ({a} + rest) == (m1 - {a}) - rest;
  }

  /** A batch of one update is that update. */
  lemma ApplyAllOne(log: seq<SnapshotId>, refs: RefMap, u: RefUpdate)
    ensures ApplyAll(log, refs, [u]) == ApplyUpdate(log, refs, u)
  {
    assert [u][0] == u && [u][1..] == [];
  }

  /** A batch starting with `u` applies `u`, then the rest to its result. */
  lemma ApplyAllCons(log: seq<SnapshotId>, refs: RefMap, u: RefUpdate, us: seq<RefUpdate>)
    ensures ApplyUpdate(log, refs, u).Err? ==> ApplyAll(log, refs, [u] + us) == ApplyUpdate(log, refs, u)
    ensures ApplyUpdate(log, refs, u).Ok? ==>
      ApplyAll(log, refs, [u] + us) == ApplyAll(log, ApplyUpdate(log, refs, u).value, us)
  {
    assert ([u] + us)[0] == u && ([u] + us)[1..] == us;
  }

  /** Each update keeps the reference map's invariant. */
  lemma ApplyUpdateKeepsValid(log: seq<SnapshotId>, refs: RefMap, u: RefUpdate)
    requires RefsValid(log, refs)
    ensures ApplyUpdate(log, refs, u).Ok? ==> RefsValid(log, ApplyUpdate(log, refs, u).value)
  {
    var r := ApplyUpdate(log, refs, u);
    if r.Ok? {
      var m := r.value;
      forall n | n in m ensures WellFormed(m[n], log) {
        if n != u.name {
          assert n in refs - {u.name};
        }
      }
      if MainBranch in m && MainBranch != u.name {
        assert MainBranch in refs - {u.name};
      }
      if MainBranch in refs && MainBranch != u.name {
        assert MainBranch in m - {u.name};
      }
    }
  }

  /** A successful batch keeps the reference map's invariant. */
  lemma {:induction false} ApplyAllKeepsValid(log: seq<SnapshotId>, refs: RefMap, us: seq<RefUpdate>)
    requires RefsValid(log, refs)
    ensures ApplyAll(log, refs, us).Ok? ==> RefsValid(log, ApplyAll(log, refs, us).value)
    decreases |us|
  {
    if us != [] {
      ApplyUpdateKeepsValid(log, refs, us[0]);
      var step := ApplyUpdate(log, refs, us[0]);
      if step.Ok? {
        ApplyAllKeepsValid(log, step.value, us[1..]);
      }
    }
  }
}
