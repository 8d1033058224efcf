/** The bytes of an import: recording what it will overwrite, and getting it back at once. */
module RecoveryBytes {
  import opened Json
  import opened RecoveryState
  import opened RecoveryReferences
  import opened RecoveryPlan
  import opened RecoverySettle
  import opened RecoveryRoundTrip
  import opened RecoveryIdentity
  import opened RecoveryExecute

  /** A file of the archive and where it goes; `keep` is the key its previous bytes get. */
  datatype ArchiveFile = ArchiveFile(assetId: Id, target: Ref, expected: string, body: Bytes, keep: Ref)

  // ----- Before the import writes -----

  /** The file gets an inverse step: its stored bytes do not have the expected checksum already. */
  predicate Overwrites(o: Store, f: ArchiveFile, checksum: Bytes -> string) {
    !(f.target in o && checksum(o[f.target]) == f.expected)
  }

  function StepOf(o: Store, f: ArchiveFile): AssetStep {
    AssetStep(f.assetId, f.target, f.expected, if f.target in o then Some(f.keep) else None, None)
  }

  /** The inverse steps of the first n files. */
  function AssetSteps(o: Store, files: seq<ArchiveFile>, n: nat, checksum: Bytes -> string): seq<AssetStep>
    requires n <= |files|
  {
    if n == 0 then []
    else AssetSteps(o, files, n - 1, checksum) + if Overwrites(o, files[n - 1], checksum) then [StepOf(o, files[n - 1])]
      else []
  }

  /** The store with copies of what the first n files will overwrite. */
  function Copied(o: Store, files: seq<ArchiveFile>, n: nat, checksum: Bytes -> string): Store
    requires n <= |files|
  {
    if n == 0 then o
    else
      var before, f := Copied(o, files, n - 1, checksum), files[n - 1];
      if Overwrites(o, f, checksum) && f.target in o then before[f.keep := o[f.target]] else before
  }

  /** Copies go under new keys, each its own. */
  ghost predicate NewKeys(o: Store, files: seq<ArchiveFile>) {
    && (forall i {:trigger files[i].keep} :: 0 <= i < |files| ==> files[i].keep !in o)
    && (forall i, j {:trigger files[i].keep, files[j].keep} :: 0 <= i < j < |files| ==> files[i].keep != files[j].keep)
    && (forall i, j {:trigger files[i].target, files[j].keep} :: 0 <= i < |files| && 0 <= j < |files| ==>
      files[i].target != files[j].keep)
  }

  /** The key holds a copy of what the file will overwrite. */
  ghost predicate Keeps(o: Store, f: ArchiveFile, checksum: Bytes -> string, r: Ref) {
    f.keep == r && f.target in o && Overwrites(o, f, checksum)
  }

  lemma {:induction false} CopiedAt(o: Store, files: seq<ArchiveFile>, n: nat, checksum: Bytes -> string, r: Ref)
    requires n <= |files| && NewKeys(o, files)
    ensures (forall i :: 0 <= i < n ==> !Keeps(o, files[i], checksum, r))
      ==> Read(Copied(o, files, n, checksum), r) == Read(o, r)
    ensures forall i :: 0 <= i < n && Keeps(o, files[i], checksum, r) ==>
      Read(Copied(o, files, n, checksum), r) == Read(o, files[i].target)
  {
    if n > 0 {
      CopiedAt(o, files, n - 1, checksum, r);
      if Keeps(o, files[n - 1], checksum, r) {
        assert forall i :: 0 <= i < n - 1 ==> files[i].keep != files[n - 1].keep;
      }
    }
  }

  /** After n files preparing was given up: only copies may have gone again. */
  ghost predicate Abandoned(o: Store, files: seq<ArchiveFile>, n: nat, checksum: Bytes -> string, after: Store) {
    n <= |files| && AgreeOutside(after, Copied(o, files, n, checksum), InverseRefs(AssetSteps(o, files, n, checksum)))
  }

  /** Reads each destination and keeps a copy of what the import will overwrite. A failure ends
      it, after a best-effort removal of the copies. */
  method PrepareAssetSteps(storage: AssetStorage, files: seq<ArchiveFile>, checksum: Bytes -> string)
    returns (steps: Option<seq<AssetStep>>)
    requires NewKeys(storage.objects, files)
    modifies storage
    ensures steps.Some? ==> steps.value == AssetSteps(old(storage.objects), files, |files|, checksum)
    ensures steps.Some? ==> storage.objects == Copied(old(storage.objects), files, |files|, checksum)
    ensures steps.None? ==> exists n :: Abandoned(old(storage.objects), files, n, checksum, storage.objects)
  {
    ghost var o := storage.objects;
    var done: seq<AssetStep> := [];
    var n := 0;
    while n < |files|
      invariant n <= |files| && storage.objects == Copied(o, files, n, checksum)
        && done == AssetSteps(o, files, n, checksum)
    {
      var f, failed := files[n], false;
      CopiedAt(o, files, n, checksum, f.target);
      var previous := Read(storage.objects, f.target);
      if * { failed := true; }
      else if previous.Some? && checksum(previous.value) == f.expected { }
      else if previous.Some? {
        var ok := storage.Put(f.keep, previous.value);
        failed := !ok;
        if ok { done := done + [AssetStep(f.assetId, f.target, f.expected, Some(f.keep), None)]; }
      } else {
        done := done + [AssetStep(f.assetId, f.target, f.expected, None, None)];
      }
      if failed {
        DeleteInverses(storage, done);
        assert Abandoned(o, files, n, checksum, storage.objects);
        return None;
      }
      n := n + 1;
    }
    steps := Some(done);
  }

  lemma {:induction false} StepsOfFiles(o: Store, files: seq<ArchiveFile>, n: nat, checksum: Bytes -> string,
    t: AssetStep)
    requires n <= |files|
    ensures t in AssetSteps(o, files, n, checksum)
       <==> exists i :: 0 <= i < n && Overwrites(o, files[i], checksum) && t == StepOf(o, files[i])
  {
    if n > 0 { StepsOfFiles(o, files, n - 1, checksum, t); }
  }

  ghost predicate StepsApart(ts: seq<AssetStep>) {
    forall i, j {:trigger ts[i].target, ts[j].target} :: 0 <= i < j < |ts| ==> ts[i].target != ts[j].target
  }

  lemma {:induction false} StepTargetsApart(o: Store, files: seq<ArchiveFile>, n: nat, checksum: Bytes -> string)
    requires n <= |files| && TargetsApart(files)
    ensures StepsApart(AssetSteps(o, files, n, checksum))
  {
    if n > 0 {
      StepTargetsApart(o, files, n - 1, checksum);
      var before := AssetSteps(o, files, n - 1, checksum);
      forall i | 0 <= i < |before| ensures before[i].target != files[n - 1].target {
        StepsOfFiles(o, files, n - 1, checksum, before[i]);
        var j :| 0 <= j < n - 1 && Overwrites(o, files[j], checksum) && before[i] == StepOf(o, files[j]);
        assert files[j].target != files[n - 1].target;
      }
    }
  }

  // ----- The import's writes -----

  ghost predicate TargetsApart(files: seq<ArchiveFile>) {
    forall i, j {:trigger files[i].target, files[j].target} :: 0 <= i < j < |files|
      ==> files[i].target != files[j].target
  }

  /** The store after the import wrote the first n files. */
  function Stored(o: Store, files: seq<ArchiveFile>, n: nat): Store
    requires n <= |files|
  {
    if n == 0 then o else Stored(o, files, n - 1)[files[n - 1].target := files[n - 1].body]
  }

  /** Destinations are distinct, copies go under new keys, and the archive's bodies have the
      checksums it declares. */
  ghost predicate Fits(o: Store, files: seq<ArchiveFile>, checksum: Bytes -> string) {
    && TargetsApart(files) && NewKeys(o, files)
    && (forall i {:trigger files[i].body} :: 0 <= i < |files| ==> checksum(files[i].body) == files[i].expected)
  }

  /** The store as the import leaves it. */
  function AfterImport(o: Store, files: seq<ArchiveFile>, checksum: Bytes -> string): Store {
    Stored(Copied(o, files, |files|, checksum), files, |files|)
  }

  lemma DecidedApart(o: Store, files: seq<ArchiveFile>, ds: seq<AssetDecision>, checksum: Bytes -> string)
    requires TargetsApart(files) && DecidedToPutBack(o, AssetSteps(o, files, |files|, checksum), ds)
    ensures forall i, j {:trigger ds[i], ds[j]} :: 0 <= i < j < |ds| ==> ds[i].step.target != ds[j].step.target
  {
    var steps := AssetSteps(o, files, |files|, checksum);
    StepTargetsApart(o, files, |files|, checksum);
    forall i, j | 0 <= i < j < |ds| ensures ds[i].step.target != ds[j].step.target {
      assert ds[i].step == steps[i] && ds[j].step == steps[j] && steps[i].target != steps[j].target;
    }
  }

  lemma {:induction false} StoredAt(o: Store, files: seq<ArchiveFile>, n: nat, r: Ref)
    requires n <= |files|
    requires TargetsApart(files)
    ensures forall i :: 0 <= i < n && files[i].target == r ==> Read(Stored(o, files, n), r) == Some(files[i].body)
    ensures (forall i :: 0 <= i < n ==> files[i].target != r) ==> Read(Stored(o, files, n), r) == Read(o, r)
  {
    if n > 0 { StoredAt(o, files, n - 1, r); }
  }

  // ----- Rolling back at once -----

  /** A decision that will put back what `before` held. */
  ghost predicate PutsBack(before: Store, d: AssetDecision) {
    && d.outcome.Apply?
    && (d.step.inverse.Some? <==> d.step.target in before)
    && (d.step.inverse.Some? ==> d.inverseBody == Read(before, d.step.target))
  }

  lemma {:induction false} WritingPutsBack(before: Store, after: Store, ds: seq<AssetDecision>)
    requires forall i {:trigger ds[i]} :: 0 <= i < |ds| ==> PutsBack(before, ds[i])
    requires forall i, j {:trigger ds[i], ds[j]} :: 0 <= i < j < |ds| ==> ds[i].step.target != ds[j].step.target
    ensures Writable(ds)
    ensures forall i {:trigger ds[i]} :: 0 <= i < |ds| ==>
      Read(Written(after, ds), ds[i].step.target) == Read(before, ds[i].step.target)
  {
    if ds != [] {
      var q, d := ds[..|ds| - 1], ds[|ds| - 1];
      forall i, j | 0 <= i < j < |q| ensures q[i].step.target != q[j].step.target {
        assert ds[i].step.target != ds[j].step.target;
      }
      WritingPutsBack(before, after, q);
      forall i | 0 <= i < |q| ensures q[i].step.target != d.step.target {
        assert ds[i].step.target != ds[|q|].step.target;
      }
    }
  }

  /** Right after the import: the expected bytes are there, and those of before are kept and
      differ from them. */
  ghost predicate Ready(before: Store, after: Store, t: AssetStep, checksum: Bytes -> string) {
    && t.settledAt.None? && t.target in after && checksum(after[t.target]) == t.expected
    && (t.inverse.Some? <==> t.target in before)
    && (t.inverse.Some?
      ==> Read(after, t.inverse.value) == Read(before, t.target) && checksum(before[t.target]) != t.expected)
  }

  lemma ReadyDecides(before: Store, after: Store, t: AssetStep, ds: seq<Decision>, checksum: Bytes -> string)
    requires Ready(before, after, t, checksum) && forall d :: d in ds ==> !d.outcome.Conflict?
    ensures var d := Decide(after, t, ds, checksum); d.step == t && PutsBack(before, d) && BlockRecord(ds, d) == ds
  {
    var n := RecordOf(ds, t.assetId);
    if n < |ds| { assert ds[n] in ds; }
  }

  lemma {:induction false} ReadyPasses(before: Store, after: Store, steps: seq<AssetStep>, ds: seq<Decision>,
    checksum: Bytes -> string)
    requires forall t :: t in steps ==> Ready(before, after, t, checksum)
    requires forall d :: d in ds ==> !d.outcome.Conflict?
    ensures var p := AssetPasses(after, steps, ds, checksum);
      p.records == ds && DecidedToPutBack(before, steps, p.assets)
  {
    if steps != [] {
      var q, t := steps[..|steps| - 1], steps[|steps| - 1];
      ReadyPasses(before, after, q, ds, checksum);
      assert t in steps;
      ReadyDecides(before, after, t, ds, checksum);
    }
  }

  ghost predicate DecidedToPutBack(before: Store, steps: seq<AssetStep>, ds: seq<AssetDecision>) {
    |ds| == |steps| && forall i {:trigger ds[i]} :: 0 <= i < |ds| ==> ds[i].step == steps[i] && PutsBack(before, ds[i])
  }

  lemma SyncedAlike(records: seq<Decision>, assets: seq<AssetDecision>)
    requires forall d :: d in records ==> !d.outcome.Conflict?
    ensures SyncAll(records, assets) == assets
  {
    forall i | 0 <= i < |assets| ensures Sync(records, assets[i]) == assets[i] {
      var n := RecordOf(records, assets[i].step.assetId);
      if n < |records| { assert records[n] in records; }
    }
  }

  lemma StepIsReady(o: Store, files: seq<ArchiveFile>, checksum: Bytes -> string, i: nat)
    requires Fits(o, files, checksum) && i < |files| && Overwrites(o, files[i], checksum)
    ensures Ready(o, AfterImport(o, files, checksum), StepOf(o, files[i]), checksum)
  {
    var copied, f := Copied(o, files, |files|, checksum), files[i];
    StoredAt(copied, files, |files|, f.target);
    StoredAt(copied, files, |files|, f.keep);
    CopiedAt(o, files, |files|, checksum, f.keep);
    assert f.target in o ==> Keeps(o, f, checksum, f.keep);
    assert checksum(files[i].body) == f.expected;
  }

  lemma StepsReady(o: Store, files: seq<ArchiveFile>, checksum: Bytes -> string)
    requires Fits(o, files, checksum)
    ensures forall t :: t in AssetSteps(o, files, |files|, checksum) ==>
      Ready(o, AfterImport(o, files, checksum), t, checksum)
  {
    forall t | t in AssetSteps(o, files, |files|, checksum)
      ensures Ready(o, AfterImport(o, files, checksum), t, checksum) {
      StepsOfFiles(o, files, |files|, checksum, t);
      var i :| 0 <= i < |files| && Overwrites(o, files[i], checksum) && t == StepOf(o, files[i]);
      StepIsReady(o, files, checksum, i);
    }
  }

  /** The checksum does not confuse a body with the different bytes it replaces. */
  ghost predicate NoConfusion(o: Store, files: seq<ArchiveFile>, checksum: Bytes -> string) {
    forall i {:trigger files[i]} :: 0 <= i < |files| && !Overwrites(o, files[i], checksum)
      ==> o[files[i].target] == files[i].body
  }

  lemma PutBackEverywhere(o: Store, files: seq<ArchiveFile>, ds: seq<AssetDecision>, checksum: Bytes -> string, r: Ref)
    requires Fits(o, files, checksum) && NoConfusion(o, files, checksum)
    requires DecidedToPutBack(o, AssetSteps(o, files, |files|, checksum), ds)
    requires r !in InverseRefs(AssetSteps(o, files, |files|, checksum))
    ensures Writable(ds) && Read(Written(AfterImport(o, files, checksum), ds), r) == Read(o, r)
  {
    var copied, steps, after :=
      Copied(o, files, |files|, checksum), AssetSteps(o, files, |files|, checksum), AfterImport(o, files, checksum);
    DecidedApart(o, files, ds, checksum);
    WritingPutsBack(o, after, ds);
    WrittenOutside(after, ds);
    if r !in Targets(ds) {
      StoredAt(copied, files, |files|, r);
      CopiedAt(o, files, |files|, checksum, r);
      forall i | 0 <= i < |files| && Overwrites(o, files[i], checksum)
        ensures files[i].target != r && !Keeps(o, files[i], checksum, r)
      {
        StepsOfFiles(o, files, |files|, checksum, StepOf(o, files[i]));
        var j :| 0 <= j < |steps| && steps[j] == StepOf(o, files[i]);
        assert ds[j].step == steps[j];
      }
    }
  }

  lemma SettleKeepsInverses(op: Operation, p: Plan, at: int)
    ensures InverseRefs(Settle(op, p, at).assetSteps) == InverseRefs(op.assetSteps)
  {
    var a, b := op.assetSteps, Settle(op, p, at).assetSteps;
    assert |a| == |b| && forall i :: 0 <= i < |a| ==> b[i].inverse == a[i].inverse;
    forall r ensures r in InverseRefs(a) <==> r in InverseRefs(b) {
      if r in InverseRefs(a) {
        var i :| 0 <= i < |a| && a[i].inverse.Some? && a[i].inverse.value == r; assert b[i].inverse == Some(r);
      }
      if r in InverseRefs(b) {
        var i :| 0 <= i < |b| && b[i].inverse.Some? && b[i].inverse.value == r; assert a[i].inverse == Some(r);
      }
    }
  }

  lemma PlanPutsBack(before: State, data: seq<Incoming>, merge: Merge, o: Store, files: seq<ArchiveFile>, op: Operation,
                     checksum: Bytes -> string)
    requires Importable(before, data) && KeepsIds(merge) && Valid(op) && MentionsNoneCreated(before, data)
    requires op.recordSteps == Steps(before, Import(before, data, merge), data)
    requires Fits(o, files, checksum) && op.assetSteps == AssetSteps(o, files, |files|, checksum)
    ensures var p := PlanFor(Import(before, data, merge), AfterImport(o, files, checksum), op, checksum);
      ConflictRows(p) == [] && DecidedToPutBack(o, op.assetSteps, p.assets)
  {
    var after, stored := Import(before, data, merge), AfterImport(o, files, checksum);
    StepsReady(o, files, checksum);
    ImmediateRollbackConflicts(before, data, merge, stored, op, checksum);
    var p, ds := PlanFor(after, stored, op, checksum), InitialDecisions(after, op.recordSteps);
    RecordRowsEmpty(p.records);
    ReadyPasses(o, stored, op.assetSteps, ds, checksum);
    SyncedAlike(p.records, AssetPasses(stored, op.assetSteps, ds, checksum).assets);
  }

  /** The plan of an immediate rollback of an import that created nothing already mentioned
      writes back every byte; so any store that a rollback leaves on success is, but for the
      keys of the copies, the store from before the import. */
  lemma ImportedBytesReturn(before: State, data: seq<Incoming>, merge: Merge, o: Store, files: seq<ArchiveFile>,
    op: Operation,
                            checksum: Bytes -> string, at: int, left: Store)
    requires Importable(before, data) && KeepsIds(merge) && Valid(op) && MentionsNoneCreated(before, data)
    requires op.recordSteps == Steps(before, Import(before, data, merge), data)
    requires Fits(o, files, checksum) && NoConfusion(o, files, checksum)
      && op.assetSteps == AssetSteps(o, files, |files|, checksum)
    ensures var p := PlanFor(Import(before, data, merge), AfterImport(o, files, checksum), op, checksum);
      && ConflictRows(p) == [] && Writable(p.assets)
      && (AgreeOutside(left, Written(AfterImport(o, files, checksum), p.assets),
        InverseRefs(Settle(op, p, at).assetSteps))
          ==> AgreeOutside(left, o, InverseRefs(op.assetSteps)))
  {
    var stored := AfterImport(o, files, checksum);
    var p := PlanFor(Import(before, data, merge), stored, op, checksum);
    PlanPutsBack(before, data, merge, o, files, op, checksum);
    SettleKeepsInverses(op, p, at);
    DecidedApart(o, files, p.assets, checksum);
    WritingPutsBack(o, stored, p.assets);
    forall r | r !in InverseRefs(op.assetSteps) ensures Read(Written(stored, p.assets), r) == Read(o, r) {
      PutBackEverywhere(o, files, p.assets, checksum, r);
    }
  }
}
