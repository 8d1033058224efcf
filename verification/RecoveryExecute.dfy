/** Carrying out a planned rollback against an object store whose operations may fail. */
module RecoveryExecute {
  import opened RecoveryState
  import opened RecoveryReferences
  import opened RecoveryPlan
  import opened RecoverySettle
  import opened RecoveryRuns
  import opened Sequences

  /** An object store; an operation that fails leaves it unchanged. */
  class AssetStorage {
    var objects: Store

    method Put(ref: Ref, body: Bytes) returns (ok: bool)
      modifies this
      ensures objects == if ok then old(objects)[ref := body] else old(objects)
    {
      if * { ok := false; } else { objects, ok := objects[ref := body], true; }
    }

    method Delete(ref: Ref) returns (ok: bool)
      modifies this
      ensures objects == if ok then old(objects) - {ref} else old(objects)
    {
      if * { ok := false; } else { objects, ok := objects - {ref}, true; }
    }
  }

  datatype Result = NotFound | RolledBackNow | FailedAndCompensated | FailedIncomplete

  /** The bytes after the decided writes, one after the other. */
  function Written(o: Store, ds: seq<AssetDecision>): Store
    requires Writable(ds)
  {
    if ds == [] then o
    else
      var before, d := Written(o, ds[..|ds| - 1]), ds[|ds| - 1];
      if !d.outcome.Apply? then before
      else if d.step.inverse.Some? then before[d.step.target := d.inverseBody.value]
      else before - {d.step.target}
  }

  /** The bytes to restore have been read. */
  predicate Writable(ds: seq<AssetDecision>) {
    forall i :: 0 <= i < |ds| && ds[i].outcome.Apply? && ds[i].step.inverse.Some? ==> ds[i].inverseBody.Some?
  }

  /** Every decision remembers the bytes it found. */
  ghost predicate Remembers(o: Store, ds: seq<AssetDecision>) {
    forall i {:trigger ds[i]} :: 0 <= i < |ds| ==> ds[i].current == Read(o, ds[i].step.target)
  }

  /** Where the decided writes go. */
  function Targets(ds: seq<AssetDecision>): set<Ref> {
    set i | 0 <= i < |ds| && ds[i].outcome.Apply? :: ds[i].step.target
  }

  lemma TargetsStep(ds: seq<AssetDecision>, n: nat)
    requires n < |ds|
    ensures Targets(ds[..n + 1]) == Targets(ds[..n]) + if ds[n].outcome.Apply? then {ds[n].step.target} else {}
  {
    var a, b := ds[..n + 1], ds[..n];
    assert forall i :: 0 <= i < n ==> a[i] == b[i];
    assert a[n] == ds[n];
    forall r | r in Targets(b) ensures r in Targets(a) {
      var i :| 0 <= i < |b| && b[i].outcome.Apply? && b[i].step.target == r;
      assert a[i].outcome.Apply? && a[i].step.target == r;
    }
  }

  lemma {:induction false} WrittenOutside(o: Store, ds: seq<AssetDecision>)
    requires Writable(ds)
    ensures AgreeOutside(Written(o, ds), o, Targets(ds))
  {
    if ds != [] {
      WrittenOutside(o, ds[..|ds| - 1]);
      TargetsStep(ds, |ds| - 1);
      assert ds[..|ds| - 1 + 1] == ds;
    }
  }

  lemma {:induction false} PassesRemember(store: Store, steps: seq<AssetStep>, ds: seq<Decision>,
    checksum: Bytes -> string)
    ensures Remembers(store, AssetPasses(store, steps, ds, checksum).assets)
  {
    if steps != [] { PassesRemember(store, steps[..|steps| - 1], ds, checksum); }
  }

  lemma PlanRemembers(s: State, store: Store, op: Operation, checksum: Bytes -> string)
    ensures Remembers(store, PlanFor(s, store, op, checksum).assets)
  {
    var ds := InitialDecisions(s, op.recordSteps);
    PassesRemember(store, op.assetSteps, ds, checksum);
    var first, last := AssetPasses(store, op.assetSteps, ds, checksum).assets, PlanFor(s, store, op, checksum).assets;
    forall i | 0 <= i < |last| ensures last[i].current == Read(store, last[i].step.target) {
      assert first[i].current == Read(store, first[i].step.target);
    }
  }

  ghost predicate AgreeOutside(a: Store, b: Store, refs: set<Ref>) {
    forall r :: r !in refs ==> Read(a, r) == Read(b, r)
  }

  lemma AgreeEverywhere(a: Store, b: Store)
    requires AgreeOutside(a, b, {})
    ensures a == b
  {
    forall r ensures r in a <==> r in b { assert Read(a, r) == Read(b, r); }
    forall r | r in a ensures a[r] == b[r] { assert Read(a, r) == Read(b, r); }
  }

  class RecoveryService {
    const storage: AssetStorage
    var state: State
    var operation: Operation

    constructor (storage: AssetStorage, state: State, operation: Operation)
      ensures this.storage == storage && this.state == state && this.operation == operation
    {
      this.storage, this.state, this.operation := storage, state, operation;
    }

    /** Either the whole rollback takes place, or the state is as before and, unless the
        failure says otherwise, so is every stored byte. */
    method Rollback(campaignId: Id, checksum: Bytes -> string, at: int, now: int, auditIds: seq<Id>) returns (r: Result)
      requires WellFormed(state) && Valid(operation) && |AuditCampaigns(operation)| <= |auditIds|
      modifies this, storage
      ensures r.NotFound? <==> campaignId !in old(operation).campaignIds
      ensures r.NotFound? ==> storage.objects == old(storage.objects)
      ensures !r.RolledBackNow? ==> state == old(state) && operation == old(operation)
      ensures r.FailedAndCompensated? ==> storage.objects == old(storage.objects)
      ensures r.RolledBackNow? ==>
        var p := PlanFor(old(state), old(storage.objects), old(operation), checksum);
        && state == RollbackState(old(state), old(operation), p.records, at, now, auditIds)
        && operation == Settle(old(operation), p, at)
        && Writable(p.assets)
        && AgreeOutside(storage.objects, Written(old(storage.objects), p.assets), InverseRefs(operation.assetSteps))
    {
      if campaignId !in operation.campaignIds { return NotFound; }
      var plan, conflicts := RollbackPlan(state, storage.objects, operation, checksum);
      PlanRemembers(state, storage.objects, operation, checksum);
      var next, nextOp := StateForRollback(state, operation, plan, conflicts, at, now, auditIds);
      var done, written := WriteAssets(plan.assets);
      if done {
        // persisting the new state may throw as well
        if * { done := false; } else { state, operation := next, nextOp; }
      }
      if !done {
        var complete := Compensate(old(storage.objects), plan.assets[..written]);
        return if complete then FailedAndCompensated else FailedIncomplete;
      }
      assert plan.assets[..|plan.assets|] == plan.assets;
      DeleteSettledInverses(storage, operation.assetSteps);
      r := RolledBackNow;
    }

    /** Writes until the first failure; `n` decisions were carried out or needed nothing. */
    method WriteAssets(ds: seq<AssetDecision>) returns (done: bool, n: nat)
      modifies storage
      ensures n <= |ds| && Writable(ds[..n]) && (done ==> n == |ds|)
      ensures storage.objects == Written(old(storage.objects), ds[..n])
    {
      n := 0;
      while n < |ds|
        invariant n <= |ds| && Writable(ds[..n])
        invariant storage.objects == Written(old(storage.objects), ds[..n])
      {
        var d := ds[n];
        assert ds[..n + 1][..n] == ds[..n];
        if d.outcome.Apply? {
          var ok;
          if d.step.inverse.Some? {
            if d.inverseBody.None? { return false, n; }
            ok := storage.Put(d.step.target, d.inverseBody.value);
          } else {
            ok := storage.Delete(d.step.target);
          }
          if !ok { return false, n; }
        }
        n := n + 1;
      }
      done := true;
    }

    /** Puts back, last write first, what each carried-out decision had found. */
    method Compensate(ghost before: Store, ds: seq<AssetDecision>) returns (complete: bool)
      requires Remembers(before, ds) && Writable(ds)
      requires storage.objects == Written(before, ds)
      modifies storage
      ensures complete ==> storage.objects == before
    {
      complete := true;
      var n := |ds|;
      WrittenOutside(before, ds);
      assert ds[..n] == ds;
      while n > 0
        invariant n <= |ds|
        invariant complete ==> AgreeOutside(storage.objects, before, Targets(ds[..n]))
      {
        n := n - 1;
        var d := ds[n];
        TargetsStep(ds, n);
        if d.outcome.Apply? {
          var ok;
          if d.current.Some? {
            ok := storage.Put(d.step.target, d.current.value);
          } else {
            ok := storage.Delete(d.step.target);
          }
          if !ok { complete := false; }
        }
      }
      assert Targets(ds[..0]) == {};
      if complete { AgreeEverywhere(storage.objects, before); }
    }
  }

  function IsSettled(): AssetStep -> bool { (step: AssetStep) => step.settledAt.Some? }

  /** Best effort: the inverse objects of the steps are deleted, failures ignored. */
  method DeleteInverses(storage: AssetStorage, steps: seq<AssetStep>)
    modifies storage
    ensures AgreeOutside(storage.objects, old(storage.objects), InverseRefs(steps))
  {
    for n := 0 to |steps|
      invariant AgreeOutside(storage.objects, old(storage.objects), InverseRefs(steps))
    {
      if steps[n].inverse.Some? { var _ := storage.Delete(steps[n].inverse.value); }
    }
  }

  method DeleteSettledInverses(storage: AssetStorage, steps: seq<AssetStep>)
    modifies storage
    ensures AgreeOutside(storage.objects, old(storage.objects), InverseRefs(steps))
  {
    FewerInverses(steps);
    DeleteInverses(storage, Filter(steps, IsSettled()));
  }

  function InverseRefs(steps: seq<AssetStep>): set<Ref> {
    set i | 0 <= i < |steps| && steps[i].inverse.Some? :: steps[i].inverse.value
  }

  lemma FewerInverses(steps: seq<AssetStep>)
    ensures InverseRefs(Filter(steps, IsSettled())) <= InverseRefs(steps)
  {
    var settled := Filter(steps, IsSettled());
    forall i | 0 <= i < |settled| && settled[i].inverse.Some? ensures settled[i].inverse.value in InverseRefs(steps) {
      assert settled[i] in steps;
    }
  }
}
