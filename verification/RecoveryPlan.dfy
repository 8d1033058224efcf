/** Planning one rollback attempt: what each open record and byte step of the operation would
    do to the state and the store as they are. */
module RecoveryPlan {
  import opened Json
  import opened RecoveryState
  import opened RecoveryReferences

  type Bytes = seq<int>
  type Ref = string
  type Store = map<Ref, Bytes>

  /** `inverse` is where the bytes to restore are kept; None means the step deletes. */
  datatype AssetStep = AssetStep(assetId: Id, target: Ref, expected: string, inverse: Option<Ref>,
    settledAt: Option<int>)

  datatype AssetDecision = AssetDecision(step: AssetStep, outcome: Outcome, current: Option<Bytes>,
    inverseBody: Option<Bytes>)

  datatype Plan = Plan(records: seq<Decision>, assets: seq<AssetDecision>)

  datatype Status = Applied | PartiallyRolledBack | RolledBack

  datatype ConflictRow = ConflictRow(coll: Coll, id: Id, reason: Reason)

  datatype Operation = Operation(
    id: Id, campaignIds: seq<Id>, status: Status,
    recordSteps: seq<RecordStep>, assetSteps: seq<AssetStep>,
    updatedAt: int, rolledBackAt: Option<int>,
    lastRollbackAt: Option<int>, lastConflicts: seq<ConflictRow>)

  ghost predicate Valid(op: Operation) {
    && UniqueSteps(op.recordSteps)
    && UniqueAssets(op.assetSteps)
    && (forall i {:trigger StepIds(op.recordSteps[i])} :: 0 <= i < |op.recordSteps| ==> StepIds(op.recordSteps[i]))
  }

  ghost predicate StepIds(step: RecordStep) {
    && step.after.id == step.id
    && (step.inverse.Restore? ==> step.inverse.before.id == step.id)
  }

  // ----- Record decisions -----

  function RecordOutcome(s: State, step: RecordStep): Outcome {
    var current := Find(Records(s, step.coll), step.id);
    if step.inverse.Delete? && current.None? then Satisfied
    else if step.inverse.Restore? && SameRecord(step.coll, current, Some(step.inverse.before)) then Satisfied
    else if SameRecord(step.coll, current, Some(step.after)) then Apply
    else Conflict(RecordChanged)
  }

  function InitialDecisions(s: State, steps: seq<RecordStep>): seq<Decision> {
    if steps == [] then []
    else
      var p, step := steps[..|steps| - 1], steps[|steps| - 1];
      InitialDecisions(s, p) + if step.settledAt.Some? then [] else [Decision(step, RecordOutcome(s, step))]
  }

  lemma {:induction false} InitialMember(s: State, steps: seq<RecordStep>, d: Decision)
    ensures d in InitialDecisions(s, steps)
       <==> d.step in steps && d.step.settledAt.None? && d.outcome == RecordOutcome(s, d.step)
  {
    if steps != [] {
      InitialMember(s, steps[..|steps| - 1], d);
      assert steps == steps[..|steps| - 1] + [steps[|steps| - 1]];
    }
  }

  ghost predicate UniqueSteps(steps: seq<RecordStep>) {
    forall i, j {:trigger steps[i].Key(), steps[j].Key()} :: 0 <= i < j < |steps| ==> steps[i].Key() != steps[j].Key()
  }

  lemma {:induction false} InitialUnique(s: State, steps: seq<RecordStep>)
    requires UniqueSteps(steps)
    ensures UniqueKeys(InitialDecisions(s, steps))
  {
    if steps != [] {
      var p, step := steps[..|steps| - 1], steps[|steps| - 1];
      assert UniqueSteps(p) by {
        forall i, j | 0 <= i < j < |p| ensures p[i].Key() != p[j].Key() { assert steps[i].Key() != steps[j].Key(); }
      }
      InitialUnique(s, p);
      var ds := InitialDecisions(s, p);
      forall i | 0 <= i < |ds| ensures ds[i].step.Key() != step.Key() {
        InitialMember(s, p, ds[i]);
        var j :| 0 <= j < |p| && p[j] == ds[i].step;
        assert steps[j].Key() != steps[|p|].Key();
      }
    }
  }

  /** A step is applied only to a record that is there. */
  lemma InitialApplicable(s: State, op: Operation)
    requires Valid(op)
    ensures UniqueKeys(InitialDecisions(s, op.recordSteps))
    ensures Applicable(s, InitialDecisions(s, op.recordSteps))
  {
    var ds := InitialDecisions(s, op.recordSteps);
    InitialUnique(s, op.recordSteps);
    forall i | 0 <= i < |ds| && ds[i].outcome.Apply? ensures AppliesTo(s, ds[i]) {
      var d := ds[i];
      InitialMember(s, op.recordSteps, d);
      var j :| 0 <= j < |op.recordSteps| && op.recordSteps[j] == d.step;
      assert StepIds(op.recordSteps[j]);
      assert Find(Records(s, d.step.coll), d.step.id).Some?;
    }
  }

  // ----- Asset decisions -----

  function AssetOutcome(step: AssetStep, current: Option<Bytes>, inverseBody: Option<Bytes>, record: Option<Outcome>,
                        checksum: Bytes -> string): Outcome {
    if record.Some? && record.value.Conflict? then Conflict(RecordChanged)
    else if step.inverse.None? && current.None? then Satisfied
    else if step.inverse.Some? && inverseBody.Some? && current.Some?
      && checksum(current.value) == checksum(inverseBody.value) then Satisfied
    else if current.Some? && checksum(current.value) == step.expected then Apply
    else Conflict(AssetBytesChanged)
  }

  function Read(store: Store, ref: Ref): Option<Bytes> {
    if ref in store then Some(store[ref]) else None
  }

  /** Position of the decision about an asset's record; the length when there is none. */
  function RecordOf(ds: seq<Decision>, assetId: Id): (n: nat)
    ensures n <= |ds|
    ensures n < |ds| ==> ds[n].step.Key() == ("assets", assetId)
    ensures forall i {:trigger ds[i]} :: 0 <= i < n ==> ds[i].step.Key() != ("assets", assetId)
  {
    if ds == [] then 0 else if ds[0].step.Key() == ("assets", assetId) then 0 else 1 + RecordOf(ds[1..], assetId)
  }

  function Decide(store: Store, step: AssetStep, records: seq<Decision>, checksum: Bytes -> string): AssetDecision {
    var n := RecordOf(records, step.assetId);
    var current := Read(store, step.target);
    var inverseBody := if step.inverse.Some? then Read(store, step.inverse.value) else None;
    AssetDecision(step,
      AssetOutcome(step, current, inverseBody, if n < |records| then Some(records[n].outcome) else None, checksum),
      current, inverseBody)
  }

  /** Changed bytes also block the asset's record. */
  function BlockRecord(records: seq<Decision>, d: AssetDecision): (r: seq<Decision>)
    ensures |r| == |records|
  {
    var n := RecordOf(records, d.step.assetId);
    if d.outcome == Conflict(AssetBytesChanged) && n < |records|
    then records[n := records[n].(outcome := d.outcome)]
    else records
  }

  function AssetPasses(store: Store, steps: seq<AssetStep>, records: seq<Decision>, checksum: Bytes -> string): Plan {
    if steps == [] then Plan(records, [])
    else
      var p, step := AssetPasses(store, steps[..|steps| - 1], records, checksum), steps[|steps| - 1];
      if step.settledAt.Some? then p
      else
        var d := Decide(store, step, p.records, checksum);
        Plan(BlockRecord(p.records, d), p.assets + [d])
  }

  /** A record that ended in conflict keeps its bytes from being touched. */
  function Sync(records: seq<Decision>, d: AssetDecision): AssetDecision {
    var n := RecordOf(records, d.step.assetId);
    if n < |records| && records[n].outcome.Conflict? && !d.outcome.Conflict?
    then d.(outcome := records[n].outcome)
    else d
  }

  function SyncAll(records: seq<Decision>, assets: seq<AssetDecision>): (r: seq<AssetDecision>)
    ensures |r| == |assets|
    ensures forall i :: 0 <= i < |assets| ==> r[i] == Sync(records, assets[i])
  {
    if assets == [] then []
    else SyncAll(records, assets[..|assets| - 1]) + [Sync(records, assets[|assets| - 1])]
  }

  ghost function PlanFor(s: State, store: Store, op: Operation, checksum: Bytes -> string): Plan {
    var p := AssetPasses(store, op.assetSteps, InitialDecisions(s, op.recordSteps), checksum);
    var records := Mark(p.records, Survivors(s, p.records));
    Plan(records, SyncAll(records, p.assets))
  }

  /** Decisions may only turn into conflicts between the first and the last pass. */
  ghost predicate Weakened(before: seq<Decision>, after: seq<Decision>) {
    && |before| == |after|
    && forall i {:trigger after[i]} {:trigger before[i]} :: 0 <= i < |before| ==>
         after[i].step == before[i].step && (after[i].outcome == before[i].outcome || after[i].outcome.Conflict?)
  }

  lemma {:induction false} AssetPassesWeaken(store: Store, steps: seq<AssetStep>, records: seq<Decision>,
    checksum: Bytes -> string)
    ensures Weakened(records, AssetPasses(store, steps, records, checksum).records)
  {
    if steps != [] { AssetPassesWeaken(store, steps[..|steps| - 1], records, checksum); }
  }

  lemma WeakenedApplicable(s: State, before: seq<Decision>, after: seq<Decision>)
    requires Weakened(before, after) && UniqueKeys(before) && Applicable(s, before)
    ensures UniqueKeys(after) && Applicable(s, after)
  {
    forall i, j | 0 <= i < j < |after| ensures after[i].step.Key() != after[j].step.Key() {
      assert before[i].step.Key() != before[j].step.Key();
    }
    forall i | 0 <= i < |after| && after[i].outcome.Apply? ensures AppliesTo(s, after[i]) {
      assert AppliesTo(s, before[i]);
    }
  }

  // ----- Planning as the code does it -----

  method RollbackPlan(s: State, store: Store, op: Operation, checksum: Bytes -> string)
    returns (plan: Plan, conflicts: seq<ConflictRow>)
    requires WellFormed(s) && Valid(op)
    ensures plan == PlanFor(s, store, op, checksum)
    ensures conflicts == ConflictRows(plan)
  {
    var initial := DecideRecords(s, op.recordSteps);
    var records, assets := DecideAssets(store, op.assetSteps, initial, checksum);
    InitialApplicable(s, op);
    AssetPassesWeaken(store, op.assetSteps, initial, checksum);
    WeakenedApplicable(s, initial, records);
    records := AddReferenceConflicts(s, records);
    assets := SyncAssets(records, assets);
    plan := Plan(records, assets);
    conflicts := ConflictRows(plan);
  }

  method DecideRecords(s: State, steps: seq<RecordStep>) returns (records: seq<Decision>)
    ensures records == InitialDecisions(s, steps)
  {
    records := [];
    for n := 0 to |steps|
      invariant records == InitialDecisions(s, steps[..n])
    {
      assert steps[..n + 1][..n] == steps[..n];
      var step := steps[n];
      if step.settledAt.None? { records := records + [Decision(step, RecordOutcome(s, step))]; }
    }
    assert steps[..|steps|] == steps;
  }

  method DecideAssets(store: Store, steps: seq<AssetStep>, initial: seq<Decision>, checksum: Bytes -> string)
    returns (records: seq<Decision>, assets: seq<AssetDecision>)
    ensures Plan(records, assets) == AssetPasses(store, steps, initial, checksum)
  {
    records, assets := initial, [];
    for n := 0 to |steps|
      invariant Plan(records, assets) == AssetPasses(store, steps[..n], initial, checksum)
    {
      assert steps[..n + 1][..n] == steps[..n];
      var step := steps[n];
      if step.settledAt.None? {
        var d := Decide(store, step, records, checksum);
        var index := RecordOf(records, step.assetId);
        if d.outcome == Conflict(AssetBytesChanged) && index < |records| {
          records := records[index := records[index].(outcome := d.outcome)];
        }
        assets := assets + [d];
      }
    }
    assert steps[..|steps|] == steps;
  }

  method SyncAssets(records: seq<Decision>, decided: seq<AssetDecision>) returns (assets: seq<AssetDecision>)
    ensures assets == SyncAll(records, decided)
  {
    assets := decided;
    for n := 0 to |assets|
      invariant |assets| == |decided|
      invariant forall i :: 0 <= i < |decided| ==> assets[i] == if i < n then Sync(records, decided[i]) else decided[i]
    {
      var index := RecordOf(records, assets[n].step.assetId);
      if index < |records| && records[index].outcome.Conflict? && !assets[n].outcome.Conflict? {
        assets := assets[n := assets[n].(outcome := records[index].outcome)];
      }
    }
  }

  function RecordRows(ds: seq<Decision>): seq<ConflictRow> {
    if ds == [] then []
    else (if ds[0].outcome.Conflict? then [ConflictRow(ds[0].step.coll, ds[0].step.id, ds[0].outcome.reason)] else []) +
         RecordRows(ds[1..])
  }

  function AssetRows(ds: seq<AssetDecision>): seq<ConflictRow> {
    if ds == [] then []
    else (if ds[0].outcome.Conflict? then [ConflictRow("assetFiles", ds[0].step.assetId, ds[0].outcome.reason)]
      else []) +
         AssetRows(ds[1..])
  }

  function ConflictRows(p: Plan): seq<ConflictRow> { RecordRows(p.records) + AssetRows(p.assets) }

  // ----- An asset's record and its bytes -----

  ghost predicate Coupled(records: seq<Decision>, assets: seq<AssetDecision>) {
    forall i {:trigger assets[i]} :: 0 <= i < |assets| ==> CoupledWith(records, assets[i])
  }

  ghost predicate CoupledWith(records: seq<Decision>, d: AssetDecision) {
    var n := RecordOf(records, d.step.assetId);
    n < |records| ==> (records[n].outcome.Conflict? <==> d.outcome.Conflict?)
  }

  lemma {:induction false} RecordOfSteps(a: seq<Decision>, b: seq<Decision>, assetId: Id)
    requires |a| == |b| && forall i {:trigger a[i]} :: 0 <= i < |a| ==> a[i].step == b[i].step
    ensures RecordOf(a, assetId) == RecordOf(b, assetId)
  {
    if a != [] {
      assert a[0].step == b[0].step;
      RecordOfSteps(a[1..], b[1..], assetId);
    }
  }

  lemma {:induction false} AssetPassesSteps(store: Store, steps: seq<AssetStep>, records: seq<Decision>,
    checksum: Bytes -> string)
    ensures var p := AssetPasses(store, steps, records, checksum);
      forall d :: d in p.assets ==> d.step in steps && d.step.settledAt.None?
  {
    if steps != [] {
      AssetPassesSteps(store, steps[..|steps| - 1], records, checksum);
      assert steps == steps[..|steps| - 1] + [steps[|steps| - 1]];
    }
  }

  ghost predicate UniqueAssets(steps: seq<AssetStep>) {
    forall i, j {:trigger steps[i].assetId, steps[j].assetId} :: 0 <= i < j < |steps|
      ==> steps[i].assetId != steps[j].assetId
  }

  lemma {:induction false} AssetPassesCouple(store: Store, steps: seq<AssetStep>, records: seq<Decision>,
    checksum: Bytes -> string)
    requires UniqueAssets(steps)
    ensures var p := AssetPasses(store, steps, records, checksum); Coupled(p.records, p.assets)
  {
    if steps != [] {
      var q, step := steps[..|steps| - 1], steps[|steps| - 1];
      assert UniqueAssets(q) by {
        forall i, j | 0 <= i < j < |q| ensures q[i].assetId != q[j].assetId {
          assert steps[i].assetId != steps[j].assetId;
        }
      }
      AssetPassesCouple(store, q, records, checksum);
      AssetPassesSteps(store, q, records, checksum);
      if step.settledAt.None? {
        var p := AssetPasses(store, q, records, checksum);
        forall d | d in p.assets ensures d.step.assetId != step.assetId {
          var j :| 0 <= j < |q| && q[j] == d.step;
          assert steps[j].assetId != steps[|q|].assetId;
        }
        DecideCouples(store, step, p.records, p.assets, checksum);
      }
    }
  }

  lemma DecideCouples(store: Store, step: AssetStep, records: seq<Decision>, assets: seq<AssetDecision>,
    checksum: Bytes -> string)
    requires Coupled(records, assets)
    requires forall d :: d in assets ==> d.step.assetId != step.assetId
    ensures var d := Decide(store, step, records, checksum); Coupled(BlockRecord(records, d), assets + [d])
  {
    var d := Decide(store, step, records, checksum);
    var after := BlockRecord(records, d);
    RecordOfSteps(records, after, step.assetId);
    assert CoupledWith(after, d);
    forall i | 0 <= i < |assets| ensures CoupledWith(after, assets[i]) {
      assert CoupledWith(records, assets[i]);
      RecordOfSteps(records, after, assets[i].step.assetId);
    }
  }

  /** An asset's record and its bytes are planned to settle together or not at all. */
  lemma PlanCouples(s: State, store: Store, op: Operation, checksum: Bytes -> string)
    requires Valid(op)
    ensures var p := PlanFor(s, store, op, checksum); Coupled(p.records, p.assets)
  {
    var initial := AssetPasses(store, op.assetSteps, InitialDecisions(s, op.recordSteps), checksum);
    AssetPassesCouple(store, op.assetSteps, InitialDecisions(s, op.recordSteps), checksum);
    var p := PlanFor(s, store, op, checksum);
    forall i | 0 <= i < |p.assets| ensures CoupledWith(p.records, p.assets[i]) {
      assert CoupledWith(initial.records, initial.assets[i]);
      RecordOfSteps(initial.records, p.records, initial.assets[i].step.assetId);
    }
  }
}
