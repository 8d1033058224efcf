/** Settling the steps of one attempt: which of them it closes, and the operation's status. */
module RecoverySettle {
  import opened Json
  import opened RecoveryState
  import opened RecoveryReferences
  import opened RecoveryPlan

  // ----- What a plan contains -----

  /** The decisions cover every open step once and no settled step. */
  ghost predicate DecidesRecords(steps: seq<RecordStep>, ds: seq<Decision>) {
    && UniqueKeys(ds)
    && (forall d :: d in ds ==> d.step in steps && d.step.settledAt.None?)
    && (forall t :: t in steps && t.settledAt.None? ==> exists d :: d in ds && d.step == t)
  }

  ghost predicate DecidesAssets(steps: seq<AssetStep>, ds: seq<AssetDecision>) {
    && UniqueDecisions(ds)
    && (forall d :: d in ds ==> d.step in steps && d.step.settledAt.None?)
    && (forall t :: t in steps && t.settledAt.None? ==> exists d :: d in ds && d.step == t)
  }

  lemma PlanDecidesRecords(s: State, store: Store, op: Operation, checksum: Bytes -> string)
    requires Valid(op)
    ensures DecidesRecords(op.recordSteps, PlanFor(s, store, op, checksum).records)
    ensures Applicable(s, PlanFor(s, store, op, checksum).records)
  {
    var first := InitialDecisions(s, op.recordSteps);
    var last := PlanFor(s, store, op, checksum).records;
    InitialApplicable(s, op);
    AssetPassesWeaken(store, op.assetSteps, first, checksum);
    assert Weakened(first, last);
    WeakenedApplicable(s, first, last);
    forall d | d in last ensures d.step in op.recordSteps && d.step.settledAt.None? {
      var i :| 0 <= i < |last| && last[i] == d;
      InitialMember(s, op.recordSteps, first[i]);
    }
    forall t | t in op.recordSteps && t.settledAt.None? ensures exists d :: d in last && d.step == t {
      InitialMember(s, op.recordSteps, Decision(t, RecordOutcome(s, t)));
      var i :| 0 <= i < |first| && first[i] == Decision(t, RecordOutcome(s, t));
      assert last[i] in last && last[i].step == t;
    }
  }

  lemma PlanDecidesAssets(s: State, store: Store, op: Operation, checksum: Bytes -> string)
    requires Valid(op)
    ensures DecidesAssets(op.assetSteps, PlanFor(s, store, op, checksum).assets)
  {
    var first := InitialDecisions(s, op.recordSteps);
    var mid := AssetPasses(store, op.assetSteps, first, checksum).assets;
    var last := PlanFor(s, store, op, checksum).assets;
    assert forall i :: 0 <= i < |mid| ==> last[i].step == mid[i].step;
    AssetPassesUnique(store, op.assetSteps, first, checksum);
    AssetPassesSteps(store, op.assetSteps, first, checksum);
    forall i, j | 0 <= i < j < |last| ensures last[i].step.assetId != last[j].step.assetId {
      assert mid[i].step.assetId != mid[j].step.assetId;
    }
    forall d | d in last ensures d.step in op.assetSteps && d.step.settledAt.None? {
      var i :| 0 <= i < |last| && last[i] == d;
      assert mid[i] in mid;
    }
    forall t | t in op.assetSteps && t.settledAt.None? ensures exists d :: d in last && d.step == t {
      AssetPassesCover(store, op.assetSteps, first, checksum, t);
      var d :| d in mid && d.step == t;
      var i :| 0 <= i < |mid| && mid[i] == d;
      assert last[i] in last && last[i].step == t;
    }
  }

  ghost predicate UniqueDecisions(ds: seq<AssetDecision>) {
    forall i, j {:trigger ds[i].step.assetId, ds[j].step.assetId} ::
      0 <= i < j < |ds| ==> ds[i].step.assetId != ds[j].step.assetId
  }

  lemma {:induction false} AssetPassesUnique(store: Store, steps: seq<AssetStep>, records: seq<Decision>,
    checksum: Bytes -> string)
    requires UniqueAssets(steps)
    ensures UniqueDecisions(AssetPasses(store, steps, records, checksum).assets)
  {
    if steps != [] {
      var q, step := steps[..|steps| - 1], steps[|steps| - 1];
      assert UniqueAssets(q) by {
        forall i, j | 0 <= i < j < |q| ensures q[i].assetId != q[j].assetId {
          assert steps[i].assetId != steps[j].assetId;
        }
      }
      AssetPassesUnique(store, q, records, checksum);
      AssetPassesSteps(store, q, records, checksum);
      var ds := AssetPasses(store, q, records, checksum).assets;
      forall i | 0 <= i < |ds| ensures ds[i].step.assetId != step.assetId {
        assert ds[i] in ds;
        var j :| 0 <= j < |q| && q[j] == ds[i].step;
        assert steps[j].assetId != steps[|q|].assetId;
      }
    }
  }

  lemma {:induction false} AssetPassesCover(store: Store, steps: seq<AssetStep>, records: seq<Decision>,
    checksum: Bytes -> string, t: AssetStep)
    requires t in steps && t.settledAt.None?
    ensures exists d :: d in AssetPasses(store, steps, records, checksum).assets && d.step == t
  {
    var q, last := steps[..|steps| - 1], steps[|steps| - 1];
    var ds := AssetPasses(store, steps, records, checksum).assets;
    if last == t {
      assert ds[|ds| - 1] in ds && ds[|ds| - 1].step == t;
    } else {
      assert steps == q + [last];
      AssetPassesCover(store, q, records, checksum, t);
      var d :| d in AssetPasses(store, q, records, checksum).assets && d.step == t;
      assert d in ds;
    }
  }

  lemma {:induction false} RecordRowsEmpty(ds: seq<Decision>)
    ensures RecordRows(ds) == [] <==> forall d :: d in ds ==> !d.outcome.Conflict?
  {
    if ds != [] { RecordRowsEmpty(ds[1..]); assert ds == [ds[0]] + ds[1..]; }
  }

  lemma {:induction false} AssetRowsEmpty(ds: seq<AssetDecision>)
    ensures AssetRows(ds) == [] <==> forall d :: d in ds ==> !d.outcome.Conflict?
  {
    if ds != [] { AssetRowsEmpty(ds[1..]); assert ds == [ds[0]] + ds[1..]; }
  }

  // ----- Settling -----

  function SettledKeys(ds: seq<Decision>): set<Key> {
    set i | 0 <= i < |ds| && !ds[i].outcome.Conflict? :: ds[i].step.Key()
  }

  function SettledAssets(ds: seq<AssetDecision>): set<Id> {
    set i | 0 <= i < |ds| && !ds[i].outcome.Conflict? :: ds[i].step.assetId
  }

  function SettleRecord(step: RecordStep, keys: set<Key>, at: int): RecordStep {
    if step.Key() in keys then step.(settledAt := Some(at)) else step
  }

  function SettleAsset(step: AssetStep, ids: set<Id>, at: int): AssetStep {
    if step.assetId in ids then step.(settledAt := Some(at)) else step
  }

  function SettleRecords(steps: seq<RecordStep>, keys: set<Key>, at: int): (r: seq<RecordStep>)
    ensures |r| == |steps| && forall i :: 0 <= i < |steps| ==> r[i] == SettleRecord(steps[i], keys, at)
  {
    if steps == [] then [] else [SettleRecord(steps[0], keys, at)] + SettleRecords(steps[1..], keys, at)
  }

  function SettleAssets(steps: seq<AssetStep>, ids: set<Id>, at: int): (r: seq<AssetStep>)
    ensures |r| == |steps| && forall i :: 0 <= i < |steps| ==> r[i] == SettleAsset(steps[i], ids, at)
  {
    if steps == [] then [] else [SettleAsset(steps[0], ids, at)] + SettleAssets(steps[1..], ids, at)
  }

  predicate OpenRecord(steps: seq<RecordStep>) { exists i :: 0 <= i < |steps| && steps[i].settledAt.None? }

  predicate OpenAsset(steps: seq<AssetStep>) { exists i :: 0 <= i < |steps| && steps[i].settledAt.None? }

  predicate Remaining(op: Operation) { OpenRecord(op.recordSteps) || OpenAsset(op.assetSteps) }

  function Settle(op: Operation, p: Plan, at: int): Operation {
    var next := op.(recordSteps := SettleRecords(op.recordSteps, SettledKeys(p.records), at),
                    assetSteps := SettleAssets(op.assetSteps, SettledAssets(p.assets), at));
    next.(status := if Remaining(next) then PartiallyRolledBack else RolledBack,
          lastRollbackAt := Some(at), lastConflicts := ConflictRows(p),
          rolledBackAt := if Remaining(next) then None else Some(at), updatedAt := at)
  }

  lemma SettlesRecord(op: Operation, p: Plan, at: int, i: nat)
    requires Valid(op) && DecidesRecords(op.recordSteps, p.records) && i < |op.recordSteps|
    ensures op.recordSteps[i].settledAt.Some? ==> Settle(op, p, at).recordSteps[i] == op.recordSteps[i]
    ensures forall d :: d in p.records && d.step == op.recordSteps[i] ==>
      Settle(op, p, at).recordSteps[i]
        == (if d.outcome.Conflict? then op.recordSteps[i] else op.recordSteps[i].(settledAt := Some(at)))
  {
    var t := op.recordSteps[i];
    if t.settledAt.Some? {
      forall d | d in p.records ensures d.step.Key() != t.Key() {
        var m :| 0 <= m < |op.recordSteps| && op.recordSteps[m] == d.step;
        assert m != i;
        assert op.recordSteps[m].Key() != op.recordSteps[i].Key();
      }
    }
    forall d | d in p.records && d.step == t
      ensures t.Key() in SettledKeys(p.records) <==> !d.outcome.Conflict?
    {
      var n :| 0 <= n < |p.records| && p.records[n] == d;
      forall j | 0 <= j < |p.records| && p.records[j].step.Key() == t.Key() ensures j == n {
        assert p.records[j].step.Key() == p.records[n].step.Key();
      }
    }
  }

  lemma SettlesAsset(op: Operation, p: Plan, at: int, i: nat)
    requires Valid(op) && DecidesAssets(op.assetSteps, p.assets) && i < |op.assetSteps|
    ensures op.assetSteps[i].settledAt.Some? ==> Settle(op, p, at).assetSteps[i] == op.assetSteps[i]
    ensures forall d :: d in p.assets && d.step == op.assetSteps[i] ==>
      Settle(op, p, at).assetSteps[i]
        == (if d.outcome.Conflict? then op.assetSteps[i] else op.assetSteps[i].(settledAt := Some(at)))
  {
    var t := op.assetSteps[i];
    if t.settledAt.Some? {
      forall d | d in p.assets ensures d.step.assetId != t.assetId {
        var m :| 0 <= m < |op.assetSteps| && op.assetSteps[m] == d.step;
        assert m != i;
        assert op.assetSteps[m].assetId != op.assetSteps[i].assetId;
      }
    }
    forall d | d in p.assets && d.step == t
      ensures t.assetId in SettledAssets(p.assets) <==> !d.outcome.Conflict?
    {
      var n :| 0 <= n < |p.assets| && p.assets[n] == d;
      forall j | 0 <= j < |p.assets| && p.assets[j].step.assetId == t.assetId ensures j == n {
        assert p.assets[j].step.assetId == p.assets[n].step.assetId;
      }
    }
  }

  lemma RecordSettledBy(op: Operation, p: Plan, at: int, i: nat, d: Decision)
    requires Valid(op) && DecidesRecords(op.recordSteps, p.records) && i < |op.recordSteps| && d in p.records
      && d.step == op.recordSteps[i]
    ensures Settle(op, p, at).recordSteps[i] == if d.outcome.Conflict? then op.recordSteps[i]
      else op.recordSteps[i].(settledAt := Some(at))
  {
    SettlesRecord(op, p, at, i);
  }

  lemma AssetSettledBy(op: Operation, p: Plan, at: int, i: nat, d: AssetDecision)
    requires Valid(op) && DecidesAssets(op.assetSteps, p.assets) && i < |op.assetSteps| && d in p.assets
      && d.step == op.assetSteps[i]
    ensures Settle(op, p, at).assetSteps[i] == if d.outcome.Conflict? then op.assetSteps[i]
      else op.assetSteps[i].(settledAt := Some(at))
  {
    SettlesAsset(op, p, at, i);
  }

  lemma RecordsRemainIff(op: Operation, p: Plan, at: int)
    requires Valid(op) && DecidesRecords(op.recordSteps, p.records)
    ensures OpenRecord(Settle(op, p, at).recordSteps) <==> exists d <- p.records :: d.outcome.Conflict?
  {
    var next := Settle(op, p, at).recordSteps;
    forall i | 0 <= i < |next| && next[i].settledAt.None? ensures exists d <- p.records :: d.outcome.Conflict? {
      SettlesRecord(op, p, at, i);
      var d :| d in p.records && d.step == op.recordSteps[i];
      RecordSettledBy(op, p, at, i, d);
    }
    if d :| d in p.records && d.outcome.Conflict? {
      var i :| 0 <= i < |op.recordSteps| && op.recordSteps[i] == d.step;
      RecordSettledBy(op, p, at, i, d);
      assert next[i].settledAt.None?;
    }
  }

  lemma AssetsRemainIff(op: Operation, p: Plan, at: int)
    requires Valid(op) && DecidesAssets(op.assetSteps, p.assets)
    ensures OpenAsset(Settle(op, p, at).assetSteps) <==> exists d <- p.assets :: d.outcome.Conflict?
  {
    var next := Settle(op, p, at).assetSteps;
    forall i | 0 <= i < |next| && next[i].settledAt.None? ensures exists d <- p.assets :: d.outcome.Conflict? {
      SettlesAsset(op, p, at, i);
      var d :| d in p.assets && d.step == op.assetSteps[i];
      AssetSettledBy(op, p, at, i, d);
    }
    if d :| d in p.assets && d.outcome.Conflict? {
      var i :| 0 <= i < |op.assetSteps| && op.assetSteps[i] == d.step;
      AssetSettledBy(op, p, at, i, d);
      assert next[i].settledAt.None?;
    }
  }

  /** Nothing remains open exactly when the attempt reported no conflict. */
  lemma RemainingIffConflicts(op: Operation, p: Plan, at: int)
    requires Valid(op) && DecidesRecords(op.recordSteps, p.records) && DecidesAssets(op.assetSteps, p.assets)
    ensures Remaining(Settle(op, p, at)) <==> ConflictRows(p) != []
    ensures Settle(op, p, at).status == RolledBack <==> Settle(op, p, at).lastConflicts == []
  {
    RecordRowsEmpty(p.records);
    AssetRowsEmpty(p.assets);
    RecordsRemainIff(op, p, at);
    AssetsRemainIff(op, p, at);
  }
}
