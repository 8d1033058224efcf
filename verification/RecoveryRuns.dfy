/** The state one rollback attempt produces, and the invariants of every run of attempts
    and user edits. */
module RecoveryRuns {
  import opened Json
  import opened RecoveryState
  import opened RecoveryReferences
  import opened RecoveryPlan
  import opened RecoverySettle
  import opened Revisions

  // ----- The state after an attempt -----

  function BumpOne(rs: seq<Record>, id: Id, now: int): seq<Record> {
    var n := IndexOf(rs, id);
    if n < |rs| then rs[n := rs[n].(updatedAt := NextRevision(rs[n].updatedAt, now))] else rs
  }

  function BumpAll(rs: seq<Record>, ids: seq<Id>, now: int): seq<Record> {
    if ids == [] then rs else BumpOne(BumpAll(rs, ids[..|ids| - 1], now), ids[|ids| - 1], now)
  }

  function AuditEntry(op: Operation, campaign: Value, auditId: Id, at: int): Record {
    Record(auditId, at, [Field("campaignId", campaign), Field("targetId", Text(op.id)),
                         Field("action", Text("campaign.archive_import.rollback"))])
  }

  /** One entry per campaign of the operation, or a single one when it has none. */
  function AuditCampaigns(op: Operation): (r: seq<Value>)
  {
    if op.campaignIds == [] then [Undefined]
      else seq(|op.campaignIds|, i requires 0 <= i < |op.campaignIds| => Text(op.campaignIds[i]))
  }

  function AuditEntries(op: Operation, campaigns: seq<Value>, auditIds: seq<Id>, at: int): (r: seq<Record>)
    requires |campaigns| <= |auditIds|
    ensures |r| == |campaigns|
    ensures forall i :: 0 <= i < |r| ==> r[i].id == auditIds[i]
  {
    if campaigns == [] then []
    else AuditEntries(op, campaigns[..|campaigns| - 1], auditIds, at)
         + [AuditEntry(op, campaigns[|campaigns| - 1], auditIds[|campaigns| - 1], at)]
  }

  function RollbackState(s: State, op: Operation, ds: seq<Decision>, at: int, now: int, auditIds: seq<Id>): State
    requires |AuditCampaigns(op)| <= |auditIds|
  {
    var t := WithDecisions(s, ds, PlannedDeletes(ds));
    var u := t["campaigns" := BumpAll(Records(t, "campaigns"), op.campaignIds, now)];
    u["auditLogs" := Records(u, "auditLogs") + AuditEntries(op, AuditCampaigns(op), auditIds, at)]
  }

  method StateForRollback(s: State, op: Operation, plan: Plan, conflicts: seq<ConflictRow>, at: int, now: int,
    auditIds: seq<Id>)
    returns (next: State, nextOp: Operation)
    requires |AuditCampaigns(op)| <= |auditIds| && conflicts == ConflictRows(plan)
    ensures next == RollbackState(s, op, plan.records, at, now, auditIds)
    ensures nextOp == Settle(op, plan, at)
  {
    next := ApplyRecords(s, plan.records);
    nextOp := op.(recordSteps := SettleRecords(op.recordSteps, SettledKeys(plan.records), at),
                  assetSteps := SettleAssets(op.assetSteps, SettledAssets(plan.assets), at));
    var remaining := Remaining(nextOp);
    nextOp := nextOp.(status := if remaining then PartiallyRolledBack else RolledBack,
                      lastRollbackAt := Some(at), lastConflicts := conflicts,
                      rolledBackAt := if remaining then None else Some(at), updatedAt := at);
    var campaigns := BumpCampaigns(Records(next, "campaigns"), op.campaignIds, now);
    next := next["campaigns" := campaigns];
    var audits := AuditRows(op, auditIds, at);
    next := next["auditLogs" := Records(next, "auditLogs") + audits];
  }

  method BumpCampaigns(rs: seq<Record>, ids: seq<Id>, now: int) returns (campaigns: seq<Record>)
    ensures campaigns == BumpAll(rs, ids, now)
  {
    campaigns := rs;
    for n := 0 to |ids|
      invariant campaigns == BumpAll(rs, ids[..n], now)
    {
      assert ids[..n + 1][..n] == ids[..n];
      var index := IndexOf(campaigns, ids[n]);
      if index < |campaigns| {
        campaigns := campaigns[index := campaigns[index].(updatedAt := NextRevision(campaigns[index].updatedAt, now))];
      }
    }
    assert ids[..|ids|] == ids;
  }

  method AuditRows(op: Operation, auditIds: seq<Id>, at: int) returns (audits: seq<Record>)
    requires |AuditCampaigns(op)| <= |auditIds|
    ensures audits == AuditEntries(op, AuditCampaigns(op), auditIds, at)
  {
    audits := [];
    var rows := AuditCampaigns(op);
    for n := 0 to |rows|
      invariant audits == AuditEntries(op, rows[..n], auditIds, at)
    {
      assert rows[..n + 1][..n] == rows[..n];
      audits := audits + [AuditEntry(op, rows[n], auditIds[n], at)];
    }
    assert rows[..|rows|] == rows;
  }

  method ApplyRecords(s: State, ds: seq<Decision>) returns (next: State)
    ensures next == WithDecisions(s, ds, PlannedDeletes(ds))
  {
    next := s;
    for n := 0 to |ds|
      invariant next == WithDecisions(s, ds[..n], PlannedDeletes(ds))
    {
      assert ds[..n + 1][..n] == ds[..n];
      var d := ds[n];
      if !d.outcome.Apply? { continue; }
      var collection := Records(next, d.step.coll);
      var index := IndexOf(collection, d.step.id);
      match d.step.inverse {
        case Delete =>
          assert ds[n].PlansDelete();
          if index < |collection| { collection := collection[..index] + collection[index + 1..]; }
        case Restore(before) =>
          collection := if index < |collection| then collection[index := before] else collection + [before];
      }
      next := next[d.step.coll := collection];
    }
    assert ds[..|ds|] == ds;
  }

  // ----- What an attempt does to each record -----

  lemma FindRewritten(rs: seq<Record>, c: Coll, e: Effect, id: Id)
    requires UniqueIds(rs) && EffectKeepsIds(e)
    ensures Find(Rewrite(rs, c, e), id) == if (c, id) in e && Find(rs, id).Some? then e[(c, id)] else Find(rs, id)
  {
    var out, was := Rewrite(rs, c, e), Find(rs, id);
    RewriteUnique(rs, c, e);
    var want := if (c, id) in e && was.Some? then e[(c, id)] else was;
    if want.Some? {
      RewriteMember(rs, c, e, want.value);
      FindUnique(out, want.value);
    } else {
      forall r | r in out ensures r.id != id {
        RewriteMember(rs, c, e, r);
        var x :| x in rs && if (c, x.id) in e then e[(c, x.id)] == Some(r) else x == r;
        FindUnique(rs, x);
      }
    }
  }

  lemma {:induction false} FindBumped(rs: seq<Record>, ids: seq<Id>, now: int, id: Id)
    ensures SameRecord("campaigns", Find(BumpAll(rs, ids, now), id), Find(rs, id))
    ensures id !in ids ==> Find(BumpAll(rs, ids, now), id) == Find(rs, id)
  {
    if ids != [] {
      var before, k := BumpAll(rs, ids[..|ids| - 1], now), ids[|ids| - 1];
      FindBumped(rs, ids[..|ids| - 1], now, id);
      var after := BumpOne(before, k, now);
      assert forall i :: 0 <= i < |before| ==> after[i].id == before[i].id;
      var m, n := IndexOf(before, id), IndexOf(after, id);
      assert m == n;
    }
  }

  lemma FindPushed(rs: seq<Record>, more: seq<Record>, id: Id)
    requires forall r :: r in more ==> r.id != id
    ensures Find(rs + more, id) == Find(rs, id)
  {
    var m := IndexOf(rs, id);
    if m < |rs| {
      assert (rs + more)[m] == rs[m];
      assert forall i :: 0 <= i < m ==> (rs + more)[i] == rs[i];
    }
  }

  /** The decision, if any, that this attempt applies to a record. */
  ghost predicate AppliedTo(ds: seq<Decision>, k: Key, d: Decision) {
    d in ds && d.step.Key() == k && d.outcome.Apply?
  }

  lemma DecisionsChangeOnly(s: State, ds: seq<Decision>, k: Key)
    requires WellFormed(s) && UniqueKeys(ds) && Applicable(s, ds)
    ensures var after := Find(Records(WithDecisions(s, ds, PlannedDeletes(ds)), k.0), k.1);
      && (forall d :: AppliedTo(ds, k, d) ==>
        after == if d.step.inverse.Delete? then None else Some(d.step.inverse.before))
      && ((forall d :: !AppliedTo(ds, k, d)) ==> after == Find(Records(s, k.0), k.1))
  {
    var deletes := PlannedDeletes(ds);
    var e := Effects(ds, deletes);
    SequentialIsSimultaneous(s, ds, deletes);
    if k.0 in s { FindRewritten(s[k.0], k.0, e, k.1); }
    forall d | AppliedTo(ds, k, d)
      ensures k.0 in s && Find(s[k.0], k.1).Some? && k in e
        && e[k] == if d.step.inverse.Delete? then None else Some(d.step.inverse.before)
    {
      var i :| 0 <= i < |ds| && ds[i] == d;
      assert AppliesTo(s, ds[i]);
      assert ds[i].PlansDelete() ==> k in deletes;
      EffectsAt(ds, deletes, i);
    }
    if k in e {
      EffectsOnly(ds, deletes, k);
      var i :| 0 <= i < |ds| && ds[i].step.Key() == k && k in EffectOf(ds[i], deletes);
      assert AppliedTo(ds, k, ds[i]);
    }
  }

  /** An attempt deletes or puts back exactly the records it decided to, and leaves every
      other record as it was; only campaign revisions move besides. */
  lemma AttemptChangesOnly(s: State, op: Operation, ds: seq<Decision>, at: int, now: int, auditIds: seq<Id>, k: Key)
    requires |AuditCampaigns(op)| <= |auditIds|
    requires WellFormed(s) && UniqueKeys(ds) && Applicable(s, ds)
    requires k.0 == "auditLogs" ==> k.1 !in auditIds
    ensures var after := Find(Records(RollbackState(s, op, ds, at, now, auditIds), k.0), k.1);
      && (forall d :: AppliedTo(ds, k, d) ==>
            SameRecord(k.0, after, if d.step.inverse.Delete? then None else Some(d.step.inverse.before)))
      && ((forall d :: !AppliedTo(ds, k, d)) ==> SameRecord(k.0, after, Find(Records(s, k.0), k.1)))
      && (k.0 != "campaigns" ==>
            && (forall d :: AppliedTo(ds, k, d) ==>
              after == if d.step.inverse.Delete? then None else Some(d.step.inverse.before))
            && ((forall d :: !AppliedTo(ds, k, d)) ==> after == Find(Records(s, k.0), k.1)))
  {
    DecisionsChangeOnly(s, ds, k);
    ThenOnlyRevisions(WithDecisions(s, ds, PlannedDeletes(ds)), op, at, now, auditIds, k);
  }

  lemma CampaignsRevised(t: State, ids: seq<Id>, now: int, k: Key)
    ensures SameRecord(k.0, Find(Records(t["campaigns" := BumpAll(Records(t, "campaigns"), ids, now)], k.0), k.1),
      Find(Records(t, k.0), k.1))
  {
    if k.0 == "campaigns" { FindBumped(Records(t, "campaigns"), ids, now, k.1); }
  }

  lemma AuditPushed(u: State, op: Operation, at: int, auditIds: seq<Id>, k: Key)
    requires |AuditCampaigns(op)| <= |auditIds| && (k.0 == "auditLogs" ==> k.1 !in auditIds)
    ensures var v := u["auditLogs" := Records(u, "auditLogs") + AuditEntries(op, AuditCampaigns(op), auditIds, at)];
      Find(Records(v, k.0), k.1) == Find(Records(u, k.0), k.1)
  {
    if k.0 == "auditLogs" {
      var audits := AuditEntries(op, AuditCampaigns(op), auditIds, at);
      forall r | r in audits ensures r.id != k.1 { var i :| 0 <= i < |audits| && audits[i] == r; }
      FindPushed(Records(u, "auditLogs"), audits, k.1);
    }
  }

  lemma ThenOnlyRevisions(t: State, op: Operation, at: int, now: int, auditIds: seq<Id>, k: Key)
    requires |AuditCampaigns(op)| <= |auditIds|
    requires k.0 == "auditLogs" ==> k.1 !in auditIds
    ensures var u := t["campaigns" := BumpAll(Records(t, "campaigns"), op.campaignIds, now)];
      var v := u["auditLogs" := Records(u, "auditLogs") + AuditEntries(op, AuditCampaigns(op), auditIds, at)];
      && SameRecord(k.0, Find(Records(v, k.0), k.1), Find(Records(t, k.0), k.1))
      && (k.0 != "campaigns" ==> Find(Records(v, k.0), k.1) == Find(Records(t, k.0), k.1))
  {
    CampaignsRevised(t, op.campaignIds, now, k);
    AuditPushed(t["campaigns" := BumpAll(Records(t, "campaigns"), op.campaignIds, now)], op, at, auditIds, k);
  }

  /** What an attempt makes of a collection other than the audit log. */
  lemma RollbackStateAt(s: State, op: Operation, ds: seq<Decision>, at: int, now: int, auditIds: seq<Id>, c: Coll)
    requires |AuditCampaigns(op)| <= |auditIds| && c != "auditLogs"
    ensures var rs := Records(WithDecisions(s, ds, PlannedDeletes(ds)), c);
      Records(RollbackState(s, op, ds, at, now, auditIds), c) == if c == "campaigns" then
        BumpAll(rs, op.campaignIds, now) else rs
  {}

  /** A later attempt does not touch the record of a step that is already settled. */
  lemma SettledRecordLeft(s: State, store: Store, op: Operation, checksum: Bytes -> string, at: int, now: int,
    auditIds: seq<Id>, i: nat)
    requires WellFormed(s) && Valid(op) && |AuditCampaigns(op)| <= |auditIds|
    requires i < |op.recordSteps| && op.recordSteps[i].settledAt.Some?
    requires op.recordSteps[i].coll == "auditLogs" ==> op.recordSteps[i].id !in auditIds
    ensures var t, p := op.recordSteps[i], PlanFor(s, store, op, checksum);
      var after := Records(RollbackState(s, op, p.records, at, now, auditIds), t.coll);
      && SameRecord(t.coll, Find(after, t.id), Find(Records(s, t.coll), t.id))
      && (t.coll != "campaigns" ==> Find(after, t.id) == Find(Records(s, t.coll), t.id))
  {
    var t, p := op.recordSteps[i], PlanFor(s, store, op, checksum);
    PlanDecidesRecords(s, store, op, checksum);
    forall d ensures !AppliedTo(p.records, t.Key(), d) {
      if d in p.records {
        var m :| 0 <= m < |op.recordSteps| && op.recordSteps[m] == d.step;
        assert m != i;
        assert op.recordSteps[m].Key() != op.recordSteps[i].Key();
      }
    }
    AttemptChangesOnly(s, op, p.records, at, now, auditIds, t.Key());
  }

  // ----- Runs -----

  /** What an attempt finds: any state and store, as users and other requests left them. */
  datatype Attempt = Attempt(state: State, store: Store, at: int)

  ghost function Run(op: Operation, attempts: seq<Attempt>, checksum: Bytes -> string): Operation {
    if attempts == [] then op
    else
      var before, a := Run(op, attempts[..|attempts| - 1], checksum), attempts[|attempts| - 1];
      Settle(before, PlanFor(a.state, a.store, before, checksum), a.at)
  }

  /** The record step and the byte step of one asset are settled by the same attempt. */
  ghost predicate StepsCoupled(op: Operation) {
    forall i, j {:trigger op.recordSteps[i].Key(), op.assetSteps[j].assetId} ::
      0 <= i < |op.recordSteps| && 0 <= j < |op.assetSteps|
        && op.recordSteps[i].Key() == ("assets", op.assetSteps[j].assetId)
      ==> op.recordSteps[i].settledAt == op.assetSteps[j].settledAt
  }

  lemma SettleKeepsValid(op: Operation, p: Plan, at: int)
    requires Valid(op)
    ensures Valid(Settle(op, p, at))
  {
    var next := Settle(op, p, at);
    forall i, j | 0 <= i < j < |next.recordSteps| ensures next.recordSteps[i].Key() != next.recordSteps[j].Key() {
      assert op.recordSteps[i].Key() != op.recordSteps[j].Key();
    }
    forall i, j | 0 <= i < j < |next.assetSteps| ensures next.assetSteps[i].assetId != next.assetSteps[j].assetId {
      assert op.assetSteps[i].assetId != op.assetSteps[j].assetId;
    }
    forall i | 0 <= i < |next.recordSteps| ensures StepIds(next.recordSteps[i]) { assert StepIds(op.recordSteps[i]); }
  }

  lemma SettleKeepsCoupling(s: State, store: Store, op: Operation, checksum: Bytes -> string, at: int)
    requires Valid(op) && StepsCoupled(op)
    ensures StepsCoupled(Settle(op, PlanFor(s, store, op, checksum), at))
  {
    PlanDecidesRecords(s, store, op, checksum);
    PlanDecidesAssets(s, store, op, checksum);
    PlanCouples(s, store, op, checksum);
    SettleCouples(op, PlanFor(s, store, op, checksum), at);
  }

  lemma SettleCouples(op: Operation, p: Plan, at: int)
    requires Valid(op) && StepsCoupled(op) && Coupled(p.records, p.assets)
    requires DecidesRecords(op.recordSteps, p.records) && DecidesAssets(op.assetSteps, p.assets)
    ensures StepsCoupled(Settle(op, p, at))
  {
    var next := Settle(op, p, at);
    forall i, j | 0 <= i < |next.recordSteps| && 0 <= j < |next.assetSteps|
                  && next.recordSteps[i].Key() == ("assets", next.assetSteps[j].assetId)
      ensures next.recordSteps[i].settledAt == next.assetSteps[j].settledAt
    {
      PairSettles(op, p, at, i, j);
    }
  }

  lemma PairSettles(op: Operation, p: Plan, at: int, i: nat, j: nat)
    requires Valid(op) && Coupled(p.records, p.assets)
    requires DecidesRecords(op.recordSteps, p.records) && DecidesAssets(op.assetSteps, p.assets)
    requires i < |op.recordSteps| && j < |op.assetSteps|
      && op.recordSteps[i].Key() == ("assets", op.assetSteps[j].assetId)
    requires op.recordSteps[i].settledAt == op.assetSteps[j].settledAt
    ensures Settle(op, p, at).recordSteps[i].settledAt == Settle(op, p, at).assetSteps[j].settledAt
  {
    if op.recordSteps[i].settledAt.None? { OpenPairSettles(op, p, at, i, j); } else {
      SettledPairStays(op, p, at, i, j);
    }
  }

  lemma SettledPairStays(op: Operation, p: Plan, at: int, i: nat, j: nat)
    requires Valid(op) && DecidesRecords(op.recordSteps, p.records) && DecidesAssets(op.assetSteps, p.assets)
    requires i < |op.recordSteps| && j < |op.assetSteps| && op.recordSteps[i].settledAt == op.assetSteps[j].settledAt
    requires op.recordSteps[i].settledAt.Some?
    ensures Settle(op, p, at).recordSteps[i].settledAt == Settle(op, p, at).assetSteps[j].settledAt
  {
    SettlesRecord(op, p, at, i);
    SettlesAsset(op, p, at, j);
  }

  lemma OpenPairSettles(op: Operation, p: Plan, at: int, i: nat, j: nat)
    requires Valid(op) && Coupled(p.records, p.assets)
    requires DecidesRecords(op.recordSteps, p.records) && DecidesAssets(op.assetSteps, p.assets)
    requires i < |op.recordSteps| && j < |op.assetSteps|
    requires op.recordSteps[i].Key() == ("assets", op.assetSteps[j].assetId)
    requires op.recordSteps[i].settledAt.None? && op.assetSteps[j].settledAt.None?
    ensures Settle(op, p, at).recordSteps[i].settledAt == Settle(op, p, at).assetSteps[j].settledAt
  {
    var d :| d in p.records && d.step == op.recordSteps[i];
    var a :| a in p.assets && a.step == op.assetSteps[j];
    RecordSettledBy(op, p, at, i, d);
    AssetSettledBy(op, p, at, j, a);
    CoupledOutcomes(p.records, p.assets, d, a);
  }

  /** The decisions on an asset's record and on its bytes conflict together. */
  lemma CoupledOutcomes(ds: seq<Decision>, bs: seq<AssetDecision>, d: Decision, a: AssetDecision)
    requires Coupled(ds, bs) && UniqueKeys(ds) && d in ds && a in bs && d.step.Key() == ("assets", a.step.assetId)
    ensures d.outcome.Conflict? <==> a.outcome.Conflict?
  {
    RecordOfAt(ds, d, a.step.assetId);
    var n :| 0 <= n < |bs| && bs[n] == a;
    assert CoupledWith(ds, bs[n]);
  }

  lemma RecordOfAt(ds: seq<Decision>, d: Decision, assetId: Id)
    requires UniqueKeys(ds) && d in ds && d.step.Key() == ("assets", assetId)
    ensures RecordOf(ds, assetId) < |ds| && ds[RecordOf(ds, assetId)] == d
  {
    var m :| 0 <= m < |ds| && ds[m] == d;
    var n := RecordOf(ds, assetId);
    assert n <= m;
    assert ds[n].step.Key() == ds[m].step.Key();
  }

  /** Over every run: a settled step is never reopened or stamped again, an asset's record
      and bytes settle together, and the operation is rolled back exactly when the last
      attempt met no conflict. */
  lemma {:induction false} RunKeeps(op: Operation, attempts: seq<Attempt>, checksum: Bytes -> string)
    requires Valid(op) && StepsCoupled(op)
    ensures var end := Run(op, attempts, checksum);
      && Valid(end) && StepsCoupled(end)
      && |end.recordSteps| == |op.recordSteps| && |end.assetSteps| == |op.assetSteps|
      && (forall i :: 0 <= i < |op.recordSteps| && op.recordSteps[i].settledAt.Some? ==>
        end.recordSteps[i] == op.recordSteps[i])
      && (forall j :: 0 <= j < |op.assetSteps| && op.assetSteps[j].settledAt.Some? ==>
        end.assetSteps[j] == op.assetSteps[j])
      && (attempts != []
        ==> (end.status == RolledBack <==> end.lastConflicts == []) && (end.status == RolledBack <==> !Remaining(end)))
  {
    if attempts != [] {
      var before, a := Run(op, attempts[..|attempts| - 1], checksum), attempts[|attempts| - 1];
      RunKeeps(op, attempts[..|attempts| - 1], checksum);
      var p := PlanFor(a.state, a.store, before, checksum);
      SettleKeepsValid(before, p, a.at);
      SettleKeepsCoupling(a.state, a.store, before, checksum, a.at);
      PlanDecidesRecords(a.state, a.store, before, checksum);
      PlanDecidesAssets(a.state, a.store, before, checksum);
      RemainingIffConflicts(before, p, a.at);
      forall i | 0 <= i < |before.recordSteps| && before.recordSteps[i].settledAt.Some?
        ensures Settle(before, p, a.at).recordSteps[i] == before.recordSteps[i]
      {
        SettlesRecord(before, p, a.at, i);
      }
      forall j | 0 <= j < |before.assetSteps| && before.assetSteps[j].settledAt.Some?
        ensures Settle(before, p, a.at).assetSteps[j] == before.assetSteps[j]
      {
        SettlesAsset(before, p, a.at, j);
      }
    }
  }
}
