/** What a rollback does to records and bytes that users changed after the import, and to those
    that are already back. */
module RecoveryEdits {
  import opened Json
  import opened RecoveryState
  import opened RecoveryReferences
  import opened RecoveryPlan
  import opened RecoverySettle
  import opened RecoveryRuns
  import opened RecoveryExecute
  import opened StablePrinterMeaning

  // ----- How a step finds its record and its bytes -----

  function Current(s: State, t: RecordStep): Option<Record> { Find(Records(s, t.coll), t.id) }

  /** The record is already gone, or already what it was before the import. */
  ghost predicate AlreadyBack(s: State, t: RecordStep) {
    match t.inverse
    case Delete => Current(s, t).None?
    case Restore(before) => SameRecord(t.coll, Current(s, t), Some(before))
  }

  /** The record is neither what the import left nor what the step would make of it. */
  ghost predicate Edited(s: State, t: RecordStep) {
    !AlreadyBack(s, t) && !SameRecord(t.coll, Current(s, t), Some(t.after))
  }

  ghost predicate BytesBack(store: Store, a: AssetStep, checksum: Bytes -> string) {
    if a.inverse.None? then a.target !in store
    else
      && a.inverse.value in store && a.target in store
      && checksum(store[a.target]) == checksum(store[a.inverse.value])
  }

  /** The target holds neither the imported bytes nor those to be put back. */
  ghost predicate BytesEdited(store: Store, a: AssetStep, checksum: Bytes -> string) {
    !BytesBack(store, a, checksum) && !(a.target in store && checksum(store[a.target]) == a.expected)
  }

  /** The record is of an asset whose bytes users changed. */
  ghost predicate BytesEditedOf(steps: seq<AssetStep>, store: Store, k: Key, checksum: Bytes -> string) {
    exists a <- steps :: a.settledAt.None? && k == ("assets", a.assetId) && BytesEdited(store, a, checksum)
  }

  // ----- What the plan decides -----

  lemma DecideBytes(store: Store, a: AssetStep, records: seq<Decision>, checksum: Bytes -> string)
    ensures var d, n := Decide(store, a, records, checksum), RecordOf(records, a.assetId);
      d.outcome ==
        if n < |records| && records[n].outcome.Conflict? then Conflict(RecordChanged)
        else if BytesEdited(store, a, checksum) then Conflict(AssetBytesChanged)
        else if BytesBack(store, a, checksum) then Satisfied
        else Apply
  {}

  lemma RecordOfAt(records: seq<Decision>, ds: seq<Decision>, i: nat, assetId: Id)
    requires UniqueKeys(ds) && Weakened(ds, records) && i < |ds|
    ensures |records| == |ds|
    ensures RecordOf(records, assetId) == i <==> records[i].step.Key() == ("assets", assetId)
  {
    forall j | 0 <= j < |ds| && j != i ensures records[j].step.Key() != records[i].step.Key() {
      assert records[j].step == ds[j].step && records[i].step == ds[i].step;
      if j < i { assert ds[j].step.Key() != ds[i].step.Key(); } else { assert ds[i].step.Key() != ds[j].step.Key(); }
    }
  }

  lemma BlockedByBytes(store: Store, a: AssetStep, records: seq<Decision>, checksum: Bytes -> string, i: nat)
    requires i < |records|
    requires RecordOf(records, a.assetId) == i <==> records[i].step.Key() == ("assets", a.assetId)
    ensures BlockRecord(records, Decide(store, a, records, checksum))[i] ==
      if
        && records[i].step.Key() == ("assets", a.assetId) && !records[i].outcome.Conflict?
        && BytesEdited(store, a, checksum)
      then records[i].(outcome := Conflict(AssetBytesChanged))
      else records[i]
  {
    DecideBytes(store, a, records, checksum);
  }

  /** The byte steps turn the decision of an asset's record into a conflict exactly when its
      bytes were edited. */
  lemma {:induction false} PassesRecord(store: Store, steps: seq<AssetStep>, ds: seq<Decision>,
    checksum: Bytes -> string, i: nat)
    requires UniqueKeys(ds) && i < |ds|
    ensures |AssetPasses(store, steps, ds, checksum).records| == |ds|
    ensures AssetPasses(store, steps, ds, checksum).records[i] ==
      if !ds[i].outcome.Conflict? && BytesEditedOf(steps, store, ds[i].step.Key(), checksum)
      then ds[i].(outcome := Conflict(AssetBytesChanged))
      else ds[i]
  {
    if steps != [] {
      var q, a := steps[..|steps| - 1], steps[|steps| - 1];
      PassesRecord(store, q, ds, checksum, i);
      AssetPassesWeaken(store, q, ds, checksum);
      EditedOfOneMore(q, a, store, ds[i].step.Key(), checksum);
      assert steps == q + [a];
      if a.settledAt.None? {
        var records := AssetPasses(store, q, ds, checksum).records;
        RecordOfAt(records, ds, i, a.assetId);
        BlockedByBytes(store, a, records, checksum, i);
      }
    }
  }

  lemma EditedOfOneMore(q: seq<AssetStep>, a: AssetStep, store: Store, k: Key, checksum: Bytes -> string)
    ensures BytesEditedOf(q + [a], store, k, checksum) <==>
      || BytesEditedOf(q, store, k, checksum)
      || (a.settledAt.None? && k == ("assets", a.assetId) && BytesEdited(store, a, checksum))
  {
    assert forall b :: b in q + [a] <==> b in q || b == a;
  }

  /** Record by record what an attempt decides about an open step. Deletes that are left may
      still be withdrawn because something refers to the record. */
  lemma RecordFate(s: State, store: Store, op: Operation, checksum: Bytes -> string, d: Decision)
    requires WellFormed(s) && Valid(op) && d in PlanFor(s, store, op, checksum).records
    ensures Edited(s, d.step) ==> d.outcome == Conflict(RecordChanged)
    ensures !Edited(s, d.step) && BytesEditedOf(op.assetSteps, store, d.step.Key(), checksum) ==>
      d.outcome == Conflict(AssetBytesChanged)
    ensures !Edited(s, d.step) && !BytesEditedOf(op.assetSteps, store, d.step.Key(), checksum) ==>
      if AlreadyBack(s, d.step) then d.outcome == Satisfied
      else d.outcome == Apply || (d.step.inverse.Delete? && d.outcome == Conflict(ReferenceConflict))
  {
    var first := InitialDecisions(s, op.recordSteps);
    var mid := AssetPasses(store, op.assetSteps, first, checksum).records;
    var last := PlanFor(s, store, op, checksum).records;
    InitialApplicable(s, op);
    AssetPassesWeaken(store, op.assetSteps, first, checksum);
    var i :| 0 <= i < |last| && last[i] == d;
    PassesRecord(store, op.assetSteps, first, checksum, i);
    assert mid[i].step == first[i].step == d.step;
    InitialMember(s, op.recordSteps, first[i]);
  }

  lemma {:induction false} PassesBytes(store: Store, steps: seq<AssetStep>, ds: seq<Decision>,
    checksum: Bytes -> string)
    ensures forall a <- AssetPasses(store, steps, ds, checksum).assets ::
      && a.current == Read(store, a.step.target)
      && (a.step.inverse.Some? ==> a.inverseBody == Read(store, a.step.inverse.value))
      && (BytesEdited(store, a.step, checksum) ==> a.outcome.Conflict?)
      && (!a.outcome.Conflict? ==> a.outcome == if BytesBack(store, a.step, checksum) then Satisfied else Apply)
  {
    if steps != [] {
      var q, a := steps[..|steps| - 1], steps[|steps| - 1];
      PassesBytes(store, q, ds, checksum);
      if a.settledAt.None? { DecideBytes(store, a, AssetPasses(store, q, ds, checksum).records, checksum); }
    }
  }

  /** What an attempt decides about an open byte step. */
  lemma BytesFate(s: State, store: Store, op: Operation, checksum: Bytes -> string, a: AssetDecision)
    requires a in PlanFor(s, store, op, checksum).assets
    ensures BytesEdited(store, a.step, checksum) ==> a.outcome.Conflict?
    ensures !a.outcome.Conflict? ==> a.outcome == if BytesBack(store, a.step, checksum) then Satisfied else Apply
    ensures a.step.inverse.Some? ==> a.inverseBody == Read(store, a.step.inverse.value)
  {
    var first := InitialDecisions(s, op.recordSteps);
    var mid, last := AssetPasses(store, op.assetSteps, first, checksum).assets, PlanFor(s, store, op, checksum).assets;
    PassesBytes(store, op.assetSteps, first, checksum);
    var i :| 0 <= i < |last| && last[i] == a;
    assert mid[i] in mid;
  }

  lemma {:induction false} RecordRowOf(ds: seq<Decision>, d: Decision)
    requires d in ds && d.outcome.Conflict?
    ensures ConflictRow(d.step.coll, d.step.id, d.outcome.reason) in RecordRows(ds)
  {
    if ds[0] != d { RecordRowOf(ds[1..], d); }
  }

  lemma {:induction false} AssetRowOf(ds: seq<AssetDecision>, d: AssetDecision)
    requires d in ds && d.outcome.Conflict?
    ensures ConflictRow("assetFiles", d.step.assetId, d.outcome.reason) in AssetRows(ds)
  {
    if ds[0] != d { AssetRowOf(ds[1..], d); }
  }

  // ----- What an attempt does with a record -----

  ghost function After(s: State, store: Store, op: Operation, checksum: Bytes -> string, at: int, now: int,
    auditIds: seq<Id>): State
    requires |AuditCampaigns(op)| <= |auditIds|
  {
    RollbackState(s, op, PlanFor(s, store, op, checksum).records, at, now, auditIds)
  }

  /** The record is what it was, a campaign's revision aside. */
  ghost predicate Kept(s: State, t: State, c: Coll, id: Id) {
    && SameRecord(c, Find(Records(t, c), id), Find(Records(s, c), id))
    && (c != "campaigns" ==> Find(Records(t, c), id) == Find(Records(s, c), id))
  }

  lemma UndecidedKept(s: State, store: Store, op: Operation, checksum: Bytes -> string, at: int, now: int,
    auditIds: seq<Id>, d: Decision)
    requires WellFormed(s) && Valid(op) && |AuditCampaigns(op)| <= |auditIds|
    requires d in PlanFor(s, store, op, checksum).records && !d.outcome.Apply?
    requires d.step.coll == "auditLogs" ==> d.step.id !in auditIds
    ensures Kept(s, After(s, store, op, checksum, at, now, auditIds), d.step.coll, d.step.id)
  {
    var ds := PlanFor(s, store, op, checksum).records;
    PlanDecidesRecords(s, store, op, checksum);
    forall e ensures !AppliedTo(ds, d.step.Key(), e) {
      if e in ds && e.step.Key() == d.step.Key() { SoleDecision(ds, d, e); }
    }
    AttemptChangesOnly(s, op, ds, at, now, auditIds, d.step.Key());
  }

  lemma SoleDecision(ds: seq<Decision>, d: Decision, e: Decision)
    requires UniqueKeys(ds) && d in ds && e in ds && d.step.Key() == e.step.Key()
    ensures d == e
  {
    var i :| 0 <= i < |ds| && ds[i] == d;
    var j :| 0 <= j < |ds| && ds[j] == e;
    assert i <= j || ds[j].step.Key() != ds[i].step.Key();
  }

  /** A record that users changed stays as it is, its step stays open, and the attempt says so. */
  lemma EditedRecordStays(s: State, store: Store, op: Operation, checksum: Bytes -> string, at: int, now: int,
    auditIds: seq<Id>, i: nat)
    requires WellFormed(s) && Valid(op) && |AuditCampaigns(op)| <= |auditIds| && i < |op.recordSteps|
    requires op.recordSteps[i].settledAt.None? && Edited(s, op.recordSteps[i])
    requires op.recordSteps[i].coll == "auditLogs" ==> op.recordSteps[i].id !in auditIds
    ensures var t, p := op.recordSteps[i], PlanFor(s, store, op, checksum);
      && Kept(s, After(s, store, op, checksum, at, now, auditIds), t.coll, t.id)
      && Settle(op, p, at).recordSteps[i] == t && Settle(op, p, at).status == PartiallyRolledBack
      && ConflictRow(t.coll, t.id, RecordChanged) in ConflictRows(p)
  {
    var t, p := op.recordSteps[i], PlanFor(s, store, op, checksum);
    PlanDecidesRecords(s, store, op, checksum);
    var d :| d in p.records && d.step == t;
    RecordFate(s, store, op, checksum, d);
    UndecidedKept(s, store, op, checksum, at, now, auditIds, d);
    RecordSettledBy(op, p, at, i, d);
    RecordRowOf(p.records, d);
    assert Settle(op, p, at).recordSteps[i].settledAt.None?;
  }

  /** A record that is already back stays as it is, and its step settles unless the bytes of the
      same asset were edited. */
  lemma BackRecordStays(s: State, store: Store, op: Operation, checksum: Bytes -> string, at: int, now: int,
    auditIds: seq<Id>, i: nat)
    requires WellFormed(s) && Valid(op) && |AuditCampaigns(op)| <= |auditIds| && i < |op.recordSteps|
    requires op.recordSteps[i].settledAt.None? && AlreadyBack(s, op.recordSteps[i])
    requires op.recordSteps[i].coll == "auditLogs" ==> op.recordSteps[i].id !in auditIds
    ensures var t := op.recordSteps[i];
      && Kept(s, After(s, store, op, checksum, at, now, auditIds), t.coll, t.id)
      && Settle(op, PlanFor(s, store, op, checksum), at).recordSteps[i]
         == if BytesEditedOf(op.assetSteps, store, t.Key(), checksum) then t else t.(settledAt := Some(at))
  {
    var t, p := op.recordSteps[i], PlanFor(s, store, op, checksum);
    PlanDecidesRecords(s, store, op, checksum);
    var d :| d in p.records && d.step == t;
    RecordFate(s, store, op, checksum, d);
    UndecidedKept(s, store, op, checksum, at, now, auditIds, d);
    RecordSettledBy(op, p, at, i, d);
  }

  /** A record that is as the import left it is undone and its step settles, unless the bytes of
      the same asset were edited or it is to be deleted and something refers to it: then record
      and step stay. */
  lemma UneditedRecordUndone(s: State, store: Store, op: Operation, checksum: Bytes -> string, at: int, now: int,
    auditIds: seq<Id>, i: nat)
    requires WellFormed(s) && Valid(op) && |AuditCampaigns(op)| <= |auditIds| && i < |op.recordSteps|
    requires var t := op.recordSteps[i];
      && t.settledAt.None? && !Edited(s, t) && !AlreadyBack(s, t) && (t.coll == "auditLogs" ==> t.id !in auditIds)
    ensures var t, p := op.recordSteps[i], PlanFor(s, store, op, checksum);
      var after := After(s, store, op, checksum, at, now, auditIds);
      var back := Find(Records(after, t.coll), t.id);
      var undone := if t.inverse.Delete? then back.None? else SameRecord(t.coll, back, Some(t.inverse.before));
      && (Settle(op, p, at).recordSteps[i] == t.(settledAt := Some(at)) ==> undone)
      && (Settle(op, p, at).recordSteps[i] != t.(settledAt := Some(at)) ==>
            Kept(s, after, t.coll, t.id) && Settle(op, p, at).recordSteps[i] == t)
      && (BytesEditedOf(op.assetSteps, store, t.Key(), checksum) ==> Settle(op, p, at).recordSteps[i] == t)
      && (!BytesEditedOf(op.assetSteps, store, t.Key(), checksum) && t.inverse.Restore? ==>
            Settle(op, p, at).recordSteps[i] == t.(settledAt := Some(at)))
  {
    var t, p := op.recordSteps[i], PlanFor(s, store, op, checksum);
    PlanDecidesRecords(s, store, op, checksum);
    var d :| d in p.records && d.step == t;
    RecordFate(s, store, op, checksum, d);
    RecordSettledBy(op, p, at, i, d);
    if d.outcome.Apply? {
      assert AppliedTo(p.records, t.Key(), d);
      AttemptChangesOnly(s, op, p.records, at, now, auditIds, t.Key());
    } else {
      UndecidedKept(s, store, op, checksum, at, now, auditIds, d);
    }
  }

  // ----- What an attempt does with bytes -----

  lemma {:induction false} UntargetedStay(o: Store, ds: seq<AssetDecision>, r: Ref)
    requires Writable(ds) && forall d <- ds :: d.outcome.Apply? ==> d.step.target != r
    ensures Read(Written(o, ds), r) == Read(o, r)
  {
    if ds != [] {
      assert ds == ds[..|ds| - 1] + [ds[|ds| - 1]];
      UntargetedStay(o, ds[..|ds| - 1], r);
    }
  }

  /** No other step is about the target. */
  ghost predicate OwnTarget(steps: seq<AssetStep>, j: nat)
    requires j < |steps|
  {
    && (forall k :: 0 <= k < |steps| && k != j ==> steps[k].target != steps[j].target)
    && steps[j].target !in InverseRefs(steps)
  }

  /** Bytes that users changed stay, their step stays open, and the attempt says so. So do bytes
      that are already back, whose step settles unless the asset's record is in conflict. */
  lemma EditedBytesStay(s: State, store: Store, op: Operation, checksum: Bytes -> string, at: int, j: nat, left: Store)
    requires WellFormed(s) && Valid(op) && j < |op.assetSteps| && op.assetSteps[j].settledAt.None?
    requires OwnTarget(op.assetSteps, j)
    requires var p := PlanFor(s, store, op, checksum);
      Writable(p.assets) && AgreeOutside(left, Written(store, p.assets), InverseRefs(op.assetSteps))
    ensures var a, p := op.assetSteps[j], PlanFor(s, store, op, checksum);
      && (BytesEdited(store, a, checksum) ==>
            && Read(left, a.target) == Read(store, a.target)
            && Settle(op, p, at).assetSteps[j] == a && Settle(op, p, at).status == PartiallyRolledBack
            && exists reason :: ConflictRow("assetFiles", a.assetId, reason) in ConflictRows(p))
      && (BytesBack(store, a, checksum) ==> Read(left, a.target) == Read(store, a.target))
  {
    var a, p := op.assetSteps[j], PlanFor(s, store, op, checksum);
    PlanDecidesAssets(s, store, op, checksum);
    var d :| d in p.assets && d.step == a;
    BytesFate(s, store, op, checksum, d);
    AssetSettledBy(op, p, at, j, d);
    if BytesEdited(store, a, checksum) || BytesBack(store, a, checksum) {
      forall e <- p.assets | e.outcome.Apply? ensures e.step.target != a.target {
        var k :| 0 <= k < |op.assetSteps| && op.assetSteps[k] == e.step;
        if k == j { BytesFate(s, store, op, checksum, e); }
      }
      UntargetedStay(store, p.assets, a.target);
    }
    if BytesEdited(store, a, checksum) {
      AssetRowOf(p.assets, d);
      assert Settle(op, p, at).assetSteps[j].settledAt.None?;
    }
  }

  lemma {:induction false} TargetedWritten(o: Store, ds: seq<AssetDecision>, d: AssetDecision)
    requires Writable(ds) && d in ds && d.outcome.Apply?
    requires forall e <- ds :: e.step.target == d.step.target ==> e == d
    ensures Read(Written(o, ds), d.step.target) == if d.step.inverse.Some? then d.inverseBody else None
  {
    var q, last := ds[..|ds| - 1], ds[|ds| - 1];
    assert ds == q + [last];
    if last != d { TargetedWritten(o, q, d); }
  }

  /** Bytes that are as the import wrote them are put back or removed if their step settles, and
      stay if it does not. */
  lemma UneditedBytesReturn(s: State, store: Store, op: Operation, checksum: Bytes -> string, at: int, j: nat,
    left: Store)
    requires WellFormed(s) && Valid(op) && j < |op.assetSteps| && op.assetSteps[j].settledAt.None?
    requires !BytesEdited(store, op.assetSteps[j], checksum) && !BytesBack(store, op.assetSteps[j], checksum)
    requires OwnTarget(op.assetSteps, j)
    requires var p := PlanFor(s, store, op, checksum);
      Writable(p.assets) && AgreeOutside(left, Written(store, p.assets), InverseRefs(op.assetSteps))
    ensures var a, next := op.assetSteps[j], Settle(op, PlanFor(s, store, op, checksum), at).assetSteps[j];
      if next == a then Read(left, a.target) == Read(store, a.target)
      else
        && next == a.(settledAt := Some(at))
        && Read(left, a.target) == if a.inverse.Some? then Read(store, a.inverse.value) else None
  {
    var a, p := op.assetSteps[j], PlanFor(s, store, op, checksum);
    PlanDecidesAssets(s, store, op, checksum);
    var d :| d in p.assets && d.step == a;
    BytesFate(s, store, op, checksum, d);
    AssetSettledBy(op, p, at, j, d);
    forall e <- p.assets | e.step.target == a.target ensures e == d {
      var k :| 0 <= k < |op.assetSteps| && op.assetSteps[k] == e.step;
      SoleAssetDecision(p.assets, d, e);
    }
    if d.outcome.Conflict? { UntargetedStay(store, p.assets, a.target); } else { TargetedWritten(store, p.assets, d); }
  }

  lemma SoleAssetDecision(ds: seq<AssetDecision>, d: AssetDecision, e: AssetDecision)
    requires UniqueDecisions(ds) && d in ds && e in ds && d.step.assetId == e.step.assetId
    ensures d == e
  {
    var i :| 0 <= i < |ds| && ds[i] == d;
    var j :| 0 <= j < |ds| && ds[j] == e;
    assert i <= j || ds[j].step.assetId != ds[i].step.assetId;
  }

  // ----- What counts as unchanged -----

  /** Records compare as the same exactly when both are absent, or their members have the same
      values, whatever their order and apart from undefined ones, and, except for campaigns, their
      revisions agree. */
  lemma SameRecordIff(c: Coll, a: Option<Record>, b: Option<Record>)
    requires (a.Some? ==> WellKeyed(Object(a.value.fields))) && (b.Some? ==> WellKeyed(Object(b.value.fields)))
    ensures SameRecord(c, a, b) <==>
      match (a, b)
      case (None, None) => true
      case (Some(x), Some(y)) =>
        x.id == y.id && Same(Object(x.fields), Object(y.fields)) && (c == "campaigns" || x.updatedAt == y.updatedAt)
      case _ => false
  {
    if a.Some? && b.Some? { CanonicalIffSame(Object(a.value.fields), Object(b.value.fields)); }
  }

  // ----- The trace an attempt leaves -----

  lemma {:induction false} ElsewhereKept(s: State, ds: seq<Decision>, active: set<Key>, c: Coll)
    requires forall d <- ds :: d.step.coll != c
    ensures Records(WithDecisions(s, ds, active), c) == Records(s, c)
  {
    if ds != [] {
      assert ds == ds[..|ds| - 1] + [ds[|ds| - 1]];
      ElsewhereKept(s, ds[..|ds| - 1], active, c);
    }
  }

  lemma EntryMembers(op: Operation, campaign: Value, auditId: Id, at: int)
    ensures var fields := AuditEntry(op, campaign, auditId, at).fields;
      && Member(fields, "campaignId") == (if campaign == Undefined then None else Some(campaign))
      && Member(fields, "targetId") == Some(Text(op.id))
  {
    var fields := AuditEntry(op, campaign, auditId, at).fields;
    assert "campaignId"[0] == 'c' && "targetId"[0] == 't' && "action"[0] == 'a';
    assert fields[1..][0] == Field("targetId", Text(op.id)) && fields[1..][1..][0].key == "action";
  }

  lemma {:induction false} EntriesAt(op: Operation, campaigns: seq<Value>, auditIds: seq<Id>, at: int, i: nat)
    requires |campaigns| <= |auditIds| && i < |campaigns|
    ensures var entries := AuditEntries(op, campaigns, auditIds, at);
      |entries| == |campaigns| && entries[i] == AuditEntry(op, campaigns[i], auditIds[i], at)
  {
    if i < |campaigns| - 1 { EntriesAt(op, campaigns[..|campaigns| - 1], auditIds, at, i); }
  }

  lemma AuditRecords(s: State, store: Store, op: Operation, checksum: Bytes -> string, at: int, now: int,
    auditIds: seq<Id>)
    requires WellFormed(s) && Valid(op) && |AuditCampaigns(op)| <= |auditIds|
    requires forall t <- op.recordSteps :: t.coll != "auditLogs"
    ensures Records(After(s, store, op, checksum, at, now, auditIds), "auditLogs")
      == Records(s, "auditLogs") + AuditEntries(op, AuditCampaigns(op), auditIds, at)
  {
    var ds := PlanFor(s, store, op, checksum).records;
    PlanDecidesRecords(s, store, op, checksum);
    ElsewhereKept(s, ds, PlannedDeletes(ds), "auditLogs");
  }

  /** What the `i`-th audit record of an attempt says. */
  ghost predicate Traces(e: Record, op: Operation, auditId: Id, at: int, i: nat)
    requires op.campaignIds == [] || i < |op.campaignIds|
  {
    && e.id == auditId && e.updatedAt == at && Member(e.fields, "targetId") == Some(Text(op.id))
    && Member(e.fields, "campaignId") == if op.campaignIds == [] then None else Some(Text(op.campaignIds[i]))
  }

  lemma EntryTraces(op: Operation, auditIds: seq<Id>, at: int, i: nat)
    requires i < |AuditCampaigns(op)| <= |auditIds|
    ensures Traces(AuditEntries(op, AuditCampaigns(op), auditIds, at)[i], op, auditIds[i], at, i)
  {
    var campaigns := AuditCampaigns(op);
    EntriesAt(op, campaigns, auditIds, at, i);
    EntryMembers(op, campaigns[i], auditIds[i], at);
  }

  /** Every attempt adds one audit record per campaign of the operation, or one without a campaign. */
  lemma AuditTrail(s: State, store: Store, op: Operation, checksum: Bytes -> string, at: int, now: int,
    auditIds: seq<Id>)
    returns (added: seq<Record>)
    requires WellFormed(s) && Valid(op) && |AuditCampaigns(op)| <= |auditIds|
    requires forall t <- op.recordSteps :: t.coll != "auditLogs"
    ensures Records(After(s, store, op, checksum, at, now, auditIds), "auditLogs") == Records(s, "auditLogs") + added
    ensures |added| == if op.campaignIds == [] then 1 else |op.campaignIds|
    ensures forall i :: 0 <= i < |added| ==> Traces(added[i], op, auditIds[i], at, i)
  {
    AuditRecords(s, store, op, checksum, at, now, auditIds);
    added := AuditEntries(op, AuditCampaigns(op), auditIds, at);
    forall i | 0 <= i < |added| ensures Traces(added[i], op, auditIds[i], at, i) { EntryTraces(op, auditIds, at, i); }
  }
}
