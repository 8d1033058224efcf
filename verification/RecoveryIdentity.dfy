/** Import followed at once by its rollback: exactly when it is the identity. */
module RecoveryIdentity {
  import opened Json
  import opened RecoveryState
  import opened RecoveryReferences
  import opened RecoveryPlan
  import opened RecoverySettle
  import opened RecoveryRuns
  import opened RecoveryRoundTrip

  /** The ids an import creates in a collection. */
  ghost predicate Creates(before: State, data: seq<Incoming>, k: Key) {
    HasId(IncomingTo(data, k.0), k.1) && Find(Records(before, k.0), k.1).None?
  }

  /** The state before the import mentions none of the ids it creates. */
  ghost predicate MentionsNoneCreated(before: State, data: seq<Incoming>) {
    forall k :: Creates(before, data, k) ==> !StateMentions(before, k.1)
  }

  /** Element for element the same records, in the recovery's sense. */
  ghost predicate SameSequence(c: Coll, a: seq<Record>, b: seq<Record>) {
    |a| == |b| && forall i {:trigger a[i]} {:trigger b[i]} :: 0 <= i < |a| ==> SameRecord(c, Some(a[i]), Some(b[i]))
  }

  lemma SameSequenceMentions(c: Coll, a: seq<Record>, b: seq<Record>, id: Id)
    requires SameSequence(c, a, b)
    ensures RecordsMention(a, id) == RecordsMention(b, id)
  {
    forall i | 0 <= i < |a| ensures FieldsMention(a[i].fields, id) == FieldsMention(b[i].fields, id) {
      SameRecordsMentionSame(c, a[i], b[i], id);
    }
  }

  /** Undoing an upsert record by record leaves the old sequence. */
  lemma {:induction false} PutBack(c: Coll, rs: seq<Record>, out: seq<Record>, e: Effect)
    requires |rs| <= |out|
    requires forall i {:trigger out[i]} :: 0 <= i < |rs| ==>
      if (c, out[i].id) in e then e[(c, out[i].id)] == Some(rs[i]) else SameRecord(c, Some(rs[i]), Some(out[i]))
    requires forall i {:trigger out[i]} :: |rs| <= i < |out| ==> (c, out[i].id) in e && e[(c, out[i].id)].None?
    ensures SameSequence(c, rs, Rewrite(out, c, e))
  {
    if out != [] {
      var more := if rs == [] then [] else rs[1..];
      forall i | 0 <= i < |more|
        ensures if (c, out[1..][i].id) in e then e[(c, out[1..][i].id)] == Some(more[i])
          else SameRecord(c, Some(more[i]), Some(out[1..][i]))
      {
        assert out[1..][i] == out[i + 1];
      }
      forall i | |more| <= i < |out[1..]| ensures (c, out[1..][i].id) in e && e[(c, out[1..][i].id)].None? {
        assert out[1..][i] == out[i + 1];
      }
      assert out[0] == out[0];
      PutBack(c, more, out[1..], e);
      var tail := Rewrite(out[1..], c, e);
      if rs != [] {
        assert rs == [rs[0]] + more;
        assert exists x :: Rewrite(out, c, e) == [x] + tail && SameRecord(c, Some(rs[0]), Some(x)) by {
          var x := if (c, out[0].id) in e then rs[0] else out[0];
          assert Rewrite(out, c, e) == [x] + tail;
        }
      }
    }
  }

  lemma HasIdSnoc(q: seq<Record>, r: Record, id: Id)
    ensures HasId(q + [r], id) <==> HasId(q, id) || r.id == id
  {
    if HasId(q, id) {
      var x :| x in q && x.id == id;
      assert x in q + [r];
    }
    if r.id == id { assert r in q + [r]; }
  }

  lemma UpsertOneHas(c: Coll, mid: seq<Record>, r: Record, merge: Merge, id: Id)
    requires KeepsIds(merge)
    ensures HasId(UpsertOne(c, mid, r, merge), id) <==> HasId(mid, id) || r.id == id
  {
    var out, n := UpsertOne(c, mid, r, merge), IndexOf(mid, r.id);
    if HasId(mid, id) {
      var i :| 0 <= i < |mid| && mid[i].id == id;
      assert out[i].id == id && out[i] in out;
    }
    if r.id == id { assert out[n].id == id && out[n] in out; }
    if HasId(out, id) {
      var i :| 0 <= i < |out| && out[i].id == id;
      if i != n { assert mid[i] == out[i] && mid[i] in mid; }
    }
  }

  lemma {:induction false} UpsertHas(c: Coll, rs: seq<Record>, incoming: seq<Record>, merge: Merge, id: Id)
    requires KeepsIds(merge)
    ensures HasId(incoming, id) || HasId(rs, id) <==> HasId(Upsert(c, rs, incoming, merge), id)
  {
    if incoming != [] {
      var q, r := incoming[..|incoming| - 1], incoming[|incoming| - 1];
      UpsertHas(c, rs, q, merge, id);
      UpsertOneHas(c, Upsert(c, rs, q, merge), r, merge, id);
      HasIdSnoc(q, r, id);
      assert incoming == q + [r];
    }
  }

  // ----- The plan of an immediate rollback -----

  /** Right after the import every recorded step still applies. */
  lemma StepsApply(before: State, data: seq<Incoming>, merge: Merge, t: RecordStep)
    requires Importable(before, data) && KeepsIds(merge)
    requires t in Steps(before, Import(before, data, merge), data)
    ensures RecordOutcome(Import(before, data, merge), t) == Apply
    ensures t.settledAt.None? && StepIds(t)
    ensures t.inverse.Delete? <==> Creates(before, data, t.Key())
    ensures Find(Records(before, t.coll), t.id) == if t.inverse.Delete? then None else Some(t.inverse.before)
  {
    var after := Import(before, data, merge);
    StepsMember(before, data, merge, t);
    var r :| r in IncomingTo(data, t.coll) && StepFor(before, after, t.coll, r) == Some(t);
  }

  /** The effect of the whole plan on one id: its record before the import. */
  lemma PlanEffect(before: State, data: seq<Incoming>, merge: Merge, ds: seq<Decision>, k: Key)
    requires Importable(before, data) && KeepsIds(merge) && k.0 in before
    requires ds == InitialDecisions(Import(before, data, merge), Steps(before, Import(before, data, merge), data))
    ensures var e, after := Effects(ds, PlannedDeletes(ds)), Import(before, data, merge);
      && (k in e ==> e[k] == Find(before[k.0], k.1))
      && (k !in e ==> SameRecord(k.0, Find(before[k.0], k.1), Find(Records(after, k.0), k.1)))
  {
    var after := Import(before, data, merge);
    StepsUnique(before, after, data);
    InitialUnique(after, Steps(before, after, data));
    if k in Effects(ds, PlannedDeletes(ds)) {
      PlannedEffect(before, data, merge, ds, k);
    } else if HasId(IncomingTo(data, k.0), k.1) {
      var r :| r in IncomingTo(data, k.0) && r.id == k.1;
      if StepFor(before, after, k.0, r).Some? { StepTakesEffect(before, data, merge, ds, k, r); }
      ImportAt(before, data, merge, k.0);
      UpsertHas(k.0, before[k.0], IncomingTo(data, k.0), merge, k.1);
    } else {
      UntouchedFound(before, data, merge, k);
    }
  }

  lemma PlannedEffect(before: State, data: seq<Incoming>, merge: Merge, ds: seq<Decision>, k: Key)
    requires Importable(before, data) && KeepsIds(merge) && k.0 in before && UniqueKeys(ds)
    requires ds == InitialDecisions(Import(before, data, merge), Steps(before, Import(before, data, merge), data))
    requires k in Effects(ds, PlannedDeletes(ds))
    ensures Effects(ds, PlannedDeletes(ds))[k] == Find(before[k.0], k.1)
  {
    var after, deletes := Import(before, data, merge), PlannedDeletes(ds);
    var d := EffectFrom(ds, deletes, k);
    InitialMember(after, Steps(before, after, data), d);
    StepsApply(before, data, merge, d.step);
  }

  /** A record the import changed or created is one of those the plan puts back or deletes. */
  lemma StepTakesEffect(before: State, data: seq<Incoming>, merge: Merge, ds: seq<Decision>, k: Key, r: Record)
    requires Importable(before, data) && KeepsIds(merge) && k.0 in before && UniqueKeys(ds)
    requires ds == InitialDecisions(Import(before, data, merge), Steps(before, Import(before, data, merge), data))
    requires r in IncomingTo(data, k.0) && r.id == k.1 && StepFor(before, Import(before, data, merge), k.0, r).Some?
    ensures k in Effects(ds, PlannedDeletes(ds))
  {
    var after := Import(before, data, merge);
    var t := StepFor(before, after, k.0, r).value;
    StepsMember(before, data, merge, t);
    StepsApply(before, data, merge, t);
    InitialMember(after, Steps(before, after, data), Decision(t, Apply));
    var i :| 0 <= i < |ds| && ds[i] == Decision(t, Apply);
    assert ds[i].step.Key() == k && (ds[i].PlansDelete() ==> k in PlannedDeletes(ds));
    EffectsAt(ds, PlannedDeletes(ds), i);
  }

  lemma UntouchedFound(before: State, data: seq<Incoming>, merge: Merge, k: Key)
    requires Importable(before, data) && KeepsIds(merge) && k.0 in before
    requires !HasId(IncomingTo(data, k.0), k.1)
    ensures Find(Records(Import(before, data, merge), k.0), k.1) == Find(before[k.0], k.1)
  {
    var c, rs := k.0, before[k.0];
    ImportAt(before, data, merge, c);
    UpsertShape(c, rs, IncomingTo(data, c), merge);
    UpsertHas(c, rs, IncomingTo(data, c), merge, k.1);
    var out := Upsert(c, rs, IncomingTo(data, c), merge);
    if Find(rs, k.1).Some? {
      var n := IndexOf(rs, k.1);
      assert out[n] == rs[n];
      FindUnique(out, out[n]);
    }
  }

  /** Deleting everything created and restoring everything changed gives back the old state. */
  lemma BackToBefore(before: State, data: seq<Incoming>, merge: Merge, ds: seq<Decision>, c: Coll)
    requires Importable(before, data) && KeepsIds(merge) && c in before
    requires ds == InitialDecisions(Import(before, data, merge), Steps(before, Import(before, data, merge), data))
    ensures SameSequence(c, before[c],
      Rewrite(Records(Import(before, data, merge), c), c, Effects(ds, PlannedDeletes(ds))))
  {
    var rs, inc := before[c], IncomingTo(data, c);
    ImportAt(before, data, merge, c);
    UpsertShape(c, rs, inc, merge);
    var out, e := Upsert(c, rs, inc, merge), Effects(ds, PlannedDeletes(ds));
    forall i | 0 <= i < |out|
      ensures i < |rs| ==> if (c, out[i].id) in e then e[(c, out[i].id)] == Some(rs[i])
        else SameRecord(c, Some(rs[i]), Some(out[i]))
      ensures |rs| <= i ==> (c, out[i].id) in e && e[(c, out[i].id)].None?
    {
      PlanEffect(before, data, merge, ds, (c, out[i].id));
      FindUnique(out, out[i]);
      if i < |rs| { FindUnique(rs, rs[i]); }
    }
    PutBack(c, rs, out, e);
  }

  lemma BackMentions(before: State, data: seq<Incoming>, merge: Merge, ds: seq<Decision>, id: Id)
    requires Importable(before, data) && KeepsIds(merge)
    requires ds == InitialDecisions(Import(before, data, merge), Steps(before, Import(before, data, merge), data))
    ensures StateMentions(RewriteState(Import(before, data, merge), Effects(ds, PlannedDeletes(ds))), id)
      == StateMentions(before, id)
  {
    var back := RewriteState(Import(before, data, merge), Effects(ds, PlannedDeletes(ds)));
    ImportKeys(before, data, merge);
    forall c | c in before ensures RecordsMention(back[c], id) == RecordsMention(before[c], id) {
      BackToBefore(before, data, merge, ds, c);
      SameSequenceMentions(c, before[c], back[c], id);
    }
  }

  lemma PlannedAreCreated(before: State, data: seq<Incoming>, merge: Merge, ds: seq<Decision>, k: Key)
    requires Importable(before, data) && KeepsIds(merge)
    requires ds == InitialDecisions(Import(before, data, merge), Steps(before, Import(before, data, merge), data))
    ensures k in PlannedDeletes(ds) <==> Creates(before, data, k)
  {
    var after := Import(before, data, merge);
    if k in PlannedDeletes(ds) {
      var i :| 0 <= i < |ds| && ds[i].PlansDelete() && ds[i].step.Key() == k;
      InitialMember(after, Steps(before, after, data), ds[i]);
      StepsApply(before, data, merge, ds[i].step);
    }
    if Creates(before, data, k) { CreatedIsPlanned(before, data, merge, ds, k); }
  }

  lemma CreatedIsPlanned(before: State, data: seq<Incoming>, merge: Merge, ds: seq<Decision>, k: Key)
    requires Importable(before, data) && KeepsIds(merge) && Creates(before, data, k)
    requires ds == InitialDecisions(Import(before, data, merge), Steps(before, Import(before, data, merge), data))
    ensures k in PlannedDeletes(ds)
  {
    var after := Import(before, data, merge);
    var r :| r in IncomingTo(data, k.0) && r.id == k.1;
    IncomingSomewhere(before, data, k.0);
    ImportAt(before, data, merge, k.0);
    UpsertHas(k.0, before[k.0], IncomingTo(data, k.0), merge, k.1);
    assert HasId(after[k.0], k.1);
    var t := StepFor(before, after, k.0, r).value;
    StepsMember(before, data, merge, t);
    StepsApply(before, data, merge, t);
    InitialMember(after, Steps(before, after, data), Decision(t, Apply));
    var i :| 0 <= i < |ds| && ds[i] == Decision(t, Apply);
    assert ds[i].PlansDelete();
  }

  lemma {:induction false} IncomingSomewhere(s: State, data: seq<Incoming>, c: Coll)
    requires Importable(s, data) && IncomingTo(data, c) != []
    ensures c in s
  {
    var q, last := data[..|data| - 1], data[|data| - 1];
    assert data[|data| - 1].coll in s;
    if last.coll != c { ImportablePrefix(s, data); IncomingSomewhere(s, q, c); }
  }

  /** The bytes the import wrote are still there. */
  ghost predicate BytesIntact(store: Store, steps: seq<AssetStep>, checksum: Bytes -> string) {
    forall t :: t in steps ==> t.target in store && checksum(store[t.target]) == t.expected
  }

  lemma {:induction false} IntactPasses(store: Store, steps: seq<AssetStep>, ds: seq<Decision>,
    checksum: Bytes -> string)
    requires BytesIntact(store, steps, checksum)
    requires forall d :: d in ds ==> !d.outcome.Conflict?
    ensures var p := AssetPasses(store, steps, ds, checksum);
      p.records == ds && forall a :: a in p.assets ==> !a.outcome.Conflict?
  {
    if steps != [] {
      assert steps[|steps| - 1] in steps;
      IntactPasses(store, steps[..|steps| - 1], ds, checksum);
    }
  }

  /** Rolling an import back at once meets no conflict if and only if the state before the
      import mentioned none of the ids the import created. */
  lemma ImmediateRollbackConflicts(before: State, data: seq<Incoming>, merge: Merge, store: Store, op: Operation,
    checksum: Bytes -> string)
    requires Importable(before, data) && KeepsIds(merge) && Valid(op)
    requires op.recordSteps == Steps(before, Import(before, data, merge), data)
    requires BytesIntact(store, op.assetSteps, checksum)
    ensures var p := PlanFor(Import(before, data, merge), store, op, checksum);
      && (ConflictRows(p) == [] <==> MentionsNoneCreated(before, data))
      && (ConflictRows(p) == [] ==> p.records == InitialDecisions(Import(before, data, merge), op.recordSteps))
  {
    var after := Import(before, data, merge);
    var ds := InitialDecisions(after, op.recordSteps);
    var p := PlanFor(after, store, op, checksum);
    ImportWellFormed(before, data, merge);
    InitialApplicable(after, op);
    forall d | d in ds ensures d.outcome == Apply {
      InitialMember(after, op.recordSteps, d);
      StepsApply(before, data, merge, d.step);
    }
    IntactPasses(store, op.assetSteps, ds, checksum);
    ConsistentWhenFresh(before, data, merge, ds);
    SurvivorsGreatest(after, ds);
    MarkWithoutConflict(ds, Survivors(after, ds));
    SyncWithoutConflict(p.records, AssetPasses(store, op.assetSteps, ds, checksum).assets);
    assert Survivors(after, ds) == PlannedDeletes(ds) <==> Consistent(after, ds, PlannedDeletes(ds));
  }

  lemma MarkWithoutConflict(ds: seq<Decision>, keep: set<Key>)
    requires forall d :: d in ds ==> !d.outcome.Conflict?
    requires keep <= PlannedDeletes(ds)
    ensures RecordRows(Mark(ds, keep)) == [] <==> keep == PlannedDeletes(ds)
    ensures keep == PlannedDeletes(ds) ==> Mark(ds, keep) == ds
  {
    var marked := Mark(ds, keep);
    RecordRowsEmpty(marked);
    if keep == PlannedDeletes(ds) {
      MarkAll(ds);
    } else {
      var k :| k in PlannedDeletes(ds) && k !in keep;
      var i :| 0 <= i < |ds| && ds[i].PlansDelete() && ds[i].step.Key() == k;
      assert marked[i] in marked && marked[i].outcome.Conflict?;
    }
  }

  lemma SyncWithoutConflict(records: seq<Decision>, assets: seq<AssetDecision>)
    requires forall a :: a in assets ==> !a.outcome.Conflict?
    ensures RecordRows(records) == [] ==> AssetRows(SyncAll(records, assets)) == []
  {
    RecordRowsEmpty(records);
    var out := SyncAll(records, assets);
    AssetRowsEmpty(out);
    if RecordRows(records) == [] {
      forall d | d in out ensures !d.outcome.Conflict? {
        var i :| 0 <= i < |out| && out[i] == d;
        assert assets[i] in assets;
      }
    }
  }

  lemma ConsistentWhenFresh(before: State, data: seq<Incoming>, merge: Merge, ds: seq<Decision>)
    requires Importable(before, data) && KeepsIds(merge)
    requires ds == InitialDecisions(Import(before, data, merge), Steps(before, Import(before, data, merge), data))
    requires WellFormed(Import(before, data, merge)) && UniqueKeys(ds) && Applicable(Import(before, data, merge), ds)
    ensures Consistent(Import(before, data, merge), ds, PlannedDeletes(ds)) <==> MentionsNoneCreated(before, data)
  {
    var after := Import(before, data, merge);
    SequentialIsSimultaneous(after, ds, PlannedDeletes(ds));
    forall k
      ensures k in PlannedDeletes(ds) <==> Creates(before, data, k)
      ensures StateMentions(WithDecisions(after, ds, PlannedDeletes(ds)), k.1) == StateMentions(before, k.1)
    {
      PlannedAreCreated(before, data, merge, ds, k);
      BackMentions(before, data, merge, ds, k.1);
    }
  }

  lemma {:induction false} BumpSame(rs: seq<Record>, ids: seq<Id>, now: int)
    ensures SameSequence("campaigns", rs, BumpAll(rs, ids, now))
  {
    if ids != [] { BumpSame(rs, ids[..|ids| - 1], now); }
  }

  /** ... and then every collection holds its old records, in the old order: only campaign
      revisions and the audit log have moved. */
  lemma ImportThenRollbackIsIdentity(before: State, data: seq<Incoming>, merge: Merge, store: Store, op: Operation,
                                     checksum: Bytes -> string, at: int, now: int, auditIds: seq<Id>, c: Coll)
    requires Importable(before, data) && KeepsIds(merge) && Valid(op) && |AuditCampaigns(op)| <= |auditIds|
    requires op.recordSteps == Steps(before, Import(before, data, merge), data)
    requires BytesIntact(store, op.assetSteps, checksum) && MentionsNoneCreated(before, data)
    requires c in before && c != "auditLogs"
    ensures var after := Import(before, data, merge);
      SameSequence(c, before[c],
        Records(RollbackState(after, op, PlanFor(after, store, op, checksum).records, at, now, auditIds), c))
  {
    var after := Import(before, data, merge);
    ImmediateRollbackConflicts(before, data, merge, store, op, checksum);
    var ds := PlanFor(after, store, op, checksum).records;
    ImportWellFormed(before, data, merge);
    ImportKeys(before, data, merge);
    InitialApplicable(after, op);
    SequentialIsSimultaneous(after, ds, PlannedDeletes(ds));
    BackToBefore(before, data, merge, ds, c);
    RollbackStateAt(after, op, ds, at, now, auditIds, c);
    if c == "campaigns" {
      var back := Records(WithDecisions(after, ds, PlannedDeletes(ds)), c);
      BumpSame(back, op.campaignIds, now);
    }
  }
}
