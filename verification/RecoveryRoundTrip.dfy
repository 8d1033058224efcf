/** Merging an archive into the state, and recording the inverse steps of the import. */
module RecoveryRoundTrip {
  import opened Json
  import opened RecoveryState
  import opened RecoveryReferences
  import opened RecoveryPlan

  // ----- The merge -----

  /** What the merge stores for an incoming record: the record itself, or for users and
      assets a mix of it with the existing one. The id always stays. */
  type Merge = (Coll, Option<Record>, Record) -> Record

  ghost predicate KeepsIds(merge: Merge) {
    forall c, old_, r :: merge(c, old_, r).id == r.id
  }

  function UpsertOne(c: Coll, rs: seq<Record>, r: Record, merge: Merge): seq<Record> {
    var n := IndexOf(rs, r.id);
    if n < |rs| then rs[n := merge(c, Some(rs[n]), r)] else rs + [merge(c, None, r)]
  }

  function Upsert(c: Coll, rs: seq<Record>, incoming: seq<Record>, merge: Merge): seq<Record> {
    if incoming == [] then rs
    else UpsertOne(c, Upsert(c, rs, incoming[..|incoming| - 1], merge), incoming[|incoming| - 1], merge)
  }

  /** Archive data: collections in their key order. */
  datatype Incoming = Incoming(coll: Coll, records: seq<Record>)

  /** Collections that an archive may name and the merge never takes. */
  const UNMERGED: set<Coll> :=
    {"sessions", "identities", "oauthStates", "passwordResetTokens", "emailOutbox", "scimGroups",
      "scimGroupRoleMappings",
     "organizations", "organizationMembers", "invites", "systemInstallations", "pluginReviews",
     "campaignArchiveImportOperations", "campaignWebhooks", "campaignWebhookDeliveries", "idempotencyRecords", "jobs"}

  function Import(s: State, data: seq<Incoming>, merge: Merge): State {
    if data == [] then s
    else
      var t, last := Import(s, data[..|data| - 1], merge), data[|data| - 1];
      if last.coll in UNMERGED then t
      else t[last.coll := Upsert(last.coll, Records(t, last.coll), last.records, merge)]
  }

  method UpsertRecords(c: Coll, target: seq<Record>, incoming: seq<Record>, merge: Merge) returns (rs: seq<Record>)
    ensures rs == Upsert(c, target, incoming, merge)
  {
    rs := target;
    for n := 0 to |incoming|
      invariant rs == Upsert(c, target, incoming[..n], merge)
    {
      assert incoming[..n + 1][..n] == incoming[..n];
      var index := IndexOf(rs, incoming[n].id);
      if index < |rs| {
        rs := rs[index := merge(c, Some(rs[index]), incoming[n])];
      } else {
        rs := rs + [merge(c, None, incoming[n])];
      }
    }
    assert incoming[..|incoming|] == incoming;
  }

  method MergeArchive(s: State, data: seq<Incoming>, merge: Merge) returns (after: State)
    ensures after == Import(s, data, merge)
  {
    after := s;
    for n := 0 to |data|
      invariant after == Import(s, data[..n], merge)
    {
      assert data[..n + 1][..n] == data[..n];
      if data[n].coll !in UNMERGED {
        var rs := UpsertRecords(data[n].coll, Records(after, data[n].coll), data[n].records, merge);
        after := after[data[n].coll := rs];
      }
    }
    assert data[..|data|] == data;
  }

  // ----- The recorded steps -----

  function StepFor(before: State, after: State, c: Coll, r: Record): Option<RecordStep> {
    var previous, current := Find(Records(before, c), r.id), Find(Records(after, c), r.id);
    if current.None? || SameRecord(c, previous, current) then None
    else Some(RecordStep(c, r.id, if previous.Some? then Restore(previous.value) else Delete, current.value, None))
  }

  function StepsFor(before: State, after: State, c: Coll, incoming: seq<Record>): seq<RecordStep> {
    if incoming == [] then []
    else
      var last := StepFor(before, after, c, incoming[|incoming| - 1]);
      StepsFor(before, after, c, incoming[..|incoming| - 1]) + if last.Some? then [last.value] else []
  }

  function Steps(before: State, after: State, data: seq<Incoming>): seq<RecordStep> {
    if data == [] then []
    else
      var last := data[|data| - 1];
      Steps(before, after, data[..|data| - 1])
        + if last.coll == "campaignArchiveImportOperations" then []
          else StepsFor(before, after, last.coll, last.records)
  }

  method CreateRecordSteps(before: State, after: State, data: seq<Incoming>) returns (steps: seq<RecordStep>)
    ensures steps == Steps(before, after, data)
  {
    steps := [];
    for n := 0 to |data|
      invariant steps == Steps(before, after, data[..n])
    {
      assert data[..n + 1][..n] == data[..n];
      var c, incoming := data[n].coll, data[n].records;
      if c == "campaignArchiveImportOperations" { continue; }
      var more := StepsOfCollection(before, after, c, incoming);
      steps := steps + more;
    }
    assert data[..|data|] == data;
  }

  method StepsOfCollection(before: State, after: State, c: Coll, incoming: seq<Record>) returns (steps: seq<RecordStep>)
    ensures steps == StepsFor(before, after, c, incoming)
  {
    steps := [];
    for n := 0 to |incoming|
      invariant steps == StepsFor(before, after, c, incoming[..n])
    {
      assert incoming[..n + 1][..n] == incoming[..n];
      var previous := Find(Records(before, c), incoming[n].id);
      var current := Find(Records(after, c), incoming[n].id);
      if current.None? || SameRecord(c, previous, current) { continue; }
      var inverse := if previous.Some? then Restore(previous.value) else Delete;
      steps := steps + [RecordStep(c, incoming[n].id, inverse, current.value, None)];
    }
    assert incoming[..|incoming|] == incoming;
  }

  // ----- What the merge does to a collection -----

  ghost predicate HasId(rs: seq<Record>, id: Id) {
    exists r :: r in rs && r.id == id
  }

  /** Old records keep their places, changed only where an incoming id matches; the rest are new. */
  ghost predicate Shape(rs: seq<Record>, incoming: seq<Record>, out: seq<Record>) {
    && UniqueIds(out)
    && |rs| <= |out|
    && (forall i {:trigger out[i]} :: 0 <= i < |rs| ==>
          out[i].id == rs[i].id && (out[i] == rs[i] || HasId(incoming, rs[i].id)))
    && (forall i {:trigger out[i]} :: |rs| <= i < |out| ==> HasId(incoming, out[i].id) && !HasId(rs, out[i].id))
  }

  lemma {:induction false} UpsertShape(c: Coll, rs: seq<Record>, incoming: seq<Record>, merge: Merge)
    requires UniqueIds(rs) && KeepsIds(merge)
    ensures Shape(rs, incoming, Upsert(c, rs, incoming, merge))
  {
    if incoming != [] {
      var q, r := incoming[..|incoming| - 1], incoming[|incoming| - 1];
      UpsertShape(c, rs, q, merge);
      assert r in incoming;
      forall id | HasId(q, id) ensures HasId(incoming, id) {
        var x :| x in q && x.id == id;
        assert x in incoming;
      }
      UpsertOneShape(c, rs, q, incoming, r, Upsert(c, rs, q, merge), merge);
    }
  }

  lemma UpsertOneShape(c: Coll, rs: seq<Record>, q: seq<Record>, incoming: seq<Record>, r: Record, mid: seq<Record>,
    merge: Merge)
    requires KeepsIds(merge) && Shape(rs, q, mid) && r in incoming
    requires forall id :: HasId(q, id) ==> HasId(incoming, id)
    ensures Shape(rs, incoming, UpsertOne(c, mid, r, merge))
  {
    var out, n := UpsertOne(c, mid, r, merge), IndexOf(mid, r.id);
    if n < |mid| {
      assert forall i :: 0 <= i < |mid| ==> out[i].id == mid[i].id;
    } else {
      assert out[|mid|].id == r.id;
      forall i | 0 <= i < |rs| ensures rs[i].id != r.id { assert mid[i].id == rs[i].id; }
    }
  }

  /** What an import needs of its inputs: one entry per collection, ids unique in each. */
  ghost predicate Importable(s: State, data: seq<Incoming>) {
    && WellFormed(s)
    && (forall i, j {:trigger data[i].coll, data[j].coll} :: 0 <= i < j < |data| ==> data[i].coll != data[j].coll)
    && (forall i {:trigger data[i]} :: 0 <= i < |data| ==>
          data[i].coll in s && UniqueIds(data[i].records))
  }

  /** What the archive brings for a collection. */
  function Brought(data: seq<Incoming>, c: Coll): seq<Record> {
    if data == [] then [] else if data[|data| - 1].coll == c then data[|data| - 1].records
      else Brought(data[..|data| - 1], c)
  }

  /** What the merge takes of it. */
  function IncomingTo(data: seq<Incoming>, c: Coll): seq<Record> {
    if c in UNMERGED then [] else Brought(data, c)
  }

  lemma ImportablePrefix(s: State, data: seq<Incoming>)
    requires Importable(s, data) && data != []
    ensures Importable(s, data[..|data| - 1])
    ensures forall i :: 0 <= i < |data| - 1 ==> data[i].coll != data[|data| - 1].coll
  {
    var q := data[..|data| - 1];
    forall i | 0 <= i < |q| ensures q[i].coll in s && UniqueIds(q[i].records) { assert q[i] == data[i]; }
    forall i, j | 0 <= i < j < |q| ensures q[i].coll != q[j].coll { assert data[i].coll != data[j].coll; }
    forall i | 0 <= i < |data| - 1 ensures data[i].coll != data[|data| - 1].coll {
      assert data[|data| - 1].coll == data[|data| - 1].coll;
    }
  }

  lemma {:induction false} BroughtNowhere(data: seq<Incoming>, c: Coll)
    requires forall i :: 0 <= i < |data| ==> data[i].coll != c
    ensures Brought(data, c) == []
  {
    if data != [] { BroughtNowhere(data[..|data| - 1], c); }
  }

  /** Collection by collection, an import is one upsert of what the archive brings. */
  lemma {:induction false} ImportAt(s: State, data: seq<Incoming>, merge: Merge, c: Coll)
    requires Importable(s, data) && KeepsIds(merge) && c in s
    ensures Import(s, data, merge).Keys == s.Keys
    ensures Import(s, data, merge)[c] == Upsert(c, s[c], IncomingTo(data, c), merge)
    ensures UniqueIds(IncomingTo(data, c))
    ensures c in UNMERGED ==> Import(s, data, merge)[c] == s[c]
  {
    if data != [] {
      var q, last := data[..|data| - 1], data[|data| - 1];
      ImportablePrefix(s, data);
      ImportAt(s, q, merge, c);
      ImportAt(s, q, merge, last.coll);
      if last.coll == c { BroughtNowhere(q, c); }
    }
  }

  lemma ImportWellFormed(s: State, data: seq<Incoming>, merge: Merge)
    requires Importable(s, data) && KeepsIds(merge)
    ensures WellFormed(Import(s, data, merge))
  {
    var after := Import(s, data, merge);
    forall c | c in after ensures UniqueIds(after[c]) {
      if c !in s { ImportKeys(s, data, merge); }
      ImportAt(s, data, merge, c);
      UpsertShape(c, s[c], IncomingTo(data, c), merge);
    }
  }

  lemma {:induction false} ImportKeys(s: State, data: seq<Incoming>, merge: Merge)
    requires Importable(s, data)
    ensures Import(s, data, merge).Keys == s.Keys
  {
    if data != [] {
      ImportablePrefix(s, data);
      ImportKeys(s, data[..|data| - 1], merge);
      assert data[|data| - 1].coll in s;
    }
  }

  // ----- The steps recorded by an import -----

  lemma {:induction false} StepsForMember(before: State, after: State, c: Coll, incoming: seq<Record>, t: RecordStep)
    ensures t in StepsFor(before, after, c, incoming)
      <==> exists r :: r in incoming && StepFor(before, after, c, r) == Some(t)
  {
    if incoming != [] {
      var q, r := incoming[..|incoming| - 1], incoming[|incoming| - 1];
      StepsForMember(before, after, c, q, t);
      assert incoming == q + [r];
    }
  }

  lemma {:induction false} StepsBrought(s: State, after: State, data: seq<Incoming>, t: RecordStep)
    requires Importable(s, data)
    ensures t in Steps(s, after, data)
       <==> t.coll != "campaignArchiveImportOperations" && exists r ::
         r in Brought(data, t.coll) && StepFor(s, after, t.coll, r) == Some(t)
  {
    if data != [] {
      var q, last := data[..|data| - 1], data[|data| - 1];
      ImportablePrefix(s, data);
      StepsBrought(s, after, q, t);
      StepsForMember(s, after, last.coll, last.records, t);
      if last.coll == t.coll { BroughtNowhere(q, t.coll); }
    }
  }

  /** The recorded steps are exactly one per incoming record whose stored form changed. */
  lemma StepsMember(s: State, data: seq<Incoming>, merge: Merge, t: RecordStep)
    requires Importable(s, data) && KeepsIds(merge)
    ensures var after := Import(s, data, merge);
      t in Steps(s, after, data) <==>
        exists r :: r in IncomingTo(data, t.coll) && StepFor(s, after, t.coll, r) == Some(t)
  {
    var after := Import(s, data, merge);
    StepsBrought(s, after, data, t);
    if t.coll in UNMERGED {
      ImportKeys(s, data, merge);
      if t.coll in s { ImportAt(s, data, merge, t.coll); }
      assert Records(after, t.coll) == Records(s, t.coll);
    }
  }

  lemma NoStepFor(before: State, after: State, c: Coll, incoming: seq<Record>, id: Id)
    requires forall x | x in incoming :: x.id != id
    ensures forall i :: 0 <= i < |StepsFor(before, after, c, incoming)| ==>
      StepsFor(before, after, c, incoming)[i].Key() != (c, id)
  {
    var ts := StepsFor(before, after, c, incoming);
    forall i | 0 <= i < |ts| ensures ts[i].Key() != (c, id) {
      StepsForMember(before, after, c, incoming, ts[i]);
      var x :| x in incoming && StepFor(before, after, c, x) == Some(ts[i]);
    }
  }

  lemma {:induction false} StepsForUnique(before: State, after: State, c: Coll, incoming: seq<Record>)
    requires UniqueIds(incoming)
    ensures UniqueSteps(StepsFor(before, after, c, incoming))
  {
    if incoming != [] {
      var q, r := incoming[..|incoming| - 1], incoming[|incoming| - 1];
      StepsForUnique(before, after, c, q);
      forall x | x in q ensures x.id != r.id {
        var j :| 0 <= j < |q| && q[j] == x;
        assert incoming[j].id != incoming[|q|].id;
      }
      NoStepFor(before, after, c, q, r.id);
    }
  }

  ghost predicate KeysApart(a: seq<RecordStep>, b: seq<RecordStep>) {
    forall i, j :: 0 <= i < |a| && 0 <= j < |b| ==> a[i].Key() != b[j].Key()
  }

  /** The last part of the data is for a collection the parts before do not touch. */
  lemma StepsElsewhere(s: State, after: State, data: seq<Incoming>)
    requires Importable(s, data) && data != []
    ensures KeysApart(Steps(s, after, data[..|data| - 1]),
      StepsFor(s, after, data[|data| - 1].coll, data[|data| - 1].records))
  {
    var q, last := data[..|data| - 1], data[|data| - 1];
    ImportablePrefix(s, data);
    var a, b := Steps(s, after, q), StepsFor(s, after, last.coll, last.records);
    forall i | 0 <= i < |a| ensures a[i].coll != last.coll {
      StepsBrought(s, after, q, a[i]);
      BroughtNowhere(q, last.coll);
    }
    forall j | 0 <= j < |b| ensures b[j].coll == last.coll { StepsForMember(s, after, last.coll, last.records, b[j]); }
  }

  lemma {:induction false} StepsUnique(s: State, after: State, data: seq<Incoming>)
    requires Importable(s, data)
    ensures UniqueSteps(Steps(s, after, data))
  {
    if data != [] {
      var q, last := data[..|data| - 1], data[|data| - 1];
      ImportablePrefix(s, data);
      StepsUnique(s, after, q);
      StepsForUnique(s, after, last.coll, last.records);
      if last.coll == "campaignArchiveImportOperations" { return; }
      StepsElsewhere(s, after, data);
      AppendUniqueSteps(Steps(s, after, q), StepsFor(s, after, last.coll, last.records));
    }
  }

  lemma AppendUniqueSteps(a: seq<RecordStep>, b: seq<RecordStep>)
    requires UniqueSteps(a) && UniqueSteps(b)
    requires KeysApart(a, b)
    ensures UniqueSteps(a + b)
  {
    var all := a + b;
    forall i, j | 0 <= i < j < |all| ensures all[i].Key() != all[j].Key() {
      if j < |a| { assert a[i].Key() != a[j].Key(); }
      else if |a| <= i { assert b[i - |a|].Key() != b[j - |a|].Key(); }
      else { assert a[i].Key() != b[j - |a|].Key(); }
    }
  }
}
