/** Engine state as the import recovery sees it: named collections of JSON records, the
    inverse steps an import records, and the effect of applying a set of them. */
module RecoveryState {
  import opened Json
  import opened Sequences

  type Id = string
  type Coll = string

  /** A stored record. `id` and the revision stamp are kept apart from the other members. */
  datatype Record = Record(id: Id, updatedAt: int, fields: seq<Field>)

  type State = map<Coll, seq<Record>>

  /** Collections whose mentions of an id never block a rollback. */
  const OPERATIONAL: set<Coll> :=
    {"auditLogs", "campaignArchiveImportOperations", "campaignWebhookDeliveries", "idempotencyRecords", "jobs"}

  function Records(s: State, c: Coll): seq<Record> {
    if c in s then s[c] else []
  }

  ghost predicate UniqueIds(rs: seq<Record>) {
    forall i, j :: 0 <= i < j < |rs| ==> rs[i].id != rs[j].id
  }

  ghost predicate WellFormed(s: State) {
    forall c :: c in s ==> UniqueIds(s[c])
  }

  /** `findIndex` by id; the length when absent. */
  function IndexOf(rs: seq<Record>, id: Id): (n: nat)
    ensures n <= |rs|
    ensures n < |rs| ==> rs[n].id == id
    ensures forall i :: 0 <= i < n ==> rs[i].id != id
  {
    if rs == [] then 0 else if rs[0].id == id then 0 else 1 + IndexOf(rs[1..], id)
  }

  function Find(rs: seq<Record>, id: Id): (r: Option<Record>)
    ensures r.Some? ==> r.value in rs && r.value.id == id
    ensures r.None? ==> forall x :: x in rs ==> x.id != id
  {
    var n := IndexOf(rs, id);
    if n < |rs| then Some(rs[n]) else None
  }

  lemma FindUnique(rs: seq<Record>, r: Record)
    requires UniqueIds(rs) && r in rs
    ensures Find(rs, r.id) == Some(r)
  {
    var n := IndexOf(rs, r.id);
    var i :| 0 <= i < |rs| && rs[i] == r;
    assert n == i;
  }

  // ----- Mentions of an id -----

  /** Some string inside `v` other than a member named "id" equals `id`. */
  predicate Mentions(v: Value, id: Id, key: Option<string>) {
    match v
    case Text(s) => key != Some("id") && s == id
    case Array(items) => exists i :: 0 <= i < |items| && Mentions(items[i], id, None)
    case Object(fields) => FieldsMention(fields, id)
    case _ => false
  }

  predicate FieldsMention(fields: seq<Field>, id: Id) {
    exists i :: 0 <= i < |fields| && Mentions(fields[i].value, id, Some(fields[i].key))
  }

  predicate RecordsMention(rs: seq<Record>, id: Id) {
    exists i :: 0 <= i < |rs| && FieldsMention(rs[i].fields, id)
  }

  predicate StateMentions(s: State, id: Id) {
    exists c :: c in s && c !in OPERATIONAL && RecordsMention(s[c], id)
  }

  /** The text at a path into the value, and the member name its last step goes through. */
  ghost predicate TextAt(v: Value, key: Option<string>, path: seq<nat>, text: string, last: Option<string>) {
    if path == [] then v == Text(text) && last == key
    else
      match v
      case Array(items) => path[0] < |items| && TextAt(items[path[0]], None, path[1..], text, last)
      case Object(fields) =>
        path[0] < |fields| && TextAt(fields[path[0]].value, Some(fields[path[0]].key), path[1..], text, last)
      case _ => false
  }

  ghost predicate NamedAt(v: Value, id: Id, key: Option<string>, path: seq<nat>, last: Option<string>) {
    TextAt(v, key, path, id, last) && last != Some("id")
  }

  /** A value mentions an id exactly when the id is the text at some path whose last step is not
      through a member named "id". */
  lemma {:induction false} MentionsIff(v: Value, id: Id, key: Option<string>)
    ensures Mentions(v, id, key) <==> exists path, last :: NamedAt(v, id, key, path, last)
  {
    if path, last :| NamedAt(v, id, key, path, last) { PathMentions(v, id, key, path, last); }
    if Mentions(v, id, key) { var path, last := MentionedAt(v, id, key); }
  }

  lemma {:induction false} PathMentions(v: Value, id: Id, key: Option<string>, path: seq<nat>, last: Option<string>)
    requires NamedAt(v, id, key, path, last)
    ensures Mentions(v, id, key)
    decreases |path|
  {
    if path != [] {
      match v
      case Array(items) => PathMentions(items[path[0]], id, None, path[1..], last);
      case Object(fields) => PathMentions(fields[path[0]].value, id, Some(fields[path[0]].key), path[1..], last);
    }
  }

  lemma {:induction false} MentionedAt(v: Value, id: Id, key: Option<string>)
    returns (path: seq<nat>, last: Option<string>)
    requires Mentions(v, id, key)
    ensures NamedAt(v, id, key, path, last)
  {
    match v
    case Text(_) => path, last := [], key;
    case Array(items) =>
      var i: nat :| i < |items| && Mentions(items[i], id, None);
      var rest;
      rest, last := MentionedAt(items[i], id, None);
      path := [i] + rest;
    case Object(fields) =>
      var i: nat :| i < |fields| && Mentions(fields[i].value, id, Some(fields[i].key));
      var rest;
      rest, last := MentionedAt(fields[i].value, id, Some(fields[i].key));
      path := [i] + rest;
  }

  // ----- Sameness: member order and undefined members never matter -----

  /** Record equality as the recovery tests it; a campaign's revision stamp is ignored. */
  predicate SameRecord(c: Coll, a: Option<Record>, b: Option<Record>) {
    if a.None? || b.None? then a.None? && b.None?
    else
      && a.value.id == b.value.id
      && CanonicalFields(a.value.fields) == CanonicalFields(b.value.fields)
      && (c == "campaigns" || a.value.updatedAt == b.value.updatedAt)
  }

  lemma {:induction false} CanonicalMentions(v: Value, id: Id, key: Option<string>)
    ensures Mentions(Canonical(v), id, key) == Mentions(v, id, key)
    decreases v, 1
  {
    match v
    case Array(items) =>
      CanonicalItemsAt(items);
      forall i | 0 <= i < |items|
        ensures Mentions(CanonicalItems(items)[i], id, None) == Mentions(items[i], id, None)
      {
        CanonicalMentions(items[i], id, None);
      }
    case Object(fields) => CanonicalFieldsMention(fields, id);
    case _ =>
  }

  lemma {:induction false} CanonicalItemsAt(items: seq<Value>)
    ensures forall i :: 0 <= i < |items| ==> CanonicalItems(items)[i] == Canonical(items[i])
  {
    if items != [] { CanonicalItemsAt(items[1..]); }
  }

  lemma {:induction false} CanonicalFieldsMention(fields: seq<Field>, id: Id)
    ensures FieldsMention(CanonicalFields(fields), id) == FieldsMention(fields, id)
    decreases fields, 0
  {
    if fields == [] {
    } else {
      var f := fields[0];
      var rest := CanonicalFields(fields[1..]);
      CanonicalFieldsMention(fields[1..], id);
      CanonicalMentions(f.value, id, Some(f.key));
      FieldsMentionSplit(fields, id);
      if f.value != Undefined {
        var g := Field(f.key, Canonical(f.value));
        var all := Insert(g, rest);
        InsertKeeps(g, rest);
        forall h ensures h in all <==> h == g || h in rest {
          assert h in multiset(all) <==> h == g || h in multiset(rest);
        }
        MentionByMembers(all, [g] + rest, id);
        FieldsMentionSplit([g] + rest, id);
        assert ([g] + rest)[1..] == rest;
      }
    }
  }

  lemma FieldsMentionSplit(fields: seq<Field>, id: Id)
    requires fields != []
    ensures FieldsMention(fields, id)
        <==> Mentions(fields[0].value, id, Some(fields[0].key)) || FieldsMention(fields[1..], id)
  {
    if FieldsMention(fields, id) {
      var i :| 0 <= i < |fields| && Mentions(fields[i].value, id, Some(fields[i].key));
      if i > 0 { assert fields[i] == fields[1..][i - 1]; }
    }
    if FieldsMention(fields[1..], id) {
      var i :| 0 <= i < |fields[1..]| && Mentions(fields[1..][i].value, id, Some(fields[1..][i].key));
      assert fields[i + 1] == fields[1..][i];
    }
  }

  lemma MentionByMembers(a: seq<Field>, b: seq<Field>, id: Id)
    requires forall h :: h in a <==> h in b
    ensures FieldsMention(a, id) == FieldsMention(b, id)
  {
    if FieldsMention(a, id) {
      var i :| 0 <= i < |a| && Mentions(a[i].value, id, Some(a[i].key));
      assert a[i] in b;
      var j :| 0 <= j < |b| && b[j] == a[i];
    }
    if FieldsMention(b, id) {
      var i :| 0 <= i < |b| && Mentions(b[i].value, id, Some(b[i].key));
      assert b[i] in a;
      var j :| 0 <= j < |a| && a[j] == b[i];
    }
  }

  /** Records the recovery calls the same mention the same ids. */
  lemma SameRecordsMentionSame(c: Coll, a: Record, b: Record, id: Id)
    requires SameRecord(c, Some(a), Some(b))
    ensures FieldsMention(a.fields, id) == FieldsMention(b.fields, id)
  {
    CanonicalFieldsMention(a.fields, id);
    CanonicalFieldsMention(b.fields, id);
  }

  // ----- Applying inverse steps -----

  type Key = (Coll, Id)

  /** The effect of a set of inverse steps: None deletes the record, Some puts it back. */
  type Effect = map<Key, Option<Record>>

  ghost predicate EffectKeepsIds(e: Effect) {
    forall k :: k in e && e[k].Some? ==> e[k].value.id == k.1
  }

  /** All effects on one collection at once, keeping the order of the survivors. */
  function Rewrite(rs: seq<Record>, c: Coll, e: Effect): seq<Record> {
    if rs == [] then [] else RewriteRecord(rs[0], c, e) + Rewrite(rs[1..], c, e)
  }

  function RewriteRecord(r: Record, c: Coll, e: Effect): seq<Record> {
    if (c, r.id) !in e then [r] else match e[(c, r.id)] case None => [] case Some(b) => [b]
  }

  function RewriteState(s: State, e: Effect): State {
    map c | c in s :: Rewrite(s[c], c, e)
  }

  /** One step as the loops apply it: splice out, overwrite in place, or push. */
  function ApplyOne(rs: seq<Record>, id: Id, inverse: Option<Record>): seq<Record> {
    var n := IndexOf(rs, id);
    match inverse
    case None => if n < |rs| then rs[..n] + rs[n + 1..] else rs
    case Some(b) => if n < |rs| then rs[n := b] else rs + [b]
  }

  lemma {:induction false} RewriteMember(rs: seq<Record>, c: Coll, e: Effect, r: Record)
    ensures r in Rewrite(rs, c, e)
       <==> exists x :: x in rs && if (c, x.id) in e then e[(c, x.id)] == Some(r) else x == r
  {
    if rs != [] {
      RewriteMember(rs[1..], c, e, r);
      assert rs == [rs[0]] + rs[1..];
    }
  }

  lemma {:induction false} RewriteUnique(rs: seq<Record>, c: Coll, e: Effect)
    requires UniqueIds(rs) && EffectKeepsIds(e)
    ensures UniqueIds(Rewrite(rs, c, e))
  {
    if rs != [] {
      var rest := Rewrite(rs[1..], c, e);
      RewriteUnique(rs[1..], c, e);
      forall i | 0 <= i < |rest| ensures rest[i].id != rs[0].id {
        RewriteMember(rs[1..], c, e, rest[i]);
        assert rest[i] in rest;
      }
    }
  }

  lemma {:induction false} RewriteAppend(a: seq<Record>, b: seq<Record>, c: Coll, e: Effect)
    ensures Rewrite(a + b, c, e) == Rewrite(a, c, e) + Rewrite(b, c, e)
  {
    if a == [] {
      assert a + b == b;
    } else {
      RewriteAppend(a[1..], b, c, e);
      assert (a + b)[1..] == a[1..] + b;
      Regrouped(RewriteRecord(a[0], c, e), Rewrite(a[1..], c, e), Rewrite(b, c, e));
    }
  }

  lemma {:induction false} RewriteNone(rs: seq<Record>, c: Coll, e: Effect)
    requires forall x :: x in rs ==> (c, x.id) !in e
    ensures Rewrite(rs, c, e) == rs
  {
    if rs != [] {
      assert rs[0] in rs;
      forall x | x in rs[1..] ensures (c, x.id) !in e { assert x in rs; }
      RewriteNone(rs[1..], c, e);
    }
  }

  lemma DropTail(rs: seq<Record>, n: nat)
    requires n + 1 < |rs|
    ensures rs[..n + 1] + rs[n + 2..] == [rs[0]] + (rs[1..][..n] + rs[1..][n + 1..])
  {}

  lemma UpdateTail(rs: seq<Record>, n: nat, b: Record)
    requires n + 1 < |rs|
    ensures rs[n + 1 := b] == [rs[0]] + rs[1..][n := b]
  {}

  lemma ApplyOneTail(rs: seq<Record>, id: Id, inverse: Option<Record>)
    requires rs != [] && rs[0].id != id && IndexOf(rs, id) < |rs|
    ensures ApplyOne(rs, id, inverse) == [rs[0]] + ApplyOne(rs[1..], id, inverse)
  {
    var n := IndexOf(rs[1..], id);
    assert IndexOf(rs, id) == n + 1;
    if inverse.None? { DropTail(rs, n); } else { UpdateTail(rs, n, inverse.value); }
  }

  lemma ApplyOneHead(rs: seq<Record>, c: Coll, id: Id, inverse: Option<Record>)
    requires UniqueIds(rs) && rs != [] && rs[0].id == id
    ensures ApplyOne(rs, id, inverse) == Rewrite(rs, c, map[(c, id) := inverse])
  {
    var rest := rs[1..];
    forall x | x in rest ensures (c, x.id) !in map[(c, id) := inverse] {
      var i :| 0 <= i < |rest| && rest[i] == x;
      assert rs[i + 1] == x;
    }
    RewriteNone(rest, c, map[(c, id) := inverse]);
    if inverse.None? { assert rs[..0] + rs[1..] == rest; } else {
      assert rs[0 := inverse.value] == [inverse.value] + rest;
    }
  }

  /** A single in-place step on a record that is there is the simultaneous rewrite by it. */
  lemma {:induction false} ApplyOneIsRewrite(rs: seq<Record>, c: Coll, id: Id, inverse: Option<Record>)
    requires UniqueIds(rs)
    requires IndexOf(rs, id) < |rs|
    ensures ApplyOne(rs, id, inverse) == Rewrite(rs, c, map[(c, id) := inverse])
  {
    if rs[0].id == id {
      ApplyOneHead(rs, c, id, inverse);
    } else {
      ApplyOneIsRewrite(rs[1..], c, id, inverse);
      ApplyOneTail(rs, id, inverse);
      assert RewriteRecord(rs[0], c, map[(c, id) := inverse]) == [rs[0]];
    }
  }

  lemma RewriteRecordTwice(r: Record, c: Coll, e: Effect, f: Effect)
    requires e.Keys !! f.Keys && EffectKeepsIds(e)
    ensures Rewrite(RewriteRecord(r, c, e), c, f) == RewriteRecord(r, c, e + f)
  {}

  /** Rewriting twice with steps for different records is rewriting once with both. */
  lemma {:induction false} RewriteTwice(rs: seq<Record>, c: Coll, e: Effect, f: Effect)
    requires e.Keys !! f.Keys && EffectKeepsIds(e)
    ensures Rewrite(Rewrite(rs, c, e), c, f) == Rewrite(rs, c, e + f)
  {
    if rs != [] {
      RewriteTwice(rs[1..], c, e, f);
      RewriteAppend(RewriteRecord(rs[0], c, e), Rewrite(rs[1..], c, e), c, f);
      RewriteRecordTwice(rs[0], c, e, f);
    }
  }

  /** A further in-place step composes with the simultaneous rewrite so far. */
  lemma RewriteOneMore(rs: seq<Record>, c: Coll, e: Effect, id: Id, inverse: Option<Record>)
    requires UniqueIds(rs) && IndexOf(rs, id) < |rs|
    requires EffectKeepsIds(e) && (c, id) !in e
    ensures ApplyOne(Rewrite(rs, c, e), id, inverse) == Rewrite(rs, c, e + map[(c, id) := inverse])
  {
    var here := Rewrite(rs, c, e);
    assert IndexOf(here, id) < |here| by {
      RewriteMember(rs, c, e, rs[IndexOf(rs, id)]);
    }
    RewriteUnique(rs, c, e);
    ApplyOneIsRewrite(here, c, id, inverse);
    RewriteTwice(rs, c, e, map[(c, id) := inverse]);
  }

  lemma {:induction false} RewriteElsewhere(rs: seq<Record>, c: Coll, e: Effect, k: Key, inverse: Option<Record>)
    requires k.0 != c
    ensures Rewrite(rs, c, e + map[k := inverse]) == Rewrite(rs, c, e)
  {
    if rs != [] { RewriteElsewhere(rs[1..], c, e, k, inverse); }
  }

  /** An effect that removes less keeps every record the other one keeps. */
  lemma RewriteWider(rs: seq<Record>, c: Coll, e: Effect, f: Effect, r: Record)
    requires forall k :: k in e ==> k in f && e[k] == f[k]
    requires forall k :: k in f && k !in e ==> f[k].None?
    requires r in Rewrite(rs, c, f)
    ensures r in Rewrite(rs, c, e)
  {
    RewriteMember(rs, c, f, r);
    var x :| x in rs && if (c, x.id) in f then f[(c, x.id)] == Some(r) else x == r;
    RewriteMember(rs, c, e, r);
  }
}
