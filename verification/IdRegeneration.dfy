/** Copying an archive under fresh ids: every string equal to a regenerated id is replaced. */
module IdRegeneration {
  import opened Json

  type Id = string
  type Coll = string
  type IdMap = map<Id, Id>

  datatype Record = Record(id: Id, body: Value)

  type Data = map<Coll, seq<Record>>

  function Renamed(m: IdMap, s: string): string { if s in m then m[s] else s }

  /** Replaces mapped strings wherever they occur; member names stay. */
  function Remap(v: Value, m: IdMap): Value
    decreases v, 1
  {
    match v
    case Text(s) => Text(Renamed(m, s))
    case Array(items) => Array(RemapItems(items, m))
    case Object(fields) => Object(RemapFields(fields, m))
    case _ => v
  }

  function RemapItems(items: seq<Value>, m: IdMap): seq<Value>
    decreases items, 0
  {
    if items == [] then [] else [Remap(items[0], m)] + RemapItems(items[1..], m)
  }

  function RemapFields(fields: seq<Field>, m: IdMap): seq<Field>
    decreases fields, 0
  {
    if fields == [] then [] else [Field(fields[0].key, Remap(fields[0].value, m))] + RemapFields(fields[1..], m)
  }

  function RemapRecord(r: Record, m: IdMap): Record { Record(Renamed(m, r.id), Remap(r.body, m)) }

  function RemapRecords(rs: seq<Record>, m: IdMap): (out: seq<Record>)
    ensures |out| == |rs| && forall i :: 0 <= i < |rs| ==> out[i] == RemapRecord(rs[i], m)
  {
    if rs == [] then [] else [RemapRecord(rs[0], m)] + RemapRecords(rs[1..], m)
  }

  function RemapData(d: Data, m: IdMap): Data {
    map c | c in d :: RemapRecords(d[c], m)
  }

  // ----- Strings that occur -----

  function Strings(v: Value): set<string>
    decreases v, 1
  {
    match v
    case Text(s) => {s}
    case Array(items) => ItemStrings(items)
    case Object(fields) => FieldStrings(fields)
    case _ => {}
  }

  function ItemStrings(items: seq<Value>): set<string>
    decreases items, 0
  {
    if items == [] then {} else Strings(items[0]) + ItemStrings(items[1..])
  }

  function FieldStrings(fields: seq<Field>): set<string>
    decreases fields, 0
  {
    if fields == [] then {} else Strings(fields[0].value) + FieldStrings(fields[1..])
  }

  function RecordStrings(r: Record): set<string> { {r.id} + Strings(r.body) }

  ghost predicate Occurs(d: Data, s: string) {
    exists c, i :: c in d && 0 <= i < |d[c]| && s in RecordStrings(d[c][i])
  }

  // ----- Maps of fresh ids -----

  ghost predicate Injective(m: IdMap) {
    forall a, b :: a in m && b in m && m[a] == m[b] ==> a == b
  }

  /** The new ids occur nowhere in the copied data. */
  ghost predicate FreshFor(m: IdMap, d: Data) {
    forall a :: a in m ==> !Occurs(d, m[a])
  }

  function Inverse(m: IdMap): IdMap
    requires Injective(m)
  {
    map b | b in m.Values :: Preimage(m, b)
  }

  function Preimage(m: IdMap, b: Id): (a: Id)
    requires Injective(m) && b in m.Values
    ensures a in m && m[a] == b
  {
    var a :| a in m && m[a] == b;
    a
  }

  /** One id per record with an id, in collection order; a repeated id keeps the last one. */
  method BuildIdMap(d: Data, colls: seq<Coll>, supply: seq<Id>) returns (m: IdMap)
    requires forall i, j :: 0 <= i < j < |supply| ==> supply[i] != supply[j]
    requires |supply| >= CountRecords(d, colls)
    ensures Injective(m) && m.Values <= (set i | 0 <= i < |supply| :: supply[i])
    ensures forall s :: s in m <==> s != "" && exists c :: c in colls && HasRecord(d, c, s)
  {
    m := map[];
    var used := 0;
    for n := 0 to |colls|
      invariant used == CountRecords(d, colls[..n]) <= |supply|
      invariant Supplied(m, supply[..used])
      invariant forall s :: s in m <==> s != "" && exists c :: c in colls[..n] && HasRecord(d, c, s)
    {
      var records := if colls[n] in d then d[colls[n]] else [];
      CountMore(d, colls, n);
      ghost var before := m;
      m, used := MapRecords(m, records, supply, used);
      forall s ensures s in m <==> s != "" && exists c :: c in colls[..n + 1] && HasRecord(d, c, s) {
        assert colls[..n + 1] == colls[..n] + [colls[n]];
        assert HasRecord(d, colls[n], s) <==> exists i :: 0 <= i < |records| && records[i].id == s;
      }
    }
    assert colls[..|colls|] == colls;
    assert forall s :: s in m ==> m[s] in supply[..used];
  }

  ghost predicate HasRecord(d: Data, c: Coll, id: Id) {
    c in d && exists i :: 0 <= i < |d[c]| && d[c][i].id == id
  }

  function CountRecords(d: Data, colls: seq<Coll>): nat {
    if colls == [] then 0
    else CountRecords(d, colls[..|colls| - 1]) + if colls[|colls| - 1] in d then |d[colls[|colls| - 1]]| else 0
  }

  lemma {:induction false} CountPrefix(d: Data, colls: seq<Coll>, n: nat)
    requires n <= |colls|
    ensures CountRecords(d, colls[..n]) <= CountRecords(d, colls)
    decreases |colls| - n
  {
    if n < |colls| {
      CountPrefix(d, colls, n + 1);
      assert colls[..n + 1][..n] == colls[..n];
    } else {
      assert colls[..n] == colls;
    }
  }

  lemma CountMore(d: Data, colls: seq<Coll>, n: nat)
    requires n < |colls|
    ensures CountRecords(d, colls[..n + 1]) == CountRecords(d, colls[..n]) + if colls[n] in d then |d[colls[n]]| else 0
    ensures CountRecords(d, colls[..n + 1]) <= CountRecords(d, colls)
  {
    assert colls[..n + 1][..n] == colls[..n];
    CountPrefix(d, colls, n + 1);
  }

  /** Different ids got different supplies. */
  ghost predicate Supplied(m: IdMap, supply: seq<Id>) {
    Injective(m) && forall a :: a in m ==> m[a] in supply
  }

  method MapRecords(m0: IdMap, records: seq<Record>, supply: seq<Id>, from: nat) returns (m: IdMap, used: nat)
    requires forall i, j :: 0 <= i < j < |supply| ==> supply[i] != supply[j]
    requires from + |records| <= |supply| && Supplied(m0, supply[..from])
    ensures used == from + |records| && Supplied(m, supply[..used])
    ensures forall s :: s in m <==> s in m0 || (s != "" && exists i :: 0 <= i < |records| && records[i].id == s)
  {
    m, used := m0, from;
    for n := 0 to |records|
      invariant used == from + n && Supplied(m, supply[..used])
      invariant forall s :: s in m <==> s in m0 || (s != "" && exists i :: 0 <= i < n && records[i].id == s)
    {
      assert supply[..used + 1] == supply[..used] + [supply[used]];
      assert supply[used] !in supply[..used];
      if records[n].id != "" { m := m[records[n].id := supply[used]]; }
      used := used + 1;
    }
  }

  // ----- The copy is the original under other names -----

  /** Nothing but texts may change. */
  predicate SameShape(v: Value, w: Value)
    decreases v, 1
  {
    match v
    case Text(_) => w.Text?
    case Array(items) => w.Array? && SameShapes(items, w.items)
    case Object(fields) => w.Object? && SameFieldShapes(fields, w.fields)
    case _ => v == w
  }

  predicate SameShapes(a: seq<Value>, b: seq<Value>)
    decreases a, 0
  {
    |a| == |b| && (a == [] || (SameShape(a[0], b[0]) && SameShapes(a[1..], b[1..])))
  }

  predicate SameFieldShapes(a: seq<Field>, b: seq<Field>)
    decreases a, 0
  {
    |a| == |b| && (a == []
      || (a[0].key == b[0].key && SameShape(a[0].value, b[0].value) && SameFieldShapes(a[1..], b[1..])))
  }

  lemma {:induction false} RemapShape(v: Value, m: IdMap)
    ensures SameShape(v, Remap(v, m))
    decreases v, 1
  {
    match v
    case Array(items) => RemapItemsShape(items, m);
    case Object(fields) => RemapFieldsShape(fields, m);
    case _ =>
  }

  lemma {:induction false} RemapItemsShape(items: seq<Value>, m: IdMap)
    ensures SameShapes(items, RemapItems(items, m))
    decreases items, 0
  {
    if items != [] {
      RemapShape(items[0], m);
      RemapItemsShape(items[1..], m);
      assert RemapItems(items, m)[1..] == RemapItems(items[1..], m);
    }
  }

  lemma {:induction false} RemapFieldsShape(fields: seq<Field>, m: IdMap)
    ensures SameFieldShapes(fields, RemapFields(fields, m))
    decreases fields, 0
  {
    if fields != [] {
      RemapShape(fields[0].value, m);
      RemapFieldsShape(fields[1..], m);
      assert RemapFields(fields, m)[1..] == RemapFields(fields[1..], m);
    }
  }

  ghost predicate FreshNames(m: IdMap, names: set<string>) {
    forall a :: a in m ==> m[a] !in names
  }

  lemma RenameBack(m: IdMap, s: string)
    requires Injective(m) && FreshNames(m, {s})
    ensures Renamed(Inverse(m), Renamed(m, s)) == s
  {
    if s in m {
      assert m[s] in m.Values;
    } else {
      forall a | a in m ensures m[a] != s { assert m[a] !in {s}; }
    }
  }

  /** Mapping back through the inverse recovers every value. */
  lemma {:induction false} RemapBack(v: Value, m: IdMap)
    requires Injective(m) && FreshNames(m, Strings(v))
    ensures Remap(Remap(v, m), Inverse(m)) == v
    decreases v, 1
  {
    match v
    case Text(s) => RenameBack(m, s);
    case Array(items) => RemapItemsBack(items, m);
    case Object(fields) => RemapFieldsBack(fields, m);
    case _ =>
  }

  lemma {:induction false} RemapItemsBack(items: seq<Value>, m: IdMap)
    requires Injective(m) && FreshNames(m, ItemStrings(items))
    ensures RemapItems(RemapItems(items, m), Inverse(m)) == items
    decreases items, 0
  {
    if items != [] {
      RemapBack(items[0], m);
      RemapItemsBack(items[1..], m);
      assert RemapItems(items, m)[1..] == RemapItems(items[1..], m);
    }
  }

  lemma {:induction false} RemapFieldsBack(fields: seq<Field>, m: IdMap)
    requires Injective(m) && FreshNames(m, FieldStrings(fields))
    ensures RemapFields(RemapFields(fields, m), Inverse(m)) == fields
    decreases fields, 0
  {
    if fields != [] {
      RemapBack(fields[0].value, m);
      RemapFieldsBack(fields[1..], m);
      assert RemapFields(fields, m)[1..] == RemapFields(fields[1..], m);
    }
  }

  /** The whole archive is recovered from its copy. */
  lemma CopyRecoversOriginal(d: Data, m: IdMap)
    requires Injective(m) && FreshFor(m, d)
    ensures RemapData(RemapData(d, m), Inverse(m)) == d
  {
    var e := RemapData(RemapData(d, m), Inverse(m));
    forall c | c in d ensures e[c] == d[c] {
      forall i | 0 <= i < |d[c]| ensures e[c][i] == d[c][i] {
        var r := d[c][i];
        forall s | s in RecordStrings(r) ensures Occurs(d, s) {}
        RenameBack(m, r.id);
        RemapBack(r.body, m);
      }
    }
  }

  lemma RenamedInjective(m: IdMap, a: string, b: string)
    requires Injective(m) && FreshNames(m, {a, b})
    ensures Renamed(m, a) == Renamed(m, b) <==> a == b
  {
    if a in m && b !in m { assert m[a] !in {a, b}; }
    if b in m && a !in m { assert m[b] !in {a, b}; }
  }

  /** The record an id stands for in a collection. */
  function Resolve(d: Data, c: Coll, id: Id): Option<Record> {
    if c in d then Lookup(d[c], id) else None
  }

  function Lookup(rs: seq<Record>, id: Id): Option<Record> {
    if rs == [] then None else if rs[0].id == id then Some(rs[0]) else Lookup(rs[1..], id)
  }

  lemma {:induction false} LookupRemapped(rs: seq<Record>, m: IdMap, id: Id)
    requires Injective(m) && FreshNames(m, {id})
    requires forall r :: r in rs ==> FreshNames(m, {r.id})
    ensures var found := Lookup(rs, id);
      Lookup(RemapRecords(rs, m), Renamed(m, id)) == if found.None? then None else Some(RemapRecord(found.value, m))
  {
    if rs != [] {
      assert rs[0] in rs;
      assert FreshNames(m, {rs[0].id, id}) by {
        forall a | a in m ensures m[a] !in {rs[0].id, id} { assert m[a] !in {rs[0].id} && m[a] !in {id}; }
      }
      RenamedInjective(m, rs[0].id, id);
      assert RemapRecords(rs, m)[1..] == RemapRecords(rs[1..], m);
      forall r | r in rs[1..] ensures FreshNames(m, {r.id}) { assert r in rs; }
      LookupRemapped(rs[1..], m, id);
    }
  }

  /** A reference resolves in the copy exactly when it did in the original, and to the copy
      of the same record: also when collections share ids. */
  lemma ReferencesCorrespond(d: Data, m: IdMap, c: Coll, id: Id)
    requires Injective(m) && FreshFor(m, d) && (Occurs(d, id) || FreshNames(m, {id}))
    ensures var found := Resolve(d, c, id);
      Resolve(RemapData(d, m), c, Renamed(m, id)) == if found.None? then None else Some(RemapRecord(found.value, m))
  {
    if c in d {
      forall r | r in d[c] ensures FreshNames(m, {r.id}) {
        var i :| 0 <= i < |d[c]| && d[c][i] == r;
        assert r.id in RecordStrings(d[c][i]);
        assert Occurs(d, r.id);
      }
      LookupRemapped(d[c], m, id);
    }
  }

  /** Ids stay unique within every collection. */
  lemma CopyKeepsUnique(d: Data, m: IdMap, c: Coll, i: nat, j: nat)
    requires Injective(m) && FreshFor(m, d) && c in d && i < |d[c]| && j < |d[c]|
    ensures RemapData(d, m)[c][i].id == RemapData(d, m)[c][j].id <==> d[c][i].id == d[c][j].id
  {
    assert d[c][i].id in RecordStrings(d[c][i]) && d[c][j].id in RecordStrings(d[c][j]);
    assert Occurs(d, d[c][i].id) && Occurs(d, d[c][j].id);
    RenamedInjective(m, d[c][i].id, d[c][j].id);
  }

  /** The copied records mention none of the regenerated ids. */
  lemma {:induction false} CopyForgets(v: Value, m: IdMap, source: Id)
    requires source in m && (forall a :: a in m ==> m[a] != source)
    ensures source !in Strings(Remap(v, m))
    decreases v, 1
  {
    match v
    case Array(items) => CopyForgetsItems(items, m, source);
    case Object(fields) => CopyForgetsFields(fields, m, source);
    case _ =>
  }

  lemma {:induction false} CopyForgetsItems(items: seq<Value>, m: IdMap, source: Id)
    requires source in m && (forall a :: a in m ==> m[a] != source)
    ensures source !in ItemStrings(RemapItems(items, m))
    decreases items, 0
  {
    if items != [] {
      CopyForgets(items[0], m, source);
      CopyForgetsItems(items[1..], m, source);
      assert RemapItems(items, m)[1..] == RemapItems(items[1..], m);
    }
  }

  lemma {:induction false} CopyForgetsFields(fields: seq<Field>, m: IdMap, source: Id)
    requires source in m && (forall a :: a in m ==> m[a] != source)
    ensures source !in FieldStrings(RemapFields(fields, m))
    decreases fields, 0
  {
    if fields != [] {
      CopyForgets(fields[0].value, m, source);
      CopyForgetsFields(fields[1..], m, source);
      assert RemapFields(fields, m)[1..] == RemapFields(fields[1..], m);
    }
  }

  // ----- The copy, text by text -----

  /** The texts of a value, in order. */
  function TextsOf(v: Value): seq<string>
    decreases v, 1
  {
    match v
    case Text(s) => [s]
    case Array(items) => ItemTexts(items)
    case Object(fields) => FieldTexts(fields)
    case _ => []
  }

  function ItemTexts(items: seq<Value>): seq<string>
    decreases items, 0
  {
    if items == [] then [] else TextsOf(items[0]) + ItemTexts(items[1..])
  }

  function FieldTexts(fields: seq<Field>): seq<string>
    decreases fields, 0
  {
    if fields == [] then [] else TextsOf(fields[0].value) + FieldTexts(fields[1..])
  }

  /** Text by text, the mapped ones under their new names and the others as they were. */
  ghost predicate Renames(a: seq<string>, b: seq<string>, m: IdMap) {
    && |b| == |a|
    && forall k :: 0 <= k < |a| ==> if a[k] in m then b[k] == m[a[k]] else b[k] == a[k]
  }

  lemma RenamesBoth(a: seq<string>, b: seq<string>, c: seq<string>, d: seq<string>, m: IdMap)
    requires Renames(a, b, m) && Renames(c, d, m)
    ensures Renames(a + c, b + d, m)
  {}

  lemma {:induction false} RemapRenames(v: Value, m: IdMap)
    ensures Renames(TextsOf(v), TextsOf(Remap(v, m)), m)
    decreases v, 1
  {
    match v
    case Array(items) => RemapItemsRename(items, m);
    case Object(fields) => RemapFieldsRename(fields, m);
    case _ =>
  }

  lemma {:induction false} RemapItemsRename(items: seq<Value>, m: IdMap)
    ensures Renames(ItemTexts(items), ItemTexts(RemapItems(items, m)), m)
    decreases items, 0
  {
    if items != [] {
      RemapRenames(items[0], m);
      RemapItemsRename(items[1..], m);
      assert RemapItems(items, m)[1..] == RemapItems(items[1..], m);
      RenamesBoth(TextsOf(items[0]), TextsOf(Remap(items[0], m)), ItemTexts(items[1..]),
        ItemTexts(RemapItems(items[1..], m)), m);
    }
  }

  lemma {:induction false} RemapFieldsRename(fields: seq<Field>, m: IdMap)
    ensures Renames(FieldTexts(fields), FieldTexts(RemapFields(fields, m)), m)
    decreases fields, 0
  {
    if fields != [] {
      RemapRenames(fields[0].value, m);
      RemapFieldsRename(fields[1..], m);
      assert RemapFields(fields, m)[1..] == RemapFields(fields[1..], m);
      RenamesBoth(TextsOf(fields[0].value), TextsOf(Remap(fields[0].value, m)), FieldTexts(fields[1..]),
        FieldTexts(RemapFields(fields[1..], m)), m);
    }
  }

  /** Every record of the archive is copied: the same structure, every mapped text under its new
      name, all others as they were. */
  lemma CopyRenames(d: Data, m: IdMap, c: Coll, i: nat)
    requires c in d && i < |d[c]|
    ensures RemapData(d, m).Keys == d.Keys && |RemapData(d, m)[c]| == |d[c]|
    ensures var r, copy := d[c][i], RemapData(d, m)[c][i];
      && Renames([r.id], [copy.id], m)
      && SameShape(r.body, copy.body) && Renames(TextsOf(r.body), TextsOf(copy.body), m)
  {
    RemapShape(d[c][i].body, m);
    RemapRenames(d[c][i].body, m);
  }
}
