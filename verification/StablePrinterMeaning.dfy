/** Which values the stable printer identifies: those that differ only in the order of members
    and in undefined members. */
module StablePrinterMeaning {
  import opened Json
  import opened StablePrinter

  /** The value of a member; an undefined member counts as absent. */
  function Member(fields: seq<Field>, key: string): (r: Option<Value>)
    ensures r.Some? ==> r.value != Undefined && exists i :: 0 <= i < |fields| && fields[i] == Field(key, r.value)
  {
    if fields == [] then None
    else if fields[0].key == key && fields[0].value != Undefined then Some(fields[0].value)
    else Member(fields[1..], key)
  }

  predicate DistinctKeys(fields: seq<Field>) {
    forall i, j :: 0 <= i < j < |fields| ==> fields[i].key != fields[j].key
  }

  /** No object has two members of one name. */
  ghost predicate WellKeyed(v: Value)
    decreases v
  {
    match v
    case Array(items) => forall i :: 0 <= i < |items| ==> WellKeyed(items[i])
    case Object(fields) => DistinctKeys(fields) && forall i :: 0 <= i < |fields| ==> WellKeyed(fields[i].value)
    case _ => true
  }

  /** Equal but for the order of members and for undefined members. */
  ghost predicate Same(v: Value, w: Value)
    decreases v
  {
    match v
    case Array(items) => w.Array? && |items| == |w.items| && forall i :: 0 <= i < |items| ==> Same(items[i], w.items[i])
    case Object(fields) => w.Object? && forall k :: SameMember(v, w, k)
    case _ => v == w
  }

  ghost predicate SameMember(v: Value, w: Value, k: string)
    requires v.Object? && w.Object?
    decreases v, 0
  {
    var a, b := Member(v.fields, k), Member(w.fields, k);
    if a.None? || b.None? then a == b else (a.value < v) && Same(a.value, b.value)
  }

  lemma MemberIsPart(fields: seq<Field>, k: string)
    requires Member(fields, k).Some?
    ensures Member(fields, k).value < Object(fields)
  {}

  lemma {:induction false} MemberAbsent(fields: seq<Field>, k: string)
    requires forall i :: 0 <= i < |fields| ==> fields[i].key != k
    ensures Member(fields, k).None?
  {
    if fields != [] { MemberAbsent(fields[1..], k); }
  }

  lemma {:induction false} MemberInserted(f: Field, sorted: seq<Field>, k: string)
    requires f.value != Undefined && forall i :: 0 <= i < |sorted| ==> sorted[i].key != f.key
    ensures Member(Insert(f, sorted), k) == if k == f.key then Some(f.value) else Member(sorted, k)
  {
    if sorted != [] && !Leq(f.key, sorted[0].key) {
      MemberInserted(f, sorted[1..], k);
      assert Insert(f, sorted)[1..] == Insert(f, sorted[1..]);
    } else {
      assert Insert(f, sorted)[1..] == sorted;
      if k == f.key { MemberAbsent(sorted, k); }
    }
  }

  lemma {:induction false} InsertedKeys(f: Field, sorted: seq<Field>)
    requires DistinctKeys(sorted) && forall i :: 0 <= i < |sorted| ==> sorted[i].key != f.key
    ensures DistinctKeys(Insert(f, sorted))
    ensures forall g <- Insert(f, sorted) :: g == f || g in sorted
  {
    if sorted != [] && !Leq(f.key, sorted[0].key) {
      InsertedKeys(f, sorted[1..]);
      var rest := Insert(f, sorted[1..]);
      assert Insert(f, sorted) == [sorted[0]] + rest;
      forall j | 0 <= j < |rest| ensures rest[j].key != sorted[0].key { assert rest[j] == f || rest[j] in sorted[1..]; }
    }
  }

  ghost predicate AllDefined(fields: seq<Field>) { forall f <- fields :: f.value != Undefined }

  ghost predicate KeysFrom(a: seq<Field>, b: seq<Field>) { forall f <- a :: exists g <- b :: g.key == f.key }

  /** The canonical members: sorted, each name once, none undefined, each the canonical form of the original. */
  lemma {:induction false} CanonicalMembers(fields: seq<Field>)
    requires DistinctKeys(fields)
    ensures Sorted(CanonicalFields(fields)) && DistinctKeys(CanonicalFields(fields))
      && AllDefined(CanonicalFields(fields))
    ensures KeysFrom(CanonicalFields(fields), fields)
    ensures forall k :: Member(CanonicalFields(fields), k) == MapOption(Member(fields, k))
  {
    if fields != [] {
      CanonicalMembers(fields[1..]);
      var rest, f := CanonicalFields(fields[1..]), Field(fields[0].key, Canonical(fields[0].value));
      forall g <- rest ensures g.key != f.key && exists h <- fields :: h.key == g.key {
        var h :| h in fields[1..] && h.key == g.key;
        assert h in fields;
      }
      forall k ensures Member(fields, k) == if fields[0].key == k && fields[0].value != Undefined then
        Some(fields[0].value) else Member(fields[1..], k) {}
      if fields[0].value != Undefined {
        assert fields[0] in fields;
        InsertSorted(f, rest);
        InsertedKeys(f, rest);
        forall k ensures Member(Insert(f, rest), k) == MapOption(Member(fields, k)) { MemberInserted(f, rest, k); }
      }
    }
  }

  function MapOption(o: Option<Value>): Option<Value> { if o.None? then None else Some(Canonical(o.value)) }

  lemma {:induction false} SortedFirst(a: seq<Field>, k: string)
    requires a != [] && Sorted(a) && AllDefined(a) && Member(a, k).Some?
    ensures Leq(a[0].key, k)
  {
    LeqTotal(a[0].key, a[0].key);
    var i :| 0 <= i < |a| && a[i].key == k;
    assert i == 0 || Leq(a[0].key, a[i].key);
  }

  lemma FirstMember(a: seq<Field>)
    requires a != [] && AllDefined(a)
    ensures Member(a, a[0].key) == Some(a[0].value)
  {
    assert a[0] in a;
  }

  /** Sorted members are determined by what each name stands for. */
  lemma {:induction false} SortedMembersEqual(a: seq<Field>, b: seq<Field>)
    requires Sorted(a) && Sorted(b) && DistinctKeys(a) && DistinctKeys(b) && AllDefined(a) && AllDefined(b)
    requires forall k :: Member(a, k) == Member(b, k)
    ensures a == b
  {
    if a != [] { FirstMember(a); }
    if b != [] { FirstMember(b); }
    if a != [] && b != [] {
      SortedFirst(a, b[0].key);
      SortedFirst(b, a[0].key);
      LeqTotal(a[0].key, b[0].key);
      assert a[0] == b[0];
      forall k ensures Member(a[1..], k) == Member(b[1..], k) {
        if k == a[0].key {
          MemberAbsent(a[1..], k);
          MemberAbsent(b[1..], k);
        } else {
          assert Member(a, k) == Member(b, k);
        }
      }
      forall f <- a[1..] ensures f.value != Undefined { assert f in a; }
      forall f <- b[1..] ensures f.value != Undefined { assert f in b; }
      SortedMembersEqual(a[1..], b[1..]);
    }
  }

  lemma {:induction false} CanonicalItemAt(items: seq<Value>, i: nat)
    requires i < |items|
    ensures CanonicalItems(items)[i] == Canonical(items[i])
  {
    if i > 0 { CanonicalItemAt(items[1..], i - 1); }
  }

  /** The canonical forms agree exactly for values that are the same. */
  lemma {:induction false} CanonicalIffSame(v: Value, w: Value)
    requires WellKeyed(v) && WellKeyed(w)
    ensures Canonical(v) == Canonical(w) <==> Same(v, w)
    decreases v
  {
    if v.Array? && w.Array? {
      CanonicalArrays(v, w);
    } else if v.Object? && w.Object? {
      CanonicalObjects(v, w);
    }
  }

  lemma {:induction false} CanonicalArrays(v: Value, w: Value)
    requires v.Array? && w.Array? && WellKeyed(v) && WellKeyed(w)
    ensures Canonical(v) == Canonical(w) <==> Same(v, w)
    decreases v, 0
  {
    var a, b := CanonicalItems(v.items), CanonicalItems(w.items);
    if |a| == |b| {
      forall i | 0 <= i < |a| ensures a[i] == b[i] <==> Same(v.items[i], w.items[i]) {
        CanonicalItemAt(v.items, i);
        CanonicalItemAt(w.items, i);
        CanonicalIffSame(v.items[i], w.items[i]);
      }
    }
  }

  lemma {:induction false} CanonicalObjects(v: Value, w: Value)
    requires v.Object? && w.Object? && WellKeyed(v) && WellKeyed(w)
    ensures Canonical(v) == Canonical(w) <==> Same(v, w)
    decreases v, 0
  {
    var a, b := CanonicalFields(v.fields), CanonicalFields(w.fields);
    CanonicalMembers(v.fields);
    CanonicalMembers(w.fields);
    forall k ensures Member(a, k) == Member(b, k) <==> SameMember(v, w, k) {
      var x, y := Member(v.fields, k), Member(w.fields, k);
      if x.Some? && y.Some? {
        MemberIsPart(v.fields, k);
        CanonicalIffSame(x.value, y.value);
      }
    }
    if Same(v, w) { SortedMembersEqual(a, b); }
  }

  // ----- Lists without holes -----

  /** No list holds an undefined value. */
  ghost predicate NoHoles(v: Value)
    decreases v
  {
    match v
    case Array(items) => forall i :: 0 <= i < |items| ==> items[i] != Undefined && NoHoles(items[i])
    case Object(fields) => forall i :: 0 <= i < |fields| ==> NoHoles(fields[i].value)
    case _ => true
  }

  lemma {:induction false} CollapsesToItself(v: Value)
    requires NoHoles(v)
    ensures Collapse(v) == v
    decreases v, 1
  {
    match v
    case Array(items) => ItemsCollapseToThemselves(items);
    case Object(fields) => FieldsCollapseToThemselves(fields);
    case _ =>
  }

  lemma {:induction false} ItemsCollapseToThemselves(items: seq<Value>)
    requires forall i :: 0 <= i < |items| ==> items[i] != Undefined && NoHoles(items[i])
    ensures CollapseItems(items) == items
    decreases items, 0
  {
    if items != [] {
      CollapsesToItself(items[0]);
      ItemsCollapseToThemselves(items[1..]);
    }
  }

  lemma {:induction false} FieldsCollapseToThemselves(fields: seq<Field>)
    requires forall i :: 0 <= i < |fields| ==> NoHoles(fields[i].value)
    ensures CollapseFields(fields) == fields
    decreases fields, 0
  {
    if fields != [] {
      CollapsesToItself(fields[0].value);
      FieldsCollapseToThemselves(fields[1..]);
    }
  }

  lemma {:induction false} CanonicalKeepsNoHoles(v: Value)
    requires NoHoles(v)
    ensures NoHoles(Canonical(v))
    decreases v, 1
  {
    match v
    case Array(items) =>
      forall i | 0 <= i < |items| ensures CanonicalItems(items)[i] != Undefined && NoHoles(CanonicalItems(items)[i]) {
        CanonicalItemAt(items, i);
        CanonicalKeepsNoHoles(items[i]);
      }
    case Object(fields) => CanonicalFieldsKeepNoHoles(fields);
    case _ =>
  }

  lemma {:induction false} CanonicalFieldsKeepNoHoles(fields: seq<Field>)
    requires forall i :: 0 <= i < |fields| ==> NoHoles(fields[i].value)
    ensures forall f <- CanonicalFields(fields) :: NoHoles(f.value)
    decreases fields, 0
  {
    if fields != [] {
      CanonicalKeepsNoHoles(fields[0].value);
      CanonicalFieldsKeepNoHoles(fields[1..]);
      var f, rest := Field(fields[0].key, Canonical(fields[0].value)), CanonicalFields(fields[1..]);
      InsertKeeps(f, rest);
      forall g <- Insert(f, rest) ensures g == f || g in rest { assert g in multiset(Insert(f, rest)); }
    }
  }

  /** On values whose lists have no holes the printer identifies exactly the same values: it
      ignores the order of members and undefined members, and nothing else. */
  lemma PrintsAlikeIffSame(v: Value, w: Value)
    requires WellKeyed(v) && WellKeyed(w) && NoHoles(v) && NoHoles(w)
    ensures StableJson(v) == StableJson(w) <==> Same(v, w)
  {
    PrintsAlikeIff(v, w);
    CanonicalKeepsNoHoles(v);
    CanonicalKeepsNoHoles(w);
    CollapsesToItself(Canonical(v));
    CollapsesToItself(Canonical(w));
    CanonicalIffSame(v, w);
  }

  /** Why holes must be excluded: a list of one undefined value prints like the empty list. */
  lemma HolesCollide() returns (v: Value, w: Value)
    ensures WellKeyed(v) && WellKeyed(w) && !Same(v, w) && StableJson(v) == StableJson(w)
  {
    v, w := Array([Undefined]), Array([]);
    assert ItemsText([Undefined]) == "" == ItemsText([]);
    assert CanonicalItems([Undefined]) == [Undefined];
  }
}
