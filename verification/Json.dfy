/** JSON values as the engine holds them in memory: object members keep their insertion
    order, and a member may be present with the value `undefined`. */
module Json {

  datatype Value =
    | Undefined
    | Null
    | Bool(b: bool)
    | Number(n: int)
    | Text(s: string)
    | Array(items: seq<Value>)
    | Object(fields: seq<Field>)

  datatype Field = Field(key: string, value: Value)

  datatype Option<+T> = None | Some(value: T)

  /** A total order on member names, standing for `localeCompare`. */
  predicate Leq(a: string, b: string) {
    if a == [] then true
    else if b == [] then false
    else if a[0] == b[0] then Leq(a[1..], b[1..])
    else a[0] < b[0]
  }

  lemma {:induction false} LeqTotal(a: string, b: string)
    ensures Leq(a, b) || Leq(b, a)
    ensures Leq(a, b) && Leq(b, a) ==> a == b
  {
    if a != [] && b != [] && a[0] == b[0] {
      LeqTotal(a[1..], b[1..]);
      assert a == [a[0]] + a[1..] && b == [b[0]] + b[1..];
    }
  }

  lemma {:induction false} LeqTransitive(a: string, b: string, c: string)
    requires Leq(a, b) && Leq(b, c)
    ensures Leq(a, c)
  {
    if a != [] && b != [] && c != [] && a[0] == b[0] == c[0] {
      LeqTransitive(a[1..], b[1..], c[1..]);
    }
  }

  /** The strings agree up to `n`, where `a` ends or has the smaller character. */
  ghost predicate LessAt(a: string, b: string, n: nat) {
    n <= |a| && n < |b| && a[..n] == b[..n] && (n == |a| || a[n] < b[n])
  }

  ghost predicate Less(a: string, b: string) { exists n: nat :: LessAt(a, b, n) }

  lemma LessAtOneMore(x: char, a: string, b: string, n: nat)
    ensures LessAt([x] + a, [x] + b, n + 1) <==> LessAt(a, b, n)
  {
    if n <= |a| && n < |b| {
      assert ([x] + a)[..n + 1] == [x] + a[..n] && ([x] + b)[..n + 1] == [x] + b[..n];
      assert ([x] + a[..n])[1..] == a[..n] && ([x] + b[..n])[1..] == b[..n];
    }
  }

  lemma LessOneMore(x: char, a: string, b: string)
    ensures Less([x] + a, [x] + b) <==> Less(a, b)
  {
    if n: nat :| LessAt(a, b, n) { LessAtOneMore(x, a, b, n); }
    if n: nat :| LessAt([x] + a, [x] + b, n) {
      assert n > 0;
      LessAtOneMore(x, a, b, n - 1);
    }
  }

  lemma {:induction false} LeqIsLexicographic(a: string, b: string)
    ensures Less(a, b) <==> Leq(a, b) && a != b
  {
    if a == [] || b == [] {
      assert b != [] ==> LessAt(a, b, 0);
    } else if a[0] != b[0] {
      assert a[0] < b[0] ==> LessAt(a, b, 0);
      assert forall n: nat :: 0 < n <= |a| && n <= |b| ==> a[..n][0] != b[..n][0];
    } else {
      LeqIsLexicographic(a[1..], b[1..]);
      LessOneMore(a[0], a[1..], b[1..]);
      assert a == [a[0]] + a[1..] && b == [b[0]] + b[1..];
    }
  }

  // ----- The form compared by the recovery code and printed by the operator hash -----

  /** Drops undefined members, sorts the others by name, at every depth. */
  function Canonical(v: Value): Value
    decreases v, 1
  {
    match v
    case Array(items) => Array(CanonicalItems(items))
    case Object(fields) => Object(CanonicalFields(fields))
    case _ => v
  }

  function CanonicalItems(items: seq<Value>): (r: seq<Value>)
    ensures |r| == |items|
    decreases items, 0
  {
    if items == [] then [] else [Canonical(items[0])] + CanonicalItems(items[1..])
  }

  function CanonicalFields(fields: seq<Field>): seq<Field>
    decreases fields, 0
  {
    if fields == [] then []
    else
      var rest := CanonicalFields(fields[1..]);
      if fields[0].value == Undefined then rest
      else Insert(Field(fields[0].key, Canonical(fields[0].value)), rest)
  }

  function Insert(f: Field, sorted: seq<Field>): (r: seq<Field>)
  {
    if sorted == [] then [f]
    else if Leq(f.key, sorted[0].key) then [f] + sorted
    else [sorted[0]] + Insert(f, sorted[1..])
  }

  lemma {:induction false} InsertKeeps(f: Field, sorted: seq<Field>)
    ensures multiset(Insert(f, sorted)) == multiset(sorted) + multiset{f}
  {
    if sorted == [] {
    } else if Leq(f.key, sorted[0].key) {
    } else {
      InsertKeeps(f, sorted[1..]);
      assert sorted == [sorted[0]] + sorted[1..];
    }
  }

  ghost predicate Sorted(fields: seq<Field>) {
    forall i, j :: 0 <= i < j < |fields| ==> Leq(fields[i].key, fields[j].key)
  }

  lemma {:induction false} InsertSorted(f: Field, sorted: seq<Field>)
    requires Sorted(sorted)
    ensures Sorted(Insert(f, sorted))
  {
    if sorted == [] {
    } else if Leq(f.key, sorted[0].key) {
      forall j | 0 <= j < |sorted| ensures Leq(f.key, sorted[j].key) {
        if j > 0 { LeqTransitive(f.key, sorted[0].key, sorted[j].key); }
      }
    } else {
      var rest := Insert(f, sorted[1..]);
      InsertSorted(f, sorted[1..]);
      InsertKeeps(f, sorted[1..]);
      LeqTotal(f.key, sorted[0].key);
      forall j | 0 <= j < |rest| ensures Leq(sorted[0].key, rest[j].key) {
        assert rest[j] in multiset(rest);
        assert rest[j] == f || rest[j] in sorted[1..];
      }
    }
  }
}
