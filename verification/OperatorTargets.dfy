/** The digest that ties an operator's execution to the preview it was decided on. */
module OperatorTargets {
  import opened Json
  import opened StablePrinter
  import opened StablePrinterMeaning
  import opened Texts
  import opened Sequences

  datatype Target = Target(id: string, updatedAt: string)

  function TargetValue(t: Target): Value {
    Object([Field("id", Value.Text(t.id)), Field("updatedAt", Value.Text(t.updatedAt))])
  }

  /** By id, then by revision. */
  predicate Before(t: Target, u: Target) { if t.id == u.id then Leq(t.updatedAt, u.updatedAt) else Leq(t.id, u.id) }

  function SortTargets(ts: seq<Target>): seq<Target> { SortBy(ts, Before) }

  lemma BeforeTransitive(t: Target, u: Target, v: Target)
    requires Before(t, u) && Before(u, v)
    ensures Before(t, v)
  {
    LeqTotal(t.id, u.id);
    if t.id == u.id == v.id {
      LeqTransitive(t.updatedAt, u.updatedAt, v.updatedAt);
    } else if t.id != u.id && u.id != v.id {
      LeqTransitive(t.id, u.id, v.id);
    }
  }

  lemma BeforeTotal(t: Target, u: Target)
    ensures Before(t, u) || Before(u, t)
    ensures Before(t, u) && Before(u, t) ==> t == u
  {
    LeqTotal(t.id, u.id);
    LeqTotal(t.updatedAt, u.updatedAt);
  }

  lemma BeforeOrders()
    ensures Total(Before) && Transitive(Before) && forall ts :: NoTies(ts, Before)
  {
    forall t, u ensures Before(t, u) || Before(u, t) { BeforeTotal(t, u); }
    forall t, u | Before(t, u) && Before(u, t) ensures t == u { BeforeTotal(t, u); }
    forall t, u, v | Before(t, u) && Before(u, v) ensures Before(t, v) { BeforeTransitive(t, u, v); }
  }

  /** Sorting gives one list for every order the targets may come in. */
  lemma SortTargetsUnique(ts: seq<Target>, us: seq<Target>)
    ensures SortTargets(ts) == SortTargets(us) <==> multiset(ts) == multiset(us)
  {
    if multiset(ts) == multiset(us) {
      BeforeOrders();
      SortBySorts(ts, Before);
      SortBySorts(us, Before);
      SortedByUnique(SortTargets(ts), SortTargets(us), Before);
    }
  }

  function TargetsText(ts: seq<Target>): string { StableJson(Array(Map(SortTargets(ts), TargetValue))) }

  function TargetSetHash(ts: seq<Target>, sha: string -> string): string { "sha256:" + sha(TargetsText(ts)) }

  /** A digest that never collides, written in lower-case hexadecimal digits. */
  ghost predicate Digest(sha: string -> string) {
    && (forall a, b {:trigger sha(a), sha(b)} :: sha(a) == sha(b) ==> a == b)
    && (forall a {:trigger sha(a)} :: forall c <- sha(a) :: '0' <= c <= '9' || 'a' <= c <= 'f')
  }

  lemma TargetValuesAreRegular(ts: seq<Target>)
    ensures WellKeyed(Array(Map(ts, TargetValue))) && NoHoles(Array(Map(ts, TargetValue)))
  {}

  lemma SameTarget(t: Target, u: Target)
    requires Same(TargetValue(t), TargetValue(u))
    ensures t == u
  {
    assert SameMember(TargetValue(t), TargetValue(u), "id");
    assert SameMember(TargetValue(t), TargetValue(u), "updatedAt");
    TargetMembers(t);
    TargetMembers(u);
    assert Same(Value.Text(t.id), Value.Text(u.id));
    assert Same(Value.Text(t.updatedAt), Value.Text(u.updatedAt));
  }

  lemma TargetMembers(t: Target)
    ensures Member(TargetValue(t).fields, "id") == Some(Value.Text(t.id))
    ensures Member(TargetValue(t).fields, "updatedAt") == Some(Value.Text(t.updatedAt))
  {
    var fields := TargetValue(t).fields;
    assert fields[0].key[0] == 'i' && "updatedAt"[0] == 'u';
    assert fields[1..][0] == Field("updatedAt", Value.Text(t.updatedAt));
  }

  /** Equal digests mean equal sets of (id, revision) pairs, and the other way round. */
  lemma HashIdentifiesTargets(ts: seq<Target>, us: seq<Target>, sha: string -> string)
    requires Digest(sha)
    ensures TargetSetHash(ts, sha) == TargetSetHash(us, sha) <==> multiset(ts) == multiset(us)
  {
    var a, b := SortTargets(ts), SortTargets(us);
    if TargetSetHash(ts, sha) == TargetSetHash(us, sha) {
      Rest("sha256:", sha(TargetsText(ts)));
      Rest("sha256:", sha(TargetsText(us)));
      TargetValuesAreRegular(a);
      TargetValuesAreRegular(b);
      var v, w := Array(Map(a, TargetValue)), Array(Map(b, TargetValue));
      PrintsAlikeIffSame(v, w);
      forall i | 0 <= i < |a| ensures a[i] == b[i] {
        assert Same(v.items[i], w.items[i]);
        SameTarget(a[i], b[i]);
      }
      assert a == b;
    }
    SortTargetsUnique(ts, us);
  }

  // ----- Accepting a previewed digest -----

  function Lower(c: char): char { if 'A' <= c <= 'Z' then (c as int + 32) as char else c }

  function LowerCase(s: string): (r: string)
    ensures |r| == |s| && forall i :: 0 <= i < |s| ==> r[i] == Lower(s[i])
  {
    seq(|s|, i requires 0 <= i < |s| => Lower(s[i]))
  }

  datatype Verdict = Proceed | PreconditionRequired | TargetSetChanged

  function Check(expected: Option<string>, current: string): Verdict {
    if expected.None? || Trim(expected.value) == "" then PreconditionRequired
    else if LowerCase(Trim(expected.value)) != current then TargetSetChanged
    else Proceed
  }

  lemma HashIsNormal(ts: seq<Target>, sha: string -> string)
    requires Digest(sha)
    ensures var h := TargetSetHash(ts, sha); h != "" && Trim(h) == h && LowerCase(h) == h
  {
    var d := sha(TargetsText(ts));
    var h := "sha256:" + d;
    assert forall c <- d :: '0' <= c <= '9' || 'a' <= c <= 'f';
    assert forall i :: 0 <= i < |d| ==> d[i] in d;
    assert forall i :: 0 <= i < |h| ==> h[i] == (if i < 7 then "sha256:"[i] else d[i - 7]);
    assert LowerCase(h) == h;
    assert !Blank(h[0]) && !Blank(h[|h| - 1]);
  }

  /** A previewed digest lets an execution proceed exactly when its targets are the previewed
      ones, whatever happened in between. */
  lemma PreviewDecides(previewed: seq<Target>, current: seq<Target>, sha: string -> string)
    requires Digest(sha)
    ensures Check(Some(TargetSetHash(previewed, sha)), TargetSetHash(current, sha))
            == if multiset(previewed) == multiset(current) then Proceed else TargetSetChanged
  {
    HashIsNormal(previewed, sha);
    HashIdentifiesTargets(previewed, current, sha);
  }

  /** The same letters, but for upper case on the left. */
  ghost predicate SameLetters(a: string, b: string) {
    && |a| == |b|
    && forall k :: 0 <= k < |a| ==>
         if 'A' <= a[k] <= 'Z' then b[k] as int == a[k] as int + ('a' as int - 'A' as int) else b[k] == a[k]
  }

  /** A digest sent along is accepted exactly when it is the current one, whatever blanks surround
      it and whatever case it is in. */
  lemma CheckDecides(expected: Option<string>, current: string) returns (i: nat, j: nat)
    ensures expected.None? ==> Check(expected, current) == PreconditionRequired
    ensures expected.Some? ==>
      && i <= j <= |expected.value|
      && (forall k :: 0 <= k < i || j <= k < |expected.value| ==> Blank(expected.value[k]))
      && (i < j ==> !Blank(expected.value[i]) && !Blank(expected.value[j - 1]))
      && Check(expected, current) == if i == j then PreconditionRequired
                                     else if SameLetters(expected.value[i..j], current) then Proceed
                                     else TargetSetChanged
  {
    i, j := 0, 0;
    if expected.Some? {
      i, j := TrimIs(expected.value);
      var t := expected.value[i..j];
      assert SameLetters(t, current) <==> LowerCase(t) == current;
    }
  }

  // ----- Removing records by id -----

  lemma TargetsFirst<R>(x: R, rs: seq<R>, target: R -> Target)
    ensures multiset(Map([x] + rs, target)) == multiset([target(x)]) + multiset(Map(rs, target))
  {
    assert Map([x] + rs, target) == [target(x)] + Map(rs, target);
  }

  lemma FilterFirst<R>(rs: seq<R>, p: R -> bool, target: R -> Target)
    requires rs != []
    ensures multiset(Map(Filter(rs, p), target))
      == (if p(rs[0]) then multiset([target(rs[0])]) else multiset{}) + multiset(Map(Filter(rs[1..], p), target))
  {
    if p(rs[0]) {
      TargetsFirst(rs[0], Filter(rs[1..], p), target);
    } else {
      assert Filter(rs, p) == Filter(rs[1..], p);
    }
  }

  lemma {:induction false} TargetsSplit<R>(rs: seq<R>, p: R -> bool, target: R -> Target)
    ensures multiset(Map(rs, target))
      == multiset(Map(Filter(rs, p), target)) + multiset(Map(Filter(rs, Not(p)), target))
  {
    if rs != [] {
      TargetsSplit(rs[1..], p, target);
      assert rs == [rs[0]] + rs[1..];
      TargetsFirst(rs[0], rs[1..], target);
      FilterFirst(rs, p, target);
      FilterFirst(rs, Not(p), target);
    }
  }

  ghost predicate UniqueIds<R>(rs: seq<R>, target: R -> Target) {
    forall i, j :: 0 <= i < j < |rs| ==> target(rs[i]).id != target(rs[j]).id
  }

  function IdsOf<R>(rs: seq<R>, target: R -> Target): set<string> { set i | 0 <= i < |rs| :: target(rs[i]).id }

  lemma SameId<R>(rs: seq<R>, target: R -> Target, x: R, y: R)
    requires UniqueIds(rs, target) && x in rs && y in rs && target(x).id == target(y).id
    ensures x == y
  {
    var i :| 0 <= i < |rs| && rs[i] == x;
    var j :| 0 <= j < |rs| && rs[j] == y;
    assert i == j;
  }

  function WithoutIds<R>(ids: set<string>, target: R -> Target): R -> bool { x => target(x).id !in ids }

  /** Filtering out the ids of the matched records removes the matched records and no other. */
  lemma RemovalIsExact<R>(rs: seq<R>, matched: R -> bool, target: R -> Target)
    requires UniqueIds(rs, target)
    ensures var m := Filter(rs, matched); var kept := Filter(rs, WithoutIds(IdsOf(m, target), target));
      && kept == Filter(rs, Not(matched))
      && multiset(Map(rs, target)) == multiset(Map(m, target)) + multiset(Map(kept, target))
  {
    var m := Filter(rs, matched);
    var ids := IdsOf(m, target);
    forall x <- rs ensures WithoutIds(ids, target)(x) == Not(matched)(x) {
      forall k | 0 <= k < |m| && target(m[k]).id == target(x).id ensures m[k] == x {
        assert m[k] in m && m[k] in rs;
        SameId(rs, target, m[k], x);
      }
      if matched(x) { var k :| 0 <= k < |m| && m[k] == x; }
    }
    FilterSame(rs, WithoutIds(ids, target), Not(matched));
    TargetsSplit(rs, matched, target);
  }
}
