/** Filtering, mapping and sorting sequences. */
module Sequences {

  function Filter<T>(s: seq<T>, keep: T -> bool): (r: seq<T>)
    ensures forall x <- r :: x in s && keep(x)
    ensures forall x <- s :: keep(x) ==> x in r
    ensures |r| <= |s|
  {
    if s == [] then [] else (if keep(s[0]) then [s[0]] else []) + Filter(s[1..], keep)
  }

  function Map<S, T>(s: seq<S>, f: S -> T): (r: seq<T>)
    ensures |r| == |s| && forall i :: 0 <= i < |s| ==> r[i] == f(s[i])
  {
    seq(|s|, i requires 0 <= i < |s| => f(s[i]))
  }

  lemma MapMembers<S, T>(s: seq<S>, f: S -> T, y: T)
    ensures y in Map(s, f) <==> exists x <- s :: f(x) == y
  {
    if x :| x in s && f(x) == y {
      var i :| 0 <= i < |s| && s[i] == x;
      assert Map(s, f)[i] == y;
    }
    if y in Map(s, f) {
      var i :| 0 <= i < |s| && Map(s, f)[i] == y;
      assert s[i] in s;
    }
  }

  function Not<T>(p: T -> bool): T -> bool { x => !p(x) }

  lemma {:induction false} FilterAll<T>(s: seq<T>, keep: T -> bool)
    requires forall x <- s :: keep(x)
    ensures Filter(s, keep) == s
  {
    if s != [] {
      assert s[0] in s;
      assert forall x <- s[1..] :: x in s;
      FilterAll(s[1..], keep);
    }
  }

  lemma {:induction false} FilterSame<T>(s: seq<T>, p: T -> bool, q: T -> bool)
    requires forall x <- s :: p(x) == q(x)
    ensures Filter(s, p) == Filter(s, q)
  {
    if s != [] {
      assert s[0] in s;
      assert forall x <- s[1..] :: x in s;
      FilterSame(s[1..], p, q);
    }
  }

  lemma {:induction false} FilterIgnoresTail<T>(s: seq<T>, t: seq<T>, keep: T -> bool)
    requires forall i :: 0 <= i < |t| ==> !keep(t[i])
    ensures Filter(s + t, keep) == Filter(s, keep)
  {
    if s != [] {
      assert (s + t)[1..] == s[1..] + t;
      FilterIgnoresTail(s[1..], t, keep);
    } else if t != [] {
      assert s + t == t;
      FilterIgnoresTail(s, t[1..], keep);
      assert s + t[1..] == t[1..];
    } else {
      assert s + t == s;
    }
  }

  lemma Regrouped<T>(a: seq<T>, b: seq<T>, c: seq<T>)
    ensures (a + b) + c == a + (b + c)
  {}

  lemma {:induction false} FilterSnoc<T>(s: seq<T>, x: T, keep: T -> bool)
    ensures Filter(s + [x], keep) == Filter(s, keep) + if keep(x) then [x] else []
  {
    if s == [] {
      assert s + [x] == [x];
    } else {
      assert (s + [x])[1..] == s[1..] + [x];
      FilterSnoc(s[1..], x, keep);
      Regrouped(if keep(s[0]) then [s[0]] else [], Filter(s[1..], keep), if keep(x) then [x] else []);
    }
  }

  lemma FilterOneMore<T>(s: seq<T>, n: nat, keep: T -> bool)
    requires n < |s|
    ensures Filter(s[..n + 1], keep) == Filter(s[..n], keep) + if keep(s[n]) then [s[n]] else []
  {
    assert s[..n + 1] == s[..n] + [s[n]];
    FilterSnoc(s[..n], s[n], keep);
  }

  // ----- What filtering leaves -----

  /** The places in `s` that `t` was taken from, in order: all those, and only those, to keep. */
  ghost predicate Picks<T>(at: seq<nat>, s: seq<T>, t: seq<T>, keep: T -> bool) {
    && |at| == |t|
    && (forall j :: 0 <= j < |at| ==> at[j] < |s| && t[j] == s[at[j]] && keep(s[at[j]]))
    && (forall j, k :: 0 <= j < k < |at| ==> at[j] < at[k])
    && (forall i: nat :: i < |s| && keep(s[i]) ==> i in at)
  }

  ghost predicate Thinned<T>(s: seq<T>, t: seq<T>, keep: T -> bool) { exists at :: Picks(at, s, t, keep) }

  lemma PickLast<T>(at: seq<nat>, s: seq<T>, t: seq<T>, last: T, keep: T -> bool)
    requires Picks(at, s, t, keep) && keep(last)
    ensures Picks(at + [|s|], s + [last], t + [last], keep)
  {
    var more, longer := at + [|s|], s + [last];
    forall i: nat | i < |longer| && keep(longer[i]) ensures i in more {
      if i < |s| { assert i in at; } else { assert more[|at|] == i; }
    }
  }

  lemma SkipLast<T>(at: seq<nat>, s: seq<T>, t: seq<T>, last: T, keep: T -> bool)
    requires Picks(at, s, t, keep) && !keep(last)
    ensures Picks(at, s + [last], t, keep)
  {
    var longer := s + [last];
    forall i: nat | i < |longer| && keep(longer[i]) ensures i in at { assert i < |s| && keep(s[i]); }
  }

  lemma ThinsOneMore<T>(s: seq<T>, t: seq<T>, last: T, keep: T -> bool)
    requires Thinned(s, t, keep)
    ensures Thinned(s + [last], t + if keep(last) then [last] else [], keep)
  {
    var at :| Picks(at, s, t, keep);
    if keep(last) {
      PickLast(at, s, t, last, keep);
    } else {
      SkipLast(at, s, t, last, keep);
      assert t + [] == t;
    }
  }

  /** Filtering takes out what is not to be kept, and nothing else, and keeps the order. */
  lemma {:induction false} FilterThins<T>(s: seq<T>, keep: T -> bool)
    ensures Thinned(s, Filter(s, keep), keep)
  {
    if s == [] {
      assert Picks([], s, s, keep);
    } else {
      var q, last := s[..|s| - 1], s[|s| - 1];
      FilterThins(q, keep);
      ThinsOneMore(q, Filter(q, keep), last, keep);
      assert Filter(s, keep) == Filter(q, keep) + if keep(last) then [last] else [] by {
        assert s == q + [last];
        FilterSnoc(q, last, keep);
      }
      assert s == q + [last];
    }
  }

  /** Filtering shortens a list exactly when something in it goes. */
  lemma {:induction false} ShorterIff<T>(s: seq<T>, keep: T -> bool)
    ensures |Filter(s, keep)| == |s| <==> forall x <- s :: keep(x)
  {
    if s != [] {
      ShorterIff(s[1..], keep);
      assert s == [s[0]] + s[1..];
    }
  }

  lemma FilterLeaves<T>(s: seq<T>, p: T -> bool, q: T -> bool)
    requires forall x <- s :: p(x) == q(x)
    ensures Thinned(s, Filter(s, p), q)
  {
    FilterSame(s, p, q);
    FilterThins(s, q);
  }

  // ----- Counting by keys -----

  function KeysOf<T, K>(s: seq<T>, key: T -> K): set<K> { set i | 0 <= i < |s| :: key(s[i]) }

  ghost predicate DistinctBy<T, K>(s: seq<T>, key: T -> K) {
    forall i, j :: 0 <= i < j < |s| ==> key(s[i]) != key(s[j])
  }

  lemma KeysOneMore<T, K>(s: seq<T>, last: T, key: T -> K)
    ensures KeysOf(s + [last], key) == KeysOf(s, key) + {key(last)}
    ensures DistinctBy(s + [last], key) <==> DistinctBy(s, key) && key(last) !in KeysOf(s, key)
  {
    var t := s + [last];
    assert forall i :: 0 <= i < |s| ==> t[i] == s[i];
    assert t[|s|] == last;
  }

  lemma {:induction false} CountKeys<T, K>(s: seq<T>, key: T -> K)
    ensures |KeysOf(s, key)| <= |s|
    ensures |KeysOf(s, key)| == |s| <==> DistinctBy(s, key)
  {
    if s != [] {
      var q, last := s[..|s| - 1], s[|s| - 1];
      CountKeys(q, key);
      KeysOneMore(q, last, key);
      assert s == q + [last];
      if key(last) in KeysOf(q, key) { assert KeysOf(s, key) == KeysOf(q, key); }
    }
  }

  // ----- Stable sorting -----

  function InsertBy<T>(x: T, sorted: seq<T>, leq: (T, T) -> bool): (r: seq<T>)
    ensures multiset(r) == multiset([x]) + multiset(sorted) && |r| == |sorted| + 1
  {
    if sorted == [] then [x]
    else if leq(x, sorted[0]) then [x] + sorted
    else
      assert sorted == [sorted[0]] + sorted[1..];
      [sorted[0]] + InsertBy(x, sorted[1..], leq)
  }

  function SortBy<T>(s: seq<T>, leq: (T, T) -> bool): (r: seq<T>)
    ensures multiset(r) == multiset(s) && |r| == |s|
  {
    if s == [] then []
    else
      assert s == [s[0]] + s[1..];
      InsertBy(s[0], SortBy(s[1..], leq), leq)
  }

  lemma SortByMembers<T>(s: seq<T>, leq: (T, T) -> bool, x: T)
    ensures x in SortBy(s, leq) <==> x in s
  {
    assert x in multiset(SortBy(s, leq)) <==> x in multiset(s);
  }

  predicate SortedBy<T>(s: seq<T>, leq: (T, T) -> bool) {
    forall i, j :: 0 <= i < j < |s| ==> leq(s[i], s[j])
  }

  ghost predicate Total<T(!new)>(leq: (T, T) -> bool) { forall a, b :: leq(a, b) || leq(b, a) }

  ghost predicate Transitive<T(!new)>(leq: (T, T) -> bool) { forall a, b, c :: leq(a, b) && leq(b, c) ==> leq(a, c) }

  /** Elements that tie are the same. */
  ghost predicate NoTies<T>(s: seq<T>, leq: (T, T) -> bool) {
    forall x <- s, y <- s :: leq(x, y) && leq(y, x) ==> x == y
  }

  lemma {:induction false} InsertBySorts<T(!new)>(x: T, sorted: seq<T>, leq: (T, T) -> bool)
    requires Total(leq) && Transitive(leq) && SortedBy(sorted, leq)
    ensures SortedBy(InsertBy(x, sorted, leq), leq)
  {
    if sorted == [] {
    } else if leq(x, sorted[0]) {
      forall j | 0 <= j < |sorted| ensures leq(x, sorted[j]) { assert j == 0 || leq(sorted[0], sorted[j]); }
    } else {
      InsertBySorts(x, sorted[1..], leq);
      var rest := InsertBy(x, sorted[1..], leq);
      forall j | 0 <= j < |rest| ensures leq(sorted[0], rest[j]) {
        assert rest[j] in multiset(rest);
        assert rest[j] == x || rest[j] in sorted[1..];
      }
    }
  }

  lemma {:induction false} SortBySorts<T(!new)>(s: seq<T>, leq: (T, T) -> bool)
    requires Total(leq) && Transitive(leq)
    ensures SortedBy(SortBy(s, leq), leq)
  {
    if s != [] {
      SortBySorts(s[1..], leq);
      InsertBySorts(s[0], SortBy(s[1..], leq), leq);
    }
  }

  /** A sorted list is determined by what it holds. */
  lemma {:induction false} SortedByUnique<T(!new)>(a: seq<T>, b: seq<T>, leq: (T, T) -> bool)
    requires Total(leq) && NoTies(a, leq) && SortedBy(a, leq) && SortedBy(b, leq) && multiset(a) == multiset(b)
    ensures a == b
  {
    assert |a| == |multiset(a)| == |multiset(b)| == |b|;
    if a != [] {
      FirstsEqual(a, b, leq);
      WithoutFirst(a);
      WithoutFirst(b);
      TailsSorted(a, leq);
      TailsSorted(b, leq);
      SortedByUnique(a[1..], b[1..], leq);
    }
  }

  lemma TailsSorted<T(!new)>(s: seq<T>, leq: (T, T) -> bool)
    requires s != [] && SortedBy(s, leq)
    ensures SortedBy(s[1..], leq) && (NoTies(s, leq) ==> NoTies(s[1..], leq))
  {
    assert forall x <- s[1..] :: x in s;
  }

  lemma WithoutFirst<T>(s: seq<T>)
    requires s != []
    ensures s == [s[0]] + s[1..] && multiset(s[1..]) == multiset(s) - multiset([s[0]])
  {
    assert s == [s[0]] + s[1..];
  }

  lemma FirstsEqual<T(!new)>(a: seq<T>, b: seq<T>, leq: (T, T) -> bool)
    requires a != [] && b != [] && multiset(a) == multiset(b)
    requires Total(leq) && NoTies(a, leq) && SortedBy(a, leq) && SortedBy(b, leq)
    ensures a[0] == b[0]
  {
    assert a[0] in multiset(b) && b[0] in multiset(a);
    var i :| 0 <= i < |b| && b[i] == a[0];
    var j :| 0 <= j < |a| && a[j] == b[0];
    assert i == 0 || leq(b[0], b[i]);
    assert j == 0 || leq(a[0], a[j]);
  }
}
