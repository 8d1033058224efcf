/** Which webhook deliveries a bounded ledger keeps. */
module WebhookRetention {
  import opened Json
  import opened Sequences

  type Id = string

  datatype Status = Queued | Delivered | Failed

  datatype Delivery = Delivery(
    id: Id, campaignId: Id, webhookId: Id, eventId: Id, attempt: nat, status: Status,
    retryOf: Option<Id>, createdAt: nat)

  /** Two entries of one ledger: different ids, different attempts at one event, and a retry
      is strictly newer than what it retries. */
  predicate Apart(d: Delivery, e: Delivery) {
    && d.id != e.id
    && !(d.webhookId == e.webhookId && d.eventId == e.eventId && d.attempt == e.attempt)
    && (d.retryOf == Some(e.id) ==> e.createdAt < d.createdAt)
    && (e.retryOf == Some(d.id) ==> d.createdAt < e.createdAt)
  }

  predicate Valid(ds: seq<Delivery>) {
    && (forall i, j :: 0 <= i < j < |ds| ==> Apart(ds[i], ds[j]))
    && (forall d <- ds :: d.retryOf != Some(d.id))
  }

  function Find(ds: seq<Delivery>, id: Id): (r: Option<Delivery>)
    ensures r.Some? ==> r.value in ds && r.value.id == id
    ensures r.None? ==> forall d <- ds :: d.id != id
  {
    if ds == [] then None else if ds[0].id == id then Some(ds[0]) else Find(ds[1..], id)
  }

  function Parent(ds: seq<Delivery>, d: Delivery): Option<Delivery> {
    if d.retryOf.None? then None else Find(ds, d.retryOf.value)
  }

  lemma Sole(ds: seq<Delivery>, d: Delivery, e: Delivery)
    requires Valid(ds) && d in ds && e in ds && d.id == e.id
    ensures d == e
  {
    var i :| 0 <= i < |ds| && ds[i] == d;
    var j :| 0 <= j < |ds| && ds[j] == e;
    assert !Apart(ds[i], ds[j]) && !Apart(ds[j], ds[i]);
  }

  lemma ParentIsOlder(ds: seq<Delivery>, d: Delivery)
    requires Valid(ds) && d in ds && Parent(ds, d).Some?
    ensures Parent(ds, d).value in ds && Parent(ds, d).value.createdAt < d.createdAt
  {
    var p := Parent(ds, d).value;
    var i :| 0 <= i < |ds| && ds[i] == d;
    var j :| 0 <= j < |ds| && ds[j] == p;
    assert d.retryOf != Some(d.id);
    if i < j { assert Apart(ds[i], ds[j]); } else { assert Apart(ds[j], ds[i]); }
  }

  /** The delivery, what it retries, what that retries, and so on. */
  ghost function Chain(ds: seq<Delivery>, d: Delivery): set<Id>
    requires Valid(ds) && d in ds
    decreases d.createdAt
  {
    if Parent(ds, d).None? then {d.id}
    else
      ParentIsOlder(ds, d);
      {d.id} + Chain(ds, Parent(ds, d).value)
  }

  // ----- Newest first -----

  predicate Newer(d: Delivery, e: Delivery) { d.createdAt >= e.createdAt }

  lemma NewerOrders()
    ensures Total(Newer) && Transitive(Newer)
  {}

  /** A stable sort by descending creation time. */
  function SortNewest(ds: seq<Delivery>): seq<Delivery> { SortBy(ds, Newer) }

  predicate NewestFirst(ds: seq<Delivery>) {
    forall i, j :: 0 <= i < j < |ds| ==> ds[i].createdAt >= ds[j].createdAt
  }

  lemma SortNewestSorts(ds: seq<Delivery>)
    ensures NewestFirst(SortNewest(ds))
  {
    NewerOrders();
    SortBySorts(ds, Newer);
    assert forall i, j :: 0 <= i < j < |SortNewest(ds)| ==> Newer(SortNewest(ds)[i], SortNewest(ds)[j]);
  }

  predicate SameMembers(a: seq<Delivery>, b: seq<Delivery>) {
    (forall d <- a :: d in b) && (forall d <- b :: d in a)
  }

  lemma PrependValid(d: Delivery, ds: seq<Delivery>)
    requires Valid(ds) && (forall e <- ds :: Apart(d, e)) && d.retryOf != Some(d.id)
    ensures Valid([d] + ds)
  {
    var all := [d] + ds;
    forall i, j | 0 <= i < j < |all| ensures Apart(all[i], all[j]) {
      if i == 0 { assert ds[j - 1] in ds; } else { assert Apart(ds[i - 1], ds[j - 1]); }
    }
  }

  lemma {:induction false} InsertKeepsValid(d: Delivery, sorted: seq<Delivery>)
    requires Valid(sorted) && (forall e <- sorted :: Apart(d, e)) && d.retryOf != Some(d.id)
    ensures Valid(InsertBy(d, sorted, Newer))
  {
    if sorted == [] || Newer(d, sorted[0]) {
      PrependValid(d, sorted);
      assert [d] + [] == [d];
    } else {
      var rest := InsertBy(d, sorted[1..], Newer);
      InsertKeepsValid(d, sorted[1..]);
      forall e <- rest ensures Apart(sorted[0], e) {
        assert e in multiset(rest);
        assert e == d || e in sorted[1..];
        assert Apart(d, sorted[0]);
      }
      PrependValid(sorted[0], rest);
    }
  }

  lemma {:induction false} SortKeepsValid(ds: seq<Delivery>)
    requires Valid(ds)
    ensures Valid(SortBy(ds, Newer))
  {
    if ds != [] {
      SortKeepsValid(ds[1..]);
      forall e <- SortBy(ds[1..], Newer) ensures Apart(ds[0], e) {
        SortByMembers(ds[1..], Newer, e);
        assert e in ds[1..];
      }
      InsertKeepsValid(ds[0], SortBy(ds[1..], Newer));
    }
  }

  lemma SortNewestValid(ds: seq<Delivery>)
    requires Valid(ds)
    ensures Valid(SortNewest(ds)) && SameMembers(ds, SortNewest(ds))
  {
    SortKeepsValid(ds);
    forall d ensures d in ds <==> d in SortNewest(ds) { SortByMembers(ds, Newer, d); }
  }

  lemma FindAmongSame(a: seq<Delivery>, b: seq<Delivery>, id: Id)
    requires Valid(a) && Valid(b) && SameMembers(a, b)
    ensures Find(a, id) == Find(b, id)
  {
    if Find(a, id).Some? && Find(b, id).Some? { Sole(a, Find(a, id).value, Find(b, id).value); }
  }

  lemma {:induction false} ChainAmongSame(a: seq<Delivery>, b: seq<Delivery>, d: Delivery)
    requires Valid(a) && Valid(b) && SameMembers(a, b) && d in a
    ensures Chain(a, d) == Chain(b, d)
    decreases d.createdAt
  {
    if d.retryOf.Some? {
      FindAmongSame(a, b, d.retryOf.value);
      if Parent(a, d).Some? {
        ParentIsOlder(a, d);
        ChainAmongSame(a, b, Parent(a, d).value);
      }
    }
  }

  // ----- What is kept -----

  function Terminals(ds: seq<Delivery>): set<Id> { set d | d in ds && d.status != Queued :: d.id }

  function AllIds(ds: seq<Delivery>): set<Id> { set d | d in ds :: d.id }

  /** A kept terminal delivery whose retried delivery is in the ledger but not kept. */
  predicate Orphan(ds: seq<Delivery>, keep: set<Id>, d: Delivery) {
    d in ds && d.status != Queued && d.id in keep && Parent(ds, d).Some? && Parent(ds, d).value.id !in keep
  }

  ghost predicate AtMostOneOrphan(ds: seq<Delivery>, keep: set<Id>) {
    forall d, e :: Orphan(ds, keep, d) && Orphan(ds, keep, e) ==> d == e
  }

  ghost predicate NoOrphan(ds: seq<Delivery>, keep: set<Id>) { forall d :: !Orphan(ds, keep, d) }

  ghost predicate KeepsQueued(ds: seq<Delivery>, keep: set<Id>) {
    forall d <- ds :: d.status == Queued ==> d.id in keep
  }

  /** What holds of the set between two chain walks. */
  ghost predicate Keeping(ds: seq<Delivery>, keep: set<Id>, count: nat, limit: nat) {
    && KeepsQueued(ds, keep) && keep <= AllIds(ds)
    && count == |keep * Terminals(ds)| <= limit
    && AtMostOneOrphan(ds, keep) && (count < limit ==> NoOrphan(ds, keep))
  }

  lemma KeepOneMore(ds: seq<Delivery>, keep: set<Id>, d: Delivery)
    requires d in ds && d.status != Queued && d.id !in keep
    ensures |(keep + {d.id}) * Terminals(ds)| == |keep * Terminals(ds)| + 1
  {
    assert (keep + {d.id}) * Terminals(ds) == keep * Terminals(ds) + {d.id};
  }

  /** Adding a delivery can only orphan that delivery, and it adopts its retries. */
  lemma OrphansAfter(ds: seq<Delivery>, keep: set<Id>, c: Delivery, d: Delivery)
    requires Valid(ds) && c in ds && Orphan(ds, keep + {c.id}, d)
    ensures d == c || (Orphan(ds, keep, d) && Parent(ds, d) != Some(c))
  {
    if d.id == c.id { Sole(ds, d, c); }
  }

  /** The part of a chain that is still to be walked. */
  ghost function Ahead(ds: seq<Delivery>, candidate: Option<Delivery>): set<Id>
    requires Valid(ds)
  {
    if candidate.Some? && candidate.value in ds then Chain(ds, candidate.value) else {}
  }

  /** What holds while a chain is walked: `last` was just visited, `candidate` comes next. */
  ghost predicate Walking(
    ds: seq<Delivery>, start: Delivery, keep0: set<Id>, keep: set<Id>, count: nat, limit: nat,
    last: Option<Delivery>, candidate: Option<Delivery>)
    requires Valid(ds) && start in ds
  {
    && (candidate.Some? ==> candidate.value in ds && Chain(ds, candidate.value) <= Chain(ds, start))
    && Chain(ds, start) <= keep + Ahead(ds, candidate)
    && KeepsQueued(ds, keep) && keep0 <= keep <= keep0 + Chain(ds, start) && keep <= AllIds(ds)
    && count == |keep * Terminals(ds)| <= limit && AtMostOneOrphan(ds, keep)
    && (count < limit ==> forall d :: Orphan(ds, keep, d) ==> last == Some(d) && Parent(ds, d) == candidate)
  }

  /** Passing a delivery that is kept already. */
  lemma PassKept(ds: seq<Delivery>, start: Delivery, keep0: set<Id>, keep: set<Id>, count: nat, limit: nat,
    last: Option<Delivery>, c: Delivery)
    requires Valid(ds) && start in ds && c in ds && c.id in keep
    requires Walking(ds, start, keep0, keep, count, limit, last, Some(c))
    ensures Walking(ds, start, keep0, keep, count, limit, Some(c), Parent(ds, c)) && keep + {c.id} == keep
  {
    if Parent(ds, c).Some? { ParentIsOlder(ds, c); }
  }

  /** Keeping a terminal delivery that was not kept. */
  lemma KeepNext(ds: seq<Delivery>, start: Delivery, keep0: set<Id>, keep: set<Id>, count: nat, limit: nat,
    last: Option<Delivery>, c: Delivery)
    requires Valid(ds) && start in ds && c in ds && c.id !in keep && c.status != Queued && count < limit
    requires Walking(ds, start, keep0, keep, count, limit, last, Some(c))
    ensures Walking(ds, start, keep0, keep + {c.id}, count + 1, limit, Some(c), Parent(ds, c))
  {
    assert c.id in Chain(ds, c);
    KeepOneMore(ds, keep, c);
    forall d | Orphan(ds, keep + {c.id}, d) ensures d == c { OrphansAfter(ds, keep, c, d); }
    if Parent(ds, c).Some? { ParentIsOlder(ds, c); }
  }

  method KeepTerminalChain(ds: seq<Delivery>, start: Delivery, keep0: set<Id>, count0: nat, limit: nat)
    returns (keep: set<Id>, count: nat)
    requires Valid(ds) && start in ds && Keeping(ds, keep0, count0, limit)
    ensures Keeping(ds, keep, count, limit) && keep0 <= keep <= keep0 + Chain(ds, start)
    ensures count0 < limit ==> start.id in keep
    ensures count == limit || Chain(ds, start) <= keep
  {
    keep, count := keep0, count0;
    var candidate := Some(start);
    ghost var last: Option<Delivery> := None;
    while candidate.Some?
      invariant Walking(ds, start, keep0, keep, count, limit, last, candidate)
      invariant count0 < limit ==> start.id in keep || (candidate == Some(start) && count == count0)
      decreases if candidate.Some? then candidate.value.createdAt + 1 else 0
    {
      var c := candidate.value;
      if c.status != Queued && c.id !in keep {
        if count >= limit { return; }
        KeepNext(ds, start, keep0, keep, count, limit, last, c);
        keep, count := keep + {c.id}, count + 1;
      } else {
        PassKept(ds, start, keep0, keep, count, limit, last, c);
        if c.status == Queued { keep := keep + {c.id}; }
      }
      if Parent(ds, c).Some? { ParentIsOlder(ds, c); }
      last, candidate := Some(c), Parent(ds, c);
    }
  }

  /** A kept terminal delivery is, or was retried into, one of the deliveries walked from. */
  ghost predicate Rooted(ds: seq<Delivery>, keep: set<Id>, n: nat)
    requires Valid(ds) && n <= |ds|
  {
    forall t <- ds :: t.status != Queued && t.id in keep ==> HasRoot(ds, t, n)
  }

  ghost predicate HasRoot(ds: seq<Delivery>, t: Delivery, n: nat)
    requires Valid(ds) && n <= |ds|
  {
    exists i :: 0 <= i < |ds| && (i < n || ds[i].status == Queued) && t.id in Chain(ds, ds[i])
  }

  lemma RootedAfter(ds: seq<Delivery>, keep0: set<Id>, keep: set<Id>, n: nat, m: nat, k: nat)
    requires Valid(ds) && n <= m <= |ds| && k < |ds| && (k < m || ds[k].status == Queued)
    requires Rooted(ds, keep0, n) && keep <= keep0 + Chain(ds, ds[k])
    ensures Rooted(ds, keep, m)
  {
    forall t <- ds | t.status != Queued && t.id in keep ensures HasRoot(ds, t, m) {
      if t.id in keep0 {
        assert HasRoot(ds, t, n);
      } else {
        assert t.id in Chain(ds, ds[k]);
      }
    }
  }

  /** Every delivery that a queued one retries, directly or not, is kept. */
  ghost predicate QueuedChainsKept(ds: seq<Delivery>, keep: set<Id>)
    requires Valid(ds)
  {
    forall r <- ds :: r.status == Queued ==> Chain(ds, r) <= keep
  }

  ghost predicate OnQueuedChain(ds: seq<Delivery>, t: Delivery)
    requires Valid(ds)
  {
    exists r <- ds :: r.status == Queued && t.id in Chain(ds, r)
  }

  /** What queued deliveries retry comes before any other terminal delivery. */
  ghost predicate QueuedFirst(ds: seq<Delivery>, keep: set<Id>)
    requires Valid(ds)
  {
    QueuedChainsKept(ds, keep) || forall t <- ds :: t.status != Queued && t.id in keep ==> OnQueuedChain(ds, t)
  }

  lemma RootedInQueued(ds: seq<Delivery>, keep: set<Id>)
    requires Valid(ds) && Rooted(ds, keep, 0)
    ensures QueuedFirst(ds, keep)
  {
    forall t <- ds | t.status != Queued && t.id in keep ensures OnQueuedChain(ds, t) {
      assert HasRoot(ds, t, 0);
      var i :| 0 <= i < |ds| && ds[i].status == Queued && t.id in Chain(ds, ds[i]);
      assert ds[i] in ds;
    }
  }

  ghost function MinOf(a: nat, b: nat): nat { if a < b then a else b }

  /** What retention promises about the kept ids of a ledger. */
  ghost predicate RetainsRight(ds: seq<Delivery>, limit: nat, keep: set<Id>)
    requires Valid(ds)
  {
    Retains(ds, limit, keep) && (|ds| > limit ==> QueuedFirst(ds, keep))
  }

  ghost predicate Retains(ds: seq<Delivery>, limit: nat, keep: set<Id>)
    requires Valid(ds)
  {
    && KeepsQueued(ds, keep) && keep <= AllIds(ds) && AtMostOneOrphan(ds, keep)
    && (|ds| <= limit ==> keep == AllIds(ds))
    && (|ds| > limit ==> |keep * Terminals(ds)| == MinOf(limit, |Terminals(ds)|))
    && (|ds| > limit ==> forall t <- ds, d <- ds :: t.status != Queued && t.id in keep && d.id !in keep ==>
      Preferred(ds, t, d))
  }

  /** `t` was kept for the sake of a queued delivery, or of one at least as new as `d`. */
  ghost predicate Preferred(ds: seq<Delivery>, t: Delivery, d: Delivery)
    requires Valid(ds)
  {
    exists r <- ds :: t.id in Chain(ds, r) && (r.status == Queued || r.createdAt >= d.createdAt)
  }

  /** The walks end either with everything kept or with the limit reached. */
  lemma WalksDone(ds: seq<Delivery>, keep: set<Id>, count: nat, limit: nat, n: nat)
    requires Valid(ds) && n <= |ds| && NewestFirst(ds) && Keeping(ds, keep, count, limit) && |ds| > limit
    requires (forall j :: 0 <= j < n ==> ds[j].id in keep) && Rooted(ds, keep, n) && (count == limit || n == |ds|)
    ensures Retains(ds, limit, keep)
  {
    var all := Terminals(ds);
    if n == |ds| {
      assert keep * all == all;
    } else {
      NoMoreThan(keep * all, all);
    }
    forall t <- ds, d <- ds | t.status != Queued && t.id in keep && d.id !in keep ensures Preferred(ds, t, d) {
      assert HasRoot(ds, t, n);
      var i :| 0 <= i < |ds| && (i < n || ds[i].status == Queued) && t.id in Chain(ds, ds[i]);
      var k :| 0 <= k < |ds| && ds[k] == d;
    }
  }

  lemma NoMoreThan(a: set<Id>, b: set<Id>)
    requires a <= b
    ensures |a| <= |b|
  {
    if a != b {
      assert b == a + (b - a);
    }
  }

  /** What is right for the sorted ledger is right for the ledger. */
  lemma RetainsRightAmongSame(a: seq<Delivery>, b: seq<Delivery>, limit: nat, keep: set<Id>)
    requires Valid(a) && Valid(b) && SameMembers(a, b) && |a| == |b| && RetainsRight(a, limit, keep)
    ensures RetainsRight(b, limit, keep)
  {
    assert AllIds(a) == AllIds(b) && Terminals(a) == Terminals(b);
    forall d | Orphan(b, keep, d) ensures Orphan(a, keep, d) { FindAmongSame(a, b, d.retryOf.value); }
    if |b| > limit {
      QueuedFirstAmongSame(a, b, keep);
      forall t <- b, d <- b | t.status != Queued && t.id in keep && d.id !in keep ensures Preferred(b, t, d) {
        assert Preferred(a, t, d);
        var r :| r in a && t.id in Chain(a, r) && (r.status == Queued || r.createdAt >= d.createdAt);
        ChainAmongSame(a, b, r);
      }
    }
  }

  lemma QueuedFirstAmongSame(a: seq<Delivery>, b: seq<Delivery>, keep: set<Id>)
    requires Valid(a) && Valid(b) && SameMembers(a, b) && QueuedFirst(a, keep)
    ensures QueuedFirst(b, keep)
  {
    forall r <- a ensures Chain(a, r) == Chain(b, r) { ChainAmongSame(a, b, r); }
    if !QueuedChainsKept(a, keep) {
      forall t <- b | t.status != Queued && t.id in keep ensures OnQueuedChain(b, t) {
        assert OnQueuedChain(a, t);
        var r :| r in a && r.status == Queued && t.id in Chain(a, r);
      }
    }
  }

  lemma KeepingQueuedOnly(ds: seq<Delivery>, keep: set<Id>, limit: nat)
    requires Valid(ds) && (forall id :: id in keep <==> exists d <- ds :: d.id == id && d.status == Queued)
    ensures Keeping(ds, keep, 0, limit) && Rooted(ds, keep, 0)
  {
    forall d | d in ds && d.status != Queued ensures d.id !in keep {
      if e :| e in ds && e.id == d.id && e.status == Queued { Sole(ds, d, e); }
    }
    assert keep * Terminals(ds) == {};
  }

  method RetainedDeliveryIds(deliveries: seq<Delivery>, limit: nat) returns (keep: set<Id>)
    requires Valid(deliveries)
    ensures RetainsRight(deliveries, limit, keep)
  {
    var ordered := SortNewest(deliveries);
    SortNewestValid(deliveries);
    SortNewestSorts(deliveries);
    if |ordered| <= limit {
      keep := set d | d in ordered :: d.id;
      assert keep == AllIds(deliveries);
      return;
    }
    keep := set d | d in ordered && d.status == Queued :: d.id;
    var count: nat;
    KeepingQueuedOnly(ordered, keep, limit);
    keep, count := KeepQueuedChains(ordered, keep, limit);
    keep := KeepNewest(ordered, keep, count, limit);
    RetainsRightAmongSame(ordered, deliveries, limit, keep);
  }

  /** The queued ones of the first `n` deliveries and their chains have been walked. */
  ghost predicate QueuedWalked(ds: seq<Delivery>, keep: set<Id>, count: nat, limit: nat, n: nat) {
    && Valid(ds) && n <= |ds| && Keeping(ds, keep, count, limit) && Rooted(ds, keep, 0)
    && (count == limit || forall i :: 0 <= i < n && ds[i].status == Queued ==> Chain(ds, ds[i]) <= keep)
  }

  method WalkQueued(ordered: seq<Delivery>, keep0: set<Id>, count0: nat, limit: nat, n: nat)
    returns (keep: set<Id>, count: nat)
    requires n < |ordered| && QueuedWalked(ordered, keep0, count0, limit, n)
    ensures QueuedWalked(ordered, keep, count, limit, n + 1)
  {
    if ordered[n].status != Queued { return keep0, count0; }
    keep, count := KeepTerminalChain(ordered, ordered[n], keep0, count0, limit);
    RootedAfter(ordered, keep0, keep, 0, 0, n);
    CountGrows(ordered, keep0, keep, count0, count, limit);
  }

  lemma CountGrows(ds: seq<Delivery>, keep0: set<Id>, keep: set<Id>, count0: nat, count: nat, limit: nat)
    requires Keeping(ds, keep0, count0, limit) && Keeping(ds, keep, count, limit) && keep0 <= keep
    ensures count0 <= count
  {
    NoMoreThan(keep0 * Terminals(ds), keep * Terminals(ds));
  }

  method KeepQueuedChains(ordered: seq<Delivery>, keep0: set<Id>, limit: nat) returns (keep: set<Id>, count: nat)
    requires Valid(ordered) && Keeping(ordered, keep0, 0, limit) && Rooted(ordered, keep0, 0)
    ensures Keeping(ordered, keep, count, limit) && Rooted(ordered, keep, 0)
    ensures count == limit || QueuedChainsKept(ordered, keep)
  {
    keep, count := keep0, 0;
    for n := 0 to |ordered|
      invariant QueuedWalked(ordered, keep, count, limit, n)
    {
      keep, count := WalkQueued(ordered, keep, count, limit, n);
    }
  }

  /** The first `n` deliveries and their chains have been walked. */
  ghost predicate Walked(ds: seq<Delivery>, keep: set<Id>, count: nat, limit: nat, n: nat) {
    && Valid(ds) && n <= |ds| && Keeping(ds, keep, count, limit) && Rooted(ds, keep, n)
    && forall j :: 0 <= j < n ==> ds[j].id in keep
  }

  method WalkNext(ordered: seq<Delivery>, keep0: set<Id>, count0: nat, limit: nat, n: nat)
    returns (keep: set<Id>, count: nat)
    requires n < |ordered| && count0 < limit && Walked(ordered, keep0, count0, limit, n)
    ensures Walked(ordered, keep, count, limit, n + 1) && keep0 <= keep
  {
    keep, count := KeepTerminalChain(ordered, ordered[n], keep0, count0, limit);
    RootedAfter(ordered, keep0, keep, n, n + 1, n);
  }

  method KeepNewest(ordered: seq<Delivery>, keep0: set<Id>, count0: nat, limit: nat) returns (keep: set<Id>)
    requires NewestFirst(ordered) && |ordered| > limit && Walked(ordered, keep0, count0, limit, 0)
    requires count0 == limit || QueuedChainsKept(ordered, keep0)
    ensures RetainsRight(ordered, limit, keep)
  {
    keep := keep0;
    var count: nat, n: nat := count0, 0;
    while n < |ordered| && count < limit
      invariant Walked(ordered, keep, count, limit, n)
      invariant keep0 <= keep && (count0 == limit ==> keep == keep0)
    {
      keep, count := WalkNext(ordered, keep, count, limit, n);
      n := n + 1;
    }
    if count0 == limit { RootedInQueued(ordered, keep0); }
    WalksDone(ordered, keep, count, limit, n);
  }
}
