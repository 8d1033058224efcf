/** Runs of the login throttle against plain fixed-window counters that never forget. */
module LoginThrottleRuns {
  import opened Json
  import opened LoginThrottle

  datatype Event = Attempt(account: Option<string>, network: string, now: int) | Forget(whose: string)

  /** What the throttle does between two events. */
  function Step(t: Table, c: Config, e: Event): (Table, seq<Decision>) {
    match e
    case Attempt(account, network, now) =>
      var counted := Counted(t, c, account, network, now);
      (EnforceBound(counted.0, c.maxBuckets), [counted.1])
    case Forget(account) => (ResetAccount(t, account), [])
  }

  function Run(t: Table, c: Config, es: seq<Event>): (Table, seq<Decision>) {
    if es == [] then (t, [])
    else
      var before := Run(t, c, es[..|es| - 1]);
      var last := Step(before.0, c, es[|es| - 1]);
      (last.0, before.1 + last.1)
  }

  /** Fixed-window counters kept in a map that is never pruned, bounded or ordered. */
  function NaiveStep(m: Buckets, c: Config, e: Event): (Buckets, seq<Decision>) {
    match e
    case Attempt(account, network, now) =>
      var tally := CountAll(m, Dimensions(m, c, account, network, now), now, c.windowMs);
      (tally.buckets, [Verdict(tally)])
    case Forget(account) =>
      (map k | k in m && k != Account(account) && PairAccount(k) != Some(account) :: m[k], [])
  }

  function NaiveRun(m: Buckets, c: Config, es: seq<Event>): (Buckets, seq<Decision>) {
    if es == [] then (m, [])
    else
      var before := NaiveRun(m, c, es[..|es| - 1]);
      var last := NaiveStep(before.0, c, es[|es| - 1]);
      (last.0, before.1 + last.1)
  }

  /** The time of the last attempt among the events. */
  function Clock(es: seq<Event>, start: int): int {
    if es == [] then start
    else match es[|es| - 1] case Attempt(_, _, now) => now case Forget(_) => Clock(es[..|es| - 1], start)
  }

  ghost predicate TimeAdvances(es: seq<Event>, start: int) {
    es == [] || (TimeAdvances(es[..|es| - 1], start) && Clock(es[..|es| - 1], start) <= Clock(es, start))
  }

  /** No event pushes a bucket out over the bound. */
  ghost predicate NeverOverBound(t: Table, c: Config, es: seq<Event>) {
    es == [] ||
    (&& NeverOverBound(t, c, es[..|es| - 1])
     && match es[|es| - 1]
        case Attempt(account, network, now) =>
          |Counted(Run(t, c, es[..|es| - 1]).0, c, account, network, now).0.order| <= c.maxBuckets
        case Forget(_) => true)
  }

  /** The same buckets are still counting. */
  ghost predicate SameLive(m: Buckets, n: Buckets, now: int) {
    forall k {:trigger Live(m, k, now)} {:trigger Live(n, k, now)} :: Live(m, k, now) == Live(n, k, now)
  }

  lemma SameLiveLater(m: Buckets, n: Buckets, now: int, later: int)
    requires SameLive(m, n, now) && now <= later
    ensures SameLive(m, n, later)
  {
    forall k ensures Live(m, k, later) == Live(n, k, later) { assert Live(m, k, now) == Live(n, k, now); }
  }

  lemma {:induction false} PruneKeepsLive(t: Table, keys: seq<Key>, now: int)
    ensures SameLive(PruneKeys(t, keys, now).buckets, t.buckets, now)
  {
    if keys != [] {
      PruneKeepsLive(t, keys[..|keys| - 1], now);
      var u, v := PruneKeys(t, keys[..|keys| - 1], now), PruneKeys(t, keys, now);
      forall k ensures Live(v.buckets, k, now) == Live(t.buckets, k, now) {
        assert Live(u.buckets, k, now) == Live(t.buckets, k, now);
      }
    }
  }

  lemma {:induction false} CountSame(m: Buckets, n: Buckets, ds: seq<Dimension>, now: int, windowMs: nat)
    requires SameLive(m, n, now)
    ensures var a, b := CountAll(m, ds, now, windowMs), CountAll(n, ds, now, windowMs);
      SameLive(a.buckets, b.buckets, now) && a == b.(buckets := a.buckets)
  {
    if ds != [] {
      var d := ds[|ds| - 1];
      CountSame(m, n, ds[..|ds| - 1], now, windowMs);
      var a, b := CountAll(m, ds[..|ds| - 1], now, windowMs), CountAll(n, ds[..|ds| - 1], now, windowMs);
      assert Live(a.buckets, d.key, now) == Live(b.buckets, d.key, now);
      var hit := Hit(a.buckets, d.key, now, windowMs);
      var x, y := a.buckets[d.key := hit], b.buckets[d.key := hit];
      forall k ensures Live(x, k, now) == Live(y, k, now) {
        assert Live(a.buckets, k, now) == Live(b.buckets, k, now);
      }
    }
  }

  lemma StepSame(t: Table, m: Buckets, c: Config, e: Event, now: int)
    requires SameLive(t.buckets, m, now)
    requires e.Attempt? ==> now <= e.now && |Counted(t, c, e.account, e.network, e.now).0.order| <= c.maxBuckets
    ensures Step(t, c, e).1 == NaiveStep(m, c, e).1
    ensures SameLive(Step(t, c, e).0.buckets, NaiveStep(m, c, e).0, if e.Attempt? then e.now else now)
  {
    match e
    case Attempt(account, network, at) =>
      var u := Prune(t, at);
      PruneKeepsLive(t, Oldest(t, PRUNE_BUDGET), at);
      SameLiveLater(t.buckets, m, now, at);
      assert SameLive(u.buckets, m, at) by {
        forall k ensures Live(u.buckets, k, at) == Live(m, k, at) {
          assert Live(u.buckets, k, at) == Live(t.buckets, k, at);
        }
      }
      if account.Some? { assert Live(u.buckets, Account(account.value), at) == Live(m, Account(account.value), at); }
      CountSame(u.buckets, m, Dimensions(m, c, account, network, at), at, c.windowMs);
    case Forget(account) =>
      var n := NaiveStep(m, c, e).0;
      forall k ensures Live(Step(t, c, e).0.buckets, k, now) == Live(n, k, now) {
        assert Live(t.buckets, k, now) == Live(m, k, now);
      }
  }

  /** As long as time does not go back and the bound drops nothing, every decision is the one
      fixed-window counters would take: pruning and re-ordering are invisible. */
  lemma {:induction false} PruningIsInvisible(c: Config, es: seq<Event>, start: int)
    requires TimeAdvances(es, start) && NeverOverBound(Table([], map[]), c, es)
    ensures Run(Table([], map[]), c, es).1 == NaiveRun(map[], c, es).1
    ensures SameLive(Run(Table([], map[]), c, es).0.buckets, NaiveRun(map[], c, es).0, Clock(es, start))
  {
    if es != [] {
      var q, e := es[..|es| - 1], es[|es| - 1];
      PruningIsInvisible(c, q, start);
      StepSame(Run(Table([], map[]), c, q).0, NaiveRun(map[], c, q).0, c, e, Clock(q, start));
    }
  }

  /** The bound gives up the least recently counted buckets and no more than it must. */
  lemma {:induction false} BoundDropsOldest(t: Table, maxBuckets: nat, history: seq<Key>, gone: Key, kept: Key)
    requires Recent(t.order, history)
    requires gone in t.order && gone !in EnforceBound(t, maxBuckets).order && kept in EnforceBound(t, maxBuckets).order
    ensures LastHit(history, gone) < LastHit(history, kept)
    ensures |EnforceBound(t, maxBuckets).order| == maxBuckets
    decreases |t.order|
  {
    var rest := Table(t.order[1..], t.buckets - {t.order[0]});
    assert t.order == [t.order[0]] + rest.order;
    BoundKeepsSuffix(rest, maxBuckets, kept);
    if gone in rest.order {
      BoundDropsOldest(rest, maxBuckets, history, gone, kept);
    } else {
      BoundSize(rest, maxBuckets);
    }
  }

  lemma {:induction false} BoundKeepsSuffix(t: Table, maxBuckets: nat, k: Key)
    requires k in EnforceBound(t, maxBuckets).order
    ensures k in t.order
    decreases |t.order|
  {
    if |t.order| > maxBuckets {
      BoundKeepsSuffix(Table(t.order[1..], t.buckets - {t.order[0]}), maxBuckets, k);
      assert t.order == [t.order[0]] + t.order[1..];
    }
  }

  lemma {:induction false} BoundSize(t: Table, maxBuckets: nat)
    ensures |EnforceBound(t, maxBuckets).order| == if |t.order| <= maxBuckets then |t.order| else maxBuckets
    decreases |t.order|
  {
    if |t.order| > maxBuckets { BoundSize(Table(t.order[1..], t.buckets - {t.order[0]}), maxBuckets); }
  }
}
