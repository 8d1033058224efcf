/** When the login throttle refuses an attempt, said of the events before it. */
module LoginThrottlePolicy {
  import opened Json
  import opened LoginThrottle
  import opened LoginThrottleRuns

  // ----- Windows in a history of events -----

  /** The window a counter is in: its first attempt, and how many it has counted. */
  datatype Window = Window(start: int, size: nat)

  ghost predicate Open(w: Option<Window>, c: Config, now: int) { w.Some? && now < w.value.start + c.windowMs }

  /** An attempt counts for its network, for its account and, unless the account had used up its
      attempts, for the two together. */
  ghost predicate CountsFor(c: Config, es: seq<Event>, k: Key, account: Option<string>, network: string, now: int)
    decreases |es|, if k.Pair? then 1 else 0, 1
  {
    match k
    case Network(n) => network == n
    case Account(a) => account == Some(a)
    case Pair(a, n) => account == Some(a) && network == n && !UsedUp(c, es, a, now)
  }

  ghost predicate UsedUp(c: Config, es: seq<Event>, a: string, now: int)
    decreases |es|, 1, 0
  {
    var w := WindowOf(c, es, Account(a));
    Open(w, c, now) && w.value.size >= c.accountMax
  }

  /** The last window of a counter since it was last forgotten: each attempt that finds no open
      window starts one. */
  ghost function WindowOf(c: Config, es: seq<Event>, k: Key): Option<Window>
    decreases |es|, if k.Pair? then 1 else 0, 0
  {
    if es == [] then None
    else
      var before := WindowOf(c, es[..|es| - 1], k);
      match es[|es| - 1]
      case Forget(a) => if k == Account(a) || (k.Pair? && k.account == a) then None else before
      case Attempt(account, network, now) =>
        if !CountsFor(c, es[..|es| - 1], k, account, network, now) then before
        else if Open(before, c, now) then Some(Window(before.value.start, before.value.size + 1))
        else Some(Window(now, 1))
  }

  // ----- The policy -----

  /** An attempt after the events, as one counter sees it. */
  ghost function Joined(c: Config, es: seq<Event>, k: Key, now: int): Window {
    var w := WindowOf(c, es, k);
    if Open(w, c, now) then Window(w.value.start, w.value.size + 1) else Window(now, 1)
  }

  ghost function LimitOf(c: Config, kind: Kind): nat {
    match kind
    case ByAccount => c.accountMax
    case ByNetwork => c.networkMax
    case ByPair => c.pairMax
  }

  ghost function Place(kind: Kind): nat {
    match kind
    case ByNetwork => 0
    case ByAccount => 1
    case ByPair => 2
  }

  /** The counter a kind of limit looks at. */
  ghost function CounterOf(kind: Kind, account: Option<string>, network: string): Option<Key> {
    match kind
    case ByNetwork => Some(Network(network))
    case ByAccount => if account.None? then None else Some(Account(account.value))
    case ByPair => if account.None? then None else Some(Pair(account.value, network))
  }

  /** The window of that counter with the attempt in it. */
  ghost function After(c: Config, es: seq<Event>, account: Option<string>, network: string, now: int,
    kind: Kind): Window
  {
    var k := CounterOf(kind, account, network);
    if k.Some? then Joined(c, es, k.value, now) else Window(now, 0)
  }

  /** The attempt counts and is one too many in its window. */
  ghost predicate Exceeds(c: Config, es: seq<Event>, account: Option<string>, network: string, now: int, kind: Kind) {
    var k := CounterOf(kind, account, network);
    && k.Some? && CountsFor(c, es, k.value, account, network, now)
    && After(c, es, account, network, now, kind).size > LimitOf(c, kind)
  }

  ghost function LeftMs(c: Config, es: seq<Event>, account: Option<string>, network: string, now: int, kind: Kind): int
  {
    After(c, es, account, network, now, kind).start + c.windowMs - now
  }

  ghost predicate FirstCrossing(c: Config, es: seq<Event>, account: Option<string>, network: string, now: int,
    kind: Kind)
  {
    && Exceeds(c, es, account, network, now, kind)
    && After(c, es, account, network, now, kind).size == LimitOf(c, kind) + 1
  }

  /** The decision on an attempt that follows the events. */
  ghost predicate Judged(c: Config, es: seq<Event>, account: Option<string>, network: string, now: int, d: Decision) {
    && (forall kind :: kind in d.limitedBy <==> Exceeds(c, es, account, network, now, kind))
    && (forall i, j :: 0 <= i < j < |d.limitedBy| ==> Place(d.limitedBy[i]) < Place(d.limitedBy[j]))
    && (d.allowed <==> d.limitedBy == [])
    && (d.auditRecommended <==> exists kind :: FirstCrossing(c, es, account, network, now, kind))
    && (d.allowed ==> d.retryAfterSeconds == 0)
    && (!d.allowed ==> d.retryAfterSeconds >= 1)
    && (forall kind :: Exceeds(c, es, account, network, now, kind) ==>
          1000 * d.retryAfterSeconds >= LeftMs(c, es, account, network, now, kind))
    && (d.retryAfterSeconds > 1 ==> exists kind ::
          Exceeds(c, es, account, network, now, kind)
          && 1000 * (d.retryAfterSeconds - 1) < LeftMs(c, es, account, network, now, kind))
  }

  // ----- What one attempt counts -----

  ghost predicate DistinctKeys(ds: seq<Dimension>) { forall i, j :: 0 <= i < j < |ds| ==> ds[i].key != ds[j].key }

  lemma {:induction false} OthersUncounted(m: Buckets, ds: seq<Dimension>, now: int, windowMs: nat, k: Key)
    requires forall d <- ds :: d.key != k
    ensures var n := CountAll(m, ds, now, windowMs).buckets; (k in n <==> k in m) && (k in m ==> n[k] == m[k])
  {
    if ds != [] { OthersUncounted(m, ds[..|ds| - 1], now, windowMs, k); }
  }

  lemma LastUncounted(m: Buckets, ds: seq<Dimension>, now: int, windowMs: nat)
    requires DistinctKeys(ds) && ds != []
    ensures var q, k := ds[..|ds| - 1], ds[|ds| - 1].key;
      Hit(CountAll(m, q, now, windowMs).buckets, k, now, windowMs) == Hit(m, k, now, windowMs)
  {
    var q, k := ds[..|ds| - 1], ds[|ds| - 1].key;
    forall d <- q ensures d.key != k { var i :| 0 <= i < |q| && ds[i] == d; }
    OthersUncounted(m, q, now, windowMs, k);
  }

  lemma {:induction false} CountedOnce(m: Buckets, ds: seq<Dimension>, now: int, windowMs: nat, d: Dimension)
    requires DistinctKeys(ds) && d in ds
    ensures var n := CountAll(m, ds, now, windowMs).buckets; d.key in n && n[d.key] == Hit(m, d.key, now, windowMs)
  {
    var q, last := ds[..|ds| - 1], ds[|ds| - 1];
    if d == last {
      LastUncounted(m, ds, now, windowMs);
    } else {
      var i :| 0 <= i < |ds| && ds[i] == d;
      assert q[i] == d && ds[i].key != ds[|ds| - 1].key;
      CountedOnce(m, q, now, windowMs, d);
    }
  }

  ghost predicate Over(m: Buckets, d: Dimension, now: int, windowMs: nat) {
    Hit(m, d.key, now, windowMs).count > d.limit
  }

  ghost predicate AuditedBy(m: Buckets, d: Dimension, now: int, windowMs: nat) {
    Hit(m, d.key, now, windowMs).count == d.limit + 1
  }

  ghost predicate KindsTallied(m: Buckets, ds: seq<Dimension>, now: int, windowMs: nat, t: Tally) {
    && (forall kind :: kind in t.limitedBy <==> exists d <- ds :: d.kind == kind && Over(m, d, now, windowMs))
    && (t.audit <==> exists d <- ds :: AuditedBy(m, d, now, windowMs))
  }

  function Remaining(m: Buckets, d: Dimension, now: int, windowMs: nat): int {
    Hit(m, d.key, now, windowMs).resetAt - now
  }

  ghost predicate RetryTallied(m: Buckets, ds: seq<Dimension>, now: int, windowMs: nat, t: Tally) {
    && (forall d <- ds :: Over(m, d, now, windowMs) ==> t.retryAfterMs >= Remaining(m, d, now, windowMs))
    && t.retryAfterMs >= 0
    && (t.retryAfterMs > 0 ==>
          exists d <- ds :: Over(m, d, now, windowMs) && t.retryAfterMs == Remaining(m, d, now, windowMs))
  }

  lemma KindsOneMore(m: Buckets, q: seq<Dimension>, last: Dimension, now: int, windowMs: nat, t: Tally)
    requires KindsTallied(m, q, now, windowMs, t)
    requires Hit(t.buckets, last.key, now, windowMs) == Hit(m, last.key, now, windowMs)
    ensures KindsTallied(m, q + [last], now, windowMs, CountOne(t, last, now, windowMs))
  {
    var ds := q + [last];
    assert forall d :: d in ds <==> d in q || d == last;
    assert Over(m, last, now, windowMs) || !AuditedBy(m, last, now, windowMs);
    if t.audit {
      var d :| d in q && AuditedBy(m, d, now, windowMs);
      assert d in ds;
    }
    forall kind | kind in t.limitedBy ensures exists d <- ds :: d.kind == kind && Over(m, d, now, windowMs) {
      var d :| d in q && d.kind == kind && Over(m, d, now, windowMs);
      assert d in ds;
    }
    assert last in ds;
  }

  lemma RetryOneMore(m: Buckets, q: seq<Dimension>, last: Dimension, now: int, windowMs: nat, t: Tally)
    requires RetryTallied(m, q, now, windowMs, t)
    requires Hit(t.buckets, last.key, now, windowMs) == Hit(m, last.key, now, windowMs)
    ensures RetryTallied(m, q + [last], now, windowMs, CountOne(t, last, now, windowMs))
  {
    var ds := q + [last];
    assert forall d :: d in ds <==> d in q || d == last;
    if t.retryAfterMs > 0 {
      var d :| d in q && Over(m, d, now, windowMs) && t.retryAfterMs == Remaining(m, d, now, windowMs);
      assert d in ds;
    }
    assert last in ds;
  }

  lemma {:induction false} CountAllTallies(m: Buckets, ds: seq<Dimension>, now: int, windowMs: nat)
    requires DistinctKeys(ds)
    ensures KindsTallied(m, ds, now, windowMs, CountAll(m, ds, now, windowMs))
    ensures RetryTallied(m, ds, now, windowMs, CountAll(m, ds, now, windowMs))
  {
    if ds != [] {
      var q, last := ds[..|ds| - 1], ds[|ds| - 1];
      CountAllTallies(m, q, now, windowMs);
      LastUncounted(m, ds, now, windowMs);
      var t := CountAll(m, q, now, windowMs);
      KindsOneMore(m, q, last, now, windowMs, t);
      RetryOneMore(m, q, last, now, windowMs, t);
      assert ds == q + [last];
    }
  }

  // ----- The counters hold the windows of the history -----

  ghost predicate Agrees(m: Buckets, c: Config, es: seq<Event>, k: Key) {
    var w := WindowOf(c, es, k);
    && (k in m <==> w.Some?)
    && (w.Some? ==> m[k] == Bucket(w.value.size, w.value.start + c.windowMs, PairAccount(k)))
  }

  lemma HitJoins(m: Buckets, c: Config, es: seq<Event>, k: Key, now: int)
    requires Agrees(m, c, es, k)
    ensures var w := Joined(c, es, k, now);
      Hit(m, k, now, c.windowMs) == Bucket(w.size, w.start + c.windowMs, PairAccount(k))
  {}

  lemma DimensionsListed(m: Buckets, c: Config, es: seq<Event>, account: Option<string>, network: string, now: int)
    requires forall a :: Agrees(m, c, es, Account(a))
    ensures var x := Dimension(ByNetwork, Network(network), c.networkMax);
      Dimensions(m, c, account, network, now) ==
        if account.None? then [x]
        else
          var y := Dimension(ByAccount, Account(account.value), c.accountMax);
          if UsedUp(c, es, account.value, now) then [x, y]
          else [x, y, Dimension(ByPair, Pair(account.value, network), c.pairMax)]
  {
    if account.Some? { assert Agrees(m, c, es, Account(account.value)); }
  }

  lemma DimensionsOrdered(m: Buckets, c: Config, account: Option<string>, network: string, now: int)
    ensures var ds := Dimensions(m, c, account, network, now);
      DistinctKeys(ds) && forall i, j :: 0 <= i < j < |ds| ==> Place(ds[i].kind) < Place(ds[j].kind)
  {}

  /** The dimensions of an attempt are the counters it counts for, each with its limit. */
  lemma DimensionsAre(m: Buckets, c: Config, es: seq<Event>, account: Option<string>, network: string, now: int,
    d: Dimension)
    requires forall a :: Agrees(m, c, es, Account(a))
    ensures d in Dimensions(m, c, account, network, now) <==>
      && CounterOf(d.kind, account, network) == Some(d.key) && CountsFor(c, es, d.key, account, network, now)
      && d.limit == LimitOf(c, d.kind)
  {
    DimensionsListed(m, c, es, account, network, now);
  }

  ghost function KindOf(k: Key): Kind {
    match k
    case Network(_) => ByNetwork
    case Account(_) => ByAccount
    case Pair(_, _) => ByPair
  }

  lemma CountedHasKind(c: Config, es: seq<Event>, account: Option<string>, network: string, now: int, k: Key)
    requires CountsFor(c, es, k, account, network, now)
    ensures CounterOf(KindOf(k), account, network) == Some(k)
  {}

  lemma CountedAgrees(m: Buckets, c: Config, q: seq<Event>, e: Event, k: Key)
    requires e.Attempt? && (forall x :: Agrees(m, c, q, x)) && CountsFor(c, q, k, e.account, e.network, e.now)
    ensures Agrees(NaiveStep(m, c, e).0, c, q + [e], k)
  {
    var ds, d := Dimensions(m, c, e.account, e.network, e.now), Dimension(KindOf(k), k, LimitOf(c, KindOf(k)));
    assert (q + [e])[..|q|] == q;
    CountedHasKind(c, q, e.account, e.network, e.now, k);
    DimensionsAre(m, c, q, e.account, e.network, e.now, d);
    DimensionsOrdered(m, c, e.account, e.network, e.now);
    CountedOnce(m, ds, e.now, c.windowMs, d);
    assert Agrees(m, c, q, k);
    HitJoins(m, c, q, k, e.now);
  }

  lemma UncountedAgrees(m: Buckets, c: Config, q: seq<Event>, e: Event, k: Key)
    requires e.Attempt? && (forall x :: Agrees(m, c, q, x)) && !CountsFor(c, q, k, e.account, e.network, e.now)
    ensures Agrees(NaiveStep(m, c, e).0, c, q + [e], k)
  {
    var ds := Dimensions(m, c, e.account, e.network, e.now);
    assert (q + [e])[..|q|] == q;
    forall d <- ds ensures d.key != k { DimensionsAre(m, c, q, e.account, e.network, e.now, d); }
    OthersUncounted(m, ds, e.now, c.windowMs, k);
    assert Agrees(m, c, q, k);
  }

  lemma {:induction false} HistoryAgrees(c: Config, es: seq<Event>, k: Key)
    ensures Agrees(NaiveRun(map[], c, es).0, c, es, k)
  {
    if es != [] {
      var q, e := es[..|es| - 1], es[|es| - 1];
      assert es == q + [e];
      forall x ensures Agrees(NaiveRun(map[], c, q).0, c, q, x) { HistoryAgrees(c, q, x); }
      if e.Attempt? {
        var m := NaiveRun(map[], c, q).0;
        if CountsFor(c, q, k, e.account, e.network, e.now) { CountedAgrees(m, c, q, e, k); }
        else { UncountedAgrees(m, c, q, e, k); }
      } else {
        assert Agrees(NaiveRun(map[], c, q).0, c, q, k);
      }
    }
  }

  // ----- The decisions -----

  lemma VerdictRounds(t: Tally)
    requires t.retryAfterMs >= 0
    ensures var d := Verdict(t);
      && d.limitedBy == t.limitedBy && d.auditRecommended == t.audit && (d.allowed <==> t.limitedBy == [])
      && (d.allowed ==> d.retryAfterSeconds == 0)
      && (!d.allowed ==> 1 <= d.retryAfterSeconds && 1000 * d.retryAfterSeconds >= t.retryAfterMs)
      && (d.retryAfterSeconds > 1 ==> 1000 * (d.retryAfterSeconds - 1) < t.retryAfterMs)
  {}

  ghost predicate HasKind(ds: seq<Dimension>, kind: Kind) { exists d <- ds :: d.kind == kind }

  ghost predicate OrderTallied(ds: seq<Dimension>, kinds: seq<Kind>) {
    && (forall i, j :: 0 <= i < j < |kinds| ==> Place(kinds[i]) < Place(kinds[j]))
    && (forall i :: 0 <= i < |kinds| ==> HasKind(ds, kinds[i]))
  }

  lemma OrderOneMore(q: seq<Dimension>, last: Dimension, kinds: seq<Kind>)
    requires OrderTallied(q, kinds) && forall d <- q :: Place(d.kind) < Place(last.kind)
    ensures OrderTallied(q + [last], kinds) && OrderTallied(q + [last], kinds + [last.kind])
  {
    var ds := q + [last];
    forall i | 0 <= i < |kinds| ensures Place(kinds[i]) < Place(last.kind) && HasKind(ds, kinds[i]) {
      assert HasKind(q, kinds[i]);
      var d :| d in q && d.kind == kinds[i];
      assert d in ds;
    }
    assert last in ds && HasKind(ds, last.kind);
  }

  lemma {:induction false} CountAllOrders(m: Buckets, ds: seq<Dimension>, now: int, windowMs: nat)
    requires forall i, j :: 0 <= i < j < |ds| ==> Place(ds[i].kind) < Place(ds[j].kind)
    ensures OrderTallied(ds, CountAll(m, ds, now, windowMs).limitedBy)
  {
    if ds != [] {
      var q, last := ds[..|ds| - 1], ds[|ds| - 1];
      CountAllOrders(m, q, now, windowMs);
      OrderOneMore(q, last, CountAll(m, q, now, windowMs).limitedBy);
      assert ds == q + [last];
    }
  }

  /** A kind of limit is exceeded exactly when its dimension is over, and by as much. */
  lemma ExceedsIff(m: Buckets, c: Config, es: seq<Event>, account: Option<string>, network: string, now: int,
    d: Dimension)
    requires (forall k :: Agrees(m, c, es, k)) && d.limit == LimitOf(c, d.kind)
    requires CounterOf(d.kind, account, network) == Some(d.key)
    ensures Exceeds(c, es, account, network, now, d.kind)
      <==> d in Dimensions(m, c, account, network, now) && Over(m, d, now, c.windowMs)
    ensures Hit(m, d.key, now, c.windowMs).count == After(c, es, account, network, now, d.kind).size
    ensures Remaining(m, d, now, c.windowMs) == LeftMs(c, es, account, network, now, d.kind)
  {
    assert Agrees(m, c, es, d.key);
    HitJoins(m, c, es, d.key, now);
    DimensionsAre(m, c, es, account, network, now, d);
  }

  ghost predicate Stands(m: Buckets, c: Config, es: seq<Event>, account: Option<string>, network: string, now: int,
    d: Dimension)
  {
    && Exceeds(c, es, account, network, now, d.kind) && d.limit == LimitOf(c, d.kind)
    && Hit(m, d.key, now, c.windowMs).count == After(c, es, account, network, now, d.kind).size
    && Remaining(m, d, now, c.windowMs) == LeftMs(c, es, account, network, now, d.kind)
  }

  lemma OverStands(m: Buckets, c: Config, es: seq<Event>, account: Option<string>, network: string, now: int,
    d: Dimension)
    requires forall k :: Agrees(m, c, es, k)
    requires d in Dimensions(m, c, account, network, now) && Over(m, d, now, c.windowMs)
    ensures Stands(m, c, es, account, network, now, d)
  {
    DimensionsAre(m, c, es, account, network, now, d);
    ExceedsIff(m, c, es, account, network, now, d);
  }

  lemma ExceededIsOver(m: Buckets, c: Config, es: seq<Event>, account: Option<string>, network: string, now: int,
    kind: Kind)
    returns (d: Dimension)
    requires (forall k :: Agrees(m, c, es, k)) && Exceeds(c, es, account, network, now, kind)
    ensures d.kind == kind && d in Dimensions(m, c, account, network, now) && Over(m, d, now, c.windowMs)
    ensures Stands(m, c, es, account, network, now, d)
  {
    d := Dimension(kind, CounterOf(kind, account, network).value, LimitOf(c, kind));
    ExceedsIff(m, c, es, account, network, now, d);
  }

  lemma KindsJudged(m: Buckets, c: Config, es: seq<Event>, account: Option<string>, network: string, now: int, t: Tally)
    requires forall k :: Agrees(m, c, es, k)
    requires KindsTallied(m, Dimensions(m, c, account, network, now), now, c.windowMs, t)
    ensures forall kind :: kind in t.limitedBy <==> Exceeds(c, es, account, network, now, kind)
    ensures t.audit <==> exists kind :: FirstCrossing(c, es, account, network, now, kind)
  {
    var ds := Dimensions(m, c, account, network, now);
    forall kind | kind in t.limitedBy ensures Exceeds(c, es, account, network, now, kind) {
      var d :| d in ds && d.kind == kind && Over(m, d, now, c.windowMs);
      OverStands(m, c, es, account, network, now, d);
    }
    forall kind | Exceeds(c, es, account, network, now, kind)
      ensures kind in t.limitedBy && (FirstCrossing(c, es, account, network, now, kind) ==> t.audit)
    {
      var d := ExceededIsOver(m, c, es, account, network, now, kind);
      assert FirstCrossing(c, es, account, network, now, kind) ==> AuditedBy(m, d, now, c.windowMs);
    }
    if t.audit {
      var d :| d in ds && AuditedBy(m, d, now, c.windowMs);
      OverStands(m, c, es, account, network, now, d);
      assert FirstCrossing(c, es, account, network, now, d.kind);
    }
  }

  lemma RetryJudged(m: Buckets, c: Config, es: seq<Event>, account: Option<string>, network: string, now: int, t: Tally)
    requires forall k :: Agrees(m, c, es, k)
    requires RetryTallied(m, Dimensions(m, c, account, network, now), now, c.windowMs, t)
    ensures forall kind :: Exceeds(c, es, account, network, now, kind) ==>
      t.retryAfterMs >= LeftMs(c, es, account, network, now, kind)
    ensures t.retryAfterMs > 0 ==> exists kind ::
      Exceeds(c, es, account, network, now, kind) && t.retryAfterMs == LeftMs(c, es, account, network, now, kind)
  {
    var ds := Dimensions(m, c, account, network, now);
    forall kind | Exceeds(c, es, account, network, now, kind)
      ensures t.retryAfterMs >= LeftMs(c, es, account, network, now, kind)
    {
      var d := ExceededIsOver(m, c, es, account, network, now, kind);
    }
    if t.retryAfterMs > 0 {
      var d :| d in ds && Over(m, d, now, c.windowMs) && t.retryAfterMs == Remaining(m, d, now, c.windowMs);
      OverStands(m, c, es, account, network, now, d);
    }
  }

  /** What plain counters that agree with the history decide. */
  lemma CountersJudge(m: Buckets, c: Config, es: seq<Event>, account: Option<string>, network: string, now: int)
    requires forall k :: Agrees(m, c, es, k)
    ensures Judged(c, es, account, network, now,
      Verdict(CountAll(m, Dimensions(m, c, account, network, now), now, c.windowMs)))
  {
    var ds := Dimensions(m, c, account, network, now);
    var t := CountAll(m, ds, now, c.windowMs);
    DimensionsOrdered(m, c, account, network, now);
    CountAllTallies(m, ds, now, c.windowMs);
    CountAllOrders(m, ds, now, c.windowMs);
    KindsJudged(m, c, es, account, network, now, t);
    RetryJudged(m, c, es, account, network, now, t);
    VerdictRounds(t);
  }

  /** While time does not go back and the bound drops nothing, an attempt is refused exactly when
      it is one too many for its network, its account or, unless the account has used up its
      attempts, the two together, in the window since the account was last forgotten. */
  lemma AttemptsJudged(c: Config, es: seq<Event>, account: Option<string>, network: string, now: int, start: int)
    requires TimeAdvances(es + [Attempt(account, network, now)], start)
    requires NeverOverBound(Table([], map[]), c, es + [Attempt(account, network, now)])
    ensures Judged(c, es, account, network, now, Counted(Run(Table([], map[]), c, es).0, c, account, network, now).1)
  {
    var e := Attempt(account, network, now);
    var t, m := Run(Table([], map[]), c, es).0, NaiveRun(map[], c, es).0;
    assert (es + [e])[..|es|] == es;
    PruningIsInvisible(c, es, start);
    StepSame(t, m, c, e, Clock(es, start));
    assert Step(t, c, e).1[0] == NaiveStep(m, c, e).1[0];
    forall k ensures Agrees(m, c, es, k) { HistoryAgrees(c, es, k); }
    CountersJudge(m, c, es, account, network, now);
  }
}
