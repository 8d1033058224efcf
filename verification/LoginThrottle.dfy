/** The login throttle: fixed-window counters in an insertion-ordered map with a bound, and
    an index from accounts to their pair buckets. */
module LoginThrottle {
  import opened Json

  datatype Key = Network(network: string) | Account(account: string) | Pair(account: string, network: string)

  datatype Bucket = Bucket(count: nat, resetAt: int, pairAccount: Option<string>)

  type Buckets = map<Key, Bucket>

  datatype Config = Config(windowMs: nat, accountMax: nat, networkMax: nat, pairMax: nat, maxBuckets: nat)

  datatype Kind = ByAccount | ByNetwork | ByPair

  datatype Dimension = Dimension(kind: Kind, key: Key, limit: nat)

  datatype Decision = Decision(allowed: bool, retryAfterSeconds: int, limitedBy: seq<Kind>, auditRecommended: bool)

  function PairAccount(k: Key): Option<string> {
    match k case Pair(a, _) => Some(a) case _ => None
  }

  // ----- Fixed-window counting over a map -----

  function Live(m: Buckets, k: Key, now: int): Option<Bucket> {
    if k in m && m[k].resetAt > now then Some(m[k]) else None
  }

  function Hit(m: Buckets, k: Key, now: int, windowMs: nat): Bucket {
    var b := Live(m, k, now);
    if b.Some? then b.value.(count := b.value.count + 1) else Bucket(1, now + windowMs, PairAccount(k))
  }

  /** An account that is already limited is not counted per network as well. */
  function Dimensions(m: Buckets, c: Config, account: Option<string>, network: string, now: int): seq<Dimension> {
    var perNetwork := [Dimension(ByNetwork, Network(network), c.networkMax)];
    if account.None? then perNetwork
    else
      var b := Live(m, Account(account.value), now);
      perNetwork + [Dimension(ByAccount, Account(account.value), c.accountMax)]
        + if b.Some? && b.value.count >= c.accountMax then []
          else [Dimension(ByPair, Pair(account.value, network), c.pairMax)]
  }

  datatype Tally = Tally(buckets: Buckets, limitedBy: seq<Kind>, audit: bool, retryAfterMs: int)

  function CountOne(t: Tally, d: Dimension, now: int, windowMs: nat): Tally {
    var b := Hit(t.buckets, d.key, now, windowMs);
    var buckets := t.buckets[d.key := b];
    if b.count > d.limit then
      Tally(buckets, t.limitedBy + [d.kind], t.audit || b.count == d.limit + 1,
            if b.resetAt - now > t.retryAfterMs then b.resetAt - now else t.retryAfterMs)
    else t.(buckets := buckets)
  }

  function CountAll(m: Buckets, ds: seq<Dimension>, now: int, windowMs: nat): Tally {
    if ds == [] then Tally(m, [], false, 0)
    else CountOne(CountAll(m, ds[..|ds| - 1], now, windowMs), ds[|ds| - 1], now, windowMs)
  }

  function Verdict(t: Tally): Decision {
    var seconds := (t.retryAfterMs + 999) / 1000;
    Decision(t.limitedBy == [], if t.limitedBy == [] then 0 else if seconds > 1 then seconds else 1, t.limitedBy,
      t.audit)
  }

  // ----- The ordered table -----

  datatype Table = Table(order: seq<Key>, buckets: Buckets)

  function Remove(s: seq<Key>, k: Key): seq<Key> {
    if s == [] then [] else (if s[0] == k then [] else [s[0]]) + Remove(s[1..], k)
  }

  function Touch(s: seq<Key>, k: Key): seq<Key> { Remove(s, k) + [k] }

  function TouchAll(s: seq<Key>, ds: seq<Dimension>): seq<Key> {
    if ds == [] then s else Touch(TouchAll(s, ds[..|ds| - 1]), ds[|ds| - 1].key)
  }

  function Evict(t: Table, k: Key): Table { Table(Remove(t.order, k), t.buckets - {k}) }

  /** Expired buckets among the given keys are dropped. */
  function PruneKeys(t: Table, keys: seq<Key>, now: int): Table {
    if keys == [] then t
    else
      PruneKey(PruneKeys(t, keys[..|keys| - 1], now), keys[|keys| - 1], now)
  }

  function PruneKey(t: Table, k: Key, now: int): Table {
    if k in t.buckets && t.buckets[k].resetAt <= now then Evict(t, k) else t
  }

  lemma PruneOneMore(t: Table, keys: seq<Key>, n: nat, now: int)
    requires n < |keys|
    ensures PruneKeys(t, keys[..n + 1], now) == PruneKey(PruneKeys(t, keys[..n], now), keys[n], now)
  {
    assert keys[..n + 1][..n] == keys[..n];
  }

  const PRUNE_BUDGET: nat := 64

  function Oldest(t: Table, budget: nat): seq<Key> {
    if budget <= |t.order| then t.order[..budget] else t.order
  }

  function Prune(t: Table, now: int): Table { PruneKeys(t, Oldest(t, PRUNE_BUDGET), now) }

  /** The oldest entries go until the bound holds. */
  function EnforceBound(t: Table, maxBuckets: nat): Table
    decreases |t.order|
  {
    if |t.order| <= maxBuckets then t else EnforceBound(Table(t.order[1..], t.buckets - {t.order[0]}), maxBuckets)
  }

  /** Counting one attempt, before the bound is enforced. */
  function Counted(t: Table, c: Config, account: Option<string>, network: string, now: int): (Table, Decision) {
    var u := Prune(t, now);
    var ds := Dimensions(u.buckets, c, account, network, now);
    var tally := CountAll(u.buckets, ds, now, c.windowMs);
    (Table(TouchAll(u.order, ds), tally.buckets), Verdict(tally))
  }

  function ResetAccount(t: Table, a: string): Table {
    var gone := set k | k in t.buckets && (k == Account(a) || PairAccount(k) == Some(a));
    Table(Without(t.order, gone), t.buckets - gone)
  }

  function Without(s: seq<Key>, gone: set<Key>): seq<Key> {
    if s == [] then [] else (if s[0] in gone then [] else [s[0]]) + Without(s[1..], gone)
  }

  type PairIndex = map<string, set<Key>>

  /** The index holds exactly the pair keys among `keys`, by account, and no empty set. */
  ghost predicate Indexes(index: PairIndex, keys: set<Key>) {
    && (forall k :: k in keys && k.Pair? ==> k.account in index && k in index[k.account])
    && (forall a, k :: a in index && k in index[a] ==> k in keys && k.Pair? && k.account == a)
    && (forall a :: a in index ==> index[a] != {})
  }

  function Unindexed(index: PairIndex, k: Key): PairIndex {
    if !k.Pair? || k.account !in index then index
    else if index[k.account] - {k} == {} then index - {k.account}
    else index[k.account := index[k.account] - {k}]
  }

  function Indexed(index: PairIndex, k: Key): PairIndex {
    if !k.Pair? then index
    else index[k.account := (if k.account in index then index[k.account] else {}) + {k}]
  }

  // ----- Ordered keys -----

  lemma {:induction false} RemoveMembers(s: seq<Key>, k: Key)
    ensures forall x :: x in Remove(s, k) <==> x in s && x != k
  {
    if s != [] { RemoveMembers(s[1..], k); assert s == [s[0]] + s[1..]; }
  }

  // ----- Recency -----

  /** Position of the last hit of a key; -1 when it was never hit. */
  function LastHit(history: seq<Key>, k: Key): int {
    if history == [] then -1
    else if history[|history| - 1] == k then |history| - 1
    else LastHit(history[..|history| - 1], k)
  }

  lemma {:induction false} LastHitRange(history: seq<Key>, k: Key)
    ensures -1 <= LastHit(history, k) < |history|
    ensures LastHit(history, k) >= 0 ==> history[LastHit(history, k)] == k
  {
    if history != [] { LastHitRange(history[..|history| - 1], k); }
  }

  /** The order of the map is the order of last hits; in particular no key occurs twice. */
  ghost predicate Recent(order: seq<Key>, history: seq<Key>) {
    order == [] ||
    (&& LastHit(history, order[0]) >= 0
     && (forall x :: x in order[1..] ==> LastHit(history, order[0]) < LastHit(history, x))
     && Recent(order[1..], history))
  }

  lemma {:induction false} RecentRemove(s: seq<Key>, k: Key, history: seq<Key>)
    requires Recent(s, history)
    ensures Recent(Remove(s, k), history)
    ensures |Remove(s, k)| == if k in s then |s| - 1 else |s|
  {
    if s != [] {
      RecentRemove(s[1..], k, history);
      RemoveMembers(s[1..], k);
      var r := Remove(s[1..], k);
      if s[0] == k { assert [] + r == r; } else { RecentPrepend(s[0], r, history); }
      assert s == [s[0]] + s[1..];
    }
  }

  lemma RecentPrepend(k: Key, s: seq<Key>, history: seq<Key>)
    requires Recent(s, history) && LastHit(history, k) >= 0 && forall x :: x in s ==>
      LastHit(history, k) < LastHit(history, x)
    ensures Recent([k] + s, history)
  {
    assert ([k] + s)[1..] == s;
  }

  lemma {:induction false} WithoutMembers(s: seq<Key>, gone: set<Key>)
    ensures forall x :: x in Without(s, gone) <==> x in s && x !in gone
  {
    if s != [] { WithoutMembers(s[1..], gone); assert s == [s[0]] + s[1..]; }
  }

  lemma {:induction false} RecentWithout(s: seq<Key>, gone: set<Key>, history: seq<Key>)
    requires Recent(s, history)
    ensures Recent(Without(s, gone), history)
  {
    if s != [] {
      RecentWithout(s[1..], gone, history);
      WithoutMembers(s[1..], gone);
      var r := Without(s[1..], gone);
      assert ([s[0]] + r)[1..] == r && [] + r == r;
    }
  }

  lemma {:induction false} RecentHits(s: seq<Key>, history: seq<Key>)
    requires Recent(s, history)
    ensures forall x :: x in s ==> 0 <= LastHit(history, x) < |history|
  {
    forall x | x in s ensures LastHit(history, x) < |history| { LastHitRange(history, x); }
    if s != [] { RecentHits(s[1..], history); assert s == [s[0]] + s[1..]; }
  }

  lemma {:induction false} RecentLater(s: seq<Key>, history: seq<Key>, k: Key)
    requires Recent(s, history) && k !in s
    ensures Recent(s + [k], history + [k])
  {
    var h := history + [k];
    assert h[..|history|] == history;
    assert LastHit(h, k) == |history|;
    RecentHits(s, history);
    if s != [] {
      assert s == [s[0]] + s[1..];
      RecentLater(s[1..], history, k);
      assert (s + [k])[1..] == s[1..] + [k];
    }
  }

  /** Touching a key and recording the hit keeps the map in recency order. */
  lemma TouchRecent(s: seq<Key>, k: Key, history: seq<Key>)
    requires Recent(s, history)
    ensures Recent(Touch(s, k), history + [k])
    ensures forall x :: x in Touch(s, k) <==> x in s || x == k
    ensures |Touch(s, k)| == if k in s then |s| else |s| + 1
  {
    RecentRemove(s, k, history);
    RemoveMembers(s, k);
    RecentLater(Remove(s, k), history, k);
  }

  // ----- The index -----

  lemma IndexWithout(index: PairIndex, keys: set<Key>, k: Key)
    requires Indexes(index, keys) && k in keys
    ensures Indexes(Unindexed(index, k), keys - {k})
  {
    var less := Unindexed(index, k);
    forall x | x in keys - {k} && x.Pair? ensures x.account in less && x in less[x.account] {
      assert x in index[x.account];
      if k.Pair? && x.account == k.account { assert x in index[k.account] - {k}; }
    }
  }

  lemma IndexWith(index: PairIndex, keys: set<Key>, k: Key)
    requires Indexes(index, keys)
    ensures Indexes(Indexed(index, k), keys + {k})
  {
    var more := Indexed(index, k);
    if k.Pair? { assert k in more[k.account]; }
  }

  // ----- The class -----

  class LoginAttemptThrottle {
    const config: Config
    var order: seq<Key>
    var buckets: Buckets
    var pairKeysByAccount: PairIndex
    var consumedAttempts: nat
    var limitedAttempts: nat
    ghost var history: seq<Key>

    ghost function Contents(): Table
      reads this
    {
      Table(order, buckets)
    }

    /** In every reachable state: the map's order is recency order, and the index holds
        exactly the live pair keys of each account. */
    ghost predicate Valid()
      reads this
    {
      && (forall k :: k in order <==> k in buckets)
      && Recent(order, history)
      && (forall k :: k in buckets ==> buckets[k].pairAccount == PairAccount(k))
      && Indexes(pairKeysByAccount, buckets.Keys)
    }

    constructor (config: Config)
      ensures Valid() && Contents() == Table([], map[]) && this.config == config
    {
      this.config := config;
      order, buckets, pairKeysByAccount, consumedAttempts, limitedAttempts := [], map[], map[], 0, 0;
      history := [];
    }

    method EvictKey(key: Key)
      requires Valid()
      modifies this`order, this`buckets, this`pairKeysByAccount
      ensures Valid() && Contents() == Evict(old(Contents()), key)
    {
      RecentRemove(order, key, history);
      RemoveMembers(order, key);
      if key in buckets {
        IndexWithout(pairKeysByAccount, buckets.Keys, key);
        assert (buckets - {key}).Keys == buckets.Keys - {key};
        var bucket := buckets[key];
        if bucket.pairAccount.Some? {
          var account := bucket.pairAccount.value;
          var keys := pairKeysByAccount[account] - {key};
          pairKeysByAccount := if keys == {} then pairKeysByAccount - {account} else pairKeysByAccount[account := keys];
        }
      } else {
        assert buckets - {key} == buckets;
      }
      buckets := buckets - {key};
      order := Remove(order, key);
    }

    method PruneBucket(key: Key, now: int)
      requires Valid()
      modifies this`order, this`buckets, this`pairKeysByAccount
      ensures Valid() && Contents() == PruneKey(old(Contents()), key, now)
    {
      if key in buckets && buckets[key].resetAt <= now { EvictKey(key); }
    }

    method PruneAmong(keys: seq<Key>, now: int)
      requires Valid()
      modifies this`order, this`buckets, this`pairKeysByAccount
      ensures Valid() && Contents() == PruneKeys(old(Contents()), keys, now)
    {
      for n := 0 to |keys|
        invariant Valid()
        invariant Contents() == PruneKeys(old(Contents()), keys[..n], now)
      {
        PruneOneMore(old(Contents()), keys, n, now);
        PruneBucket(keys[n], now);
      }
      assert keys[..|keys|] == keys;
    }

    method PruneExpired(now: int)
      requires Valid()
      modifies this`order, this`buckets, this`pairKeysByAccount
      ensures Valid() && Contents() == Prune(old(Contents()), now)
    {
      PruneAmong(if PRUNE_BUDGET <= |order| then order[..PRUNE_BUDGET] else order, now);
    }

    method EnforceMaxBuckets()
      requires Valid()
      modifies this`order, this`buckets, this`pairKeysByAccount
      ensures Valid() && Contents() == EnforceBound(old(Contents()), config.maxBuckets)
      ensures |order| <= config.maxBuckets
    {
      while |order| > config.maxBuckets
        invariant Valid()
          && EnforceBound(Contents(), config.maxBuckets) == EnforceBound(old(Contents()), config.maxBuckets)
      {
        RemoveHead(order, history);
        EvictKey(order[0]);
      }
    }

    /** Stores a bucket as the most recently used one and indexes its pair. */
    method Store(key: Key, bucket: Bucket)
      requires Valid() && bucket.pairAccount == PairAccount(key)
      modifies this`order, this`buckets, this`pairKeysByAccount, this`history
      ensures Valid() && buckets == old(buckets)[key := bucket] && order == Touch(old(order), key)
    {
      TouchRecent(order, key, history);
      IndexWith(pairKeysByAccount, buckets.Keys, key);
      order := Remove(order, key) + [key];
      assert buckets[key := bucket].Keys == buckets.Keys + {key};
      buckets := buckets[key := bucket];
      history := history + [key];
      if bucket.pairAccount.Some? {
        var account := bucket.pairAccount.value;
        var keys := if account in pairKeysByAccount then pairKeysByAccount[account] else {};
        pairKeysByAccount := pairKeysByAccount[account := keys + {key}];
      }
    }

    method NextBucket(key: Key, now: int) returns (bucket: Bucket)
      requires Valid()
      ensures bucket == Hit(buckets, key, now, config.windowMs) && bucket.pairAccount == PairAccount(key)
    {
      var current := if key in buckets then Some(buckets[key]) else None;
      bucket := if current.Some? && current.value.resetAt > now then current.value
                else Bucket(0, now + config.windowMs, PairAccount(key));
      bucket := bucket.(count := bucket.count + 1);
    }

    method Count(d: Dimension, now: int, t: Tally) returns (u: Tally)
      requires Valid() && t.buckets == buckets
      modifies this`order, this`buckets, this`pairKeysByAccount, this`history
      ensures Valid() && u == CountOne(t, d, now, config.windowMs) && buckets == u.buckets
      ensures order == Touch(old(order), d.key)
    {
      var bucket := NextBucket(d.key, now);
      Store(d.key, bucket);
      u := t.(buckets := buckets);
      if bucket.count > d.limit {
        u := Tally(buckets, t.limitedBy + [d.kind], t.audit || bucket.count == d.limit + 1,
                   if bucket.resetAt - now > t.retryAfterMs then bucket.resetAt - now else t.retryAfterMs);
      }
    }

    method CountDimensions(ds: seq<Dimension>, now: int) returns (t: Tally)
      requires Valid()
      modifies this`order, this`buckets, this`pairKeysByAccount, this`history
      ensures Valid() && t == CountAll(old(buckets), ds, now, config.windowMs)
      ensures Contents() == Table(TouchAll(old(order), ds), t.buckets)
    {
      t := Tally(buckets, [], false, 0);
      for n := 0 to |ds|
        invariant Valid() && t == CountAll(old(buckets), ds[..n], now, config.windowMs) && t.buckets == buckets
        invariant order == TouchAll(old(order), ds[..n])
      {
        assert ds[..n + 1][..n] == ds[..n];
        t := Count(ds[n], now, t);
      }
      assert ds[..|ds|] == ds;
    }

    method CountAttempt(account: Option<string>, network: string, now: int) returns (t: Tally)
      requires Valid()
      modifies this`order, this`buckets, this`pairKeysByAccount, this`history
      ensures Valid() && (Contents(), Verdict(t)) == Counted(old(Contents()), config, account, network, now)
    {
      PruneExpired(now);
      t := CountDimensions(Dimensions(buckets, config, account, network, now), now);
    }

    /** Counts an attempt: prune, count every dimension, then enforce the bound. */
    method Consume(account: Option<string>, network: string, now: int) returns (d: Decision)
      requires Valid()
      modifies this
      ensures Valid() && |order| <= config.maxBuckets
      ensures var counted := Counted(old(Contents()), config, account, network, now);
        d == counted.1 && Contents() == EnforceBound(counted.0, config.maxBuckets)
      ensures consumedAttempts == old(consumedAttempts) + 1
      ensures limitedAttempts == old(limitedAttempts) + if d.allowed then 0 else 1
    {
      consumedAttempts := consumedAttempts + 1;
      var t := CountAttempt(account, network, now);
      EnforceMaxBuckets();
      d := Verdict(t);
      if |t.limitedBy| > 0 { limitedAttempts := limitedAttempts + 1; }
    }

    /** Forgets an account: its own bucket and all its pair buckets. */
    method Reset(account: string)
      requires Valid()
      modifies this`order, this`buckets, this`pairKeysByAccount
      ensures Valid() && Contents() == ResetAccount(old(Contents()), account)
    {
      EvictKey(Account(account));
      var todo := if account in pairKeysByAccount then pairKeysByAccount[account] else {};
      ghost var done := {Account(account)};
      RemoveIsWithout(old(order), Account(account));
      while todo != {}
        invariant Valid() && Resetting(old(Contents()), Contents(), account, todo, done)
        decreases todo
      {
        var key :| key in todo;
        ResettingMore(old(Contents()), Contents(), account, todo, done, key);
        EvictKey(key);
        todo, done := todo - {key}, done + {key};
      }
      NoEntry(pairKeysByAccount, buckets.Keys, account);
      pairKeysByAccount := pairKeysByAccount - {account};
      AllGone(old(Contents()), account, done);
    }
  }

  /** What holds while the pairs of an account are forgotten: `todo` are those left. */
  ghost predicate Resetting(t: Table, u: Table, account: string, todo: set<Key>, done: set<Key>) {
    && (forall k :: k in todo <==> k in u.buckets && k.Pair? && k.account == account)
    && (forall k :: k in done ==> k == Account(account) || (k.Pair? && k.account == account))
    && Account(account) in done && u == Table(Without(t.order, done), t.buckets - done)
  }

  lemma ResettingMore(t: Table, u: Table, account: string, todo: set<Key>, done: set<Key>, key: Key)
    requires Resetting(t, u, account, todo, done) && key in todo
    ensures Resetting(t, Evict(u, key), account, todo - {key}, done + {key})
  {
    WithoutMore(t.order, done, key);
    DropTwice(t.buckets, done, key);
  }

  lemma DropTwice(m: Buckets, done: set<Key>, k: Key)
    ensures m - done - {k} == m - (done + {k})
  {
  }

  lemma NoEntry(index: PairIndex, keys: set<Key>, account: string)
    requires Indexes(index, keys) && forall k :: k in keys && k.Pair? ==> k.account != account
    ensures account !in index && index - {account} == index
  {
    assert forall k :: account in index && k in index[account] ==> k in keys && k.Pair? && k.account == account;
  }

  lemma AllGone(t: Table, account: string, done: set<Key>)
    requires forall k :: k in t.order <==> k in t.buckets
    requires forall k :: k in t.buckets ==> (k in done <==> k == Account(account) || (k.Pair? && k.account == account))
    ensures ResetAccount(t, account) == Table(Without(t.order, done), t.buckets - done)
  {
    var gone := set k | k in t.buckets && (k == Account(account) || PairAccount(k) == Some(account));
    WithoutSame(t.order, gone, done);
    assert t.buckets - gone == t.buckets - done;
  }

  lemma {:induction false} RemoveIsWithout(s: seq<Key>, k: Key)
    ensures Remove(s, k) == Without(s, {k})
  {
    if s != [] { RemoveIsWithout(s[1..], k); }
  }

  lemma {:induction false} WithoutMore(s: seq<Key>, gone: set<Key>, k: Key)
    ensures Remove(Without(s, gone), k) == Without(s, gone + {k})
  {
    if s != [] {
      WithoutMore(s[1..], gone, k);
      var r := Without(s[1..], gone);
      assert ([s[0]] + r)[1..] == r && [] + r == r;
    }
  }

  lemma {:induction false} WithoutSame(s: seq<Key>, a: set<Key>, b: set<Key>)
    requires forall k :: k in s ==> (k in a <==> k in b)
    ensures Without(s, a) == Without(s, b)
  {
    if s != [] {
      assert s == [s[0]] + s[1..];
      WithoutSame(s[1..], a, b);
    }
  }

  lemma RemoveHead(s: seq<Key>, history: seq<Key>)
    requires Recent(s, history) && s != []
    ensures Remove(s, s[0]) == s[1..]
  {
    RemoveAbsent(s[1..], s[0]);
    assert [] + s[1..] == s[1..];
  }

  lemma {:induction false} RemoveAbsent(s: seq<Key>, k: Key)
    requires k !in s
    ensures Remove(s, k) == s
  {
    if s != [] { assert s == [s[0]] + s[1..]; RemoveAbsent(s[1..], k); }
  }
}
