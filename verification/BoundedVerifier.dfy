/** The bounded password verifier: a fixed number of slots, a bounded queue whose entries
    may time out, and counters. */
module BoundedVerifier {
  import opened Sequences

  datatype Kind = Verify | HashNew

  datatype Limits = Limits(maxConcurrent: nat, maxQueue: nat)

  datatype Request = Request(id: nat, kind: Kind)

  datatype Outcome = Completed | Failed | Saturated

  /** `running`, `started` and `resolved` record what the promises do; requests are numbered
      as they are submitted. */
  datatype State = State(
    active: nat, queue: seq<Request>,
    completedVerifications: nat, completedHashes: nat, saturations: nat, timeouts: nat, failures: nat,
    submitted: nat, running: set<Request>, started: seq<nat>, resolved: map<nat, Outcome>)

  const IDLE := State(0, [], 0, 0, 0, 0, 0, 0, {}, [], map[])

  datatype Event = Submit(kind: Kind) | Finish(request: Request, ok: bool) | Timeout(request: Request)

  /** Work finishes only while it runs. */
  predicate Possible(s: State, e: Event) { e.Finish? ==> e.request in s.running }

  function StartWork(s: State, r: Request): State {
    s.(active := s.active + 1, running := s.running + {r}, started := s.started + [r.id])
  }

  function Drain(s: State, l: Limits): State
    decreases |s.queue|
  {
    if s.active < l.maxConcurrent && |s.queue| > 0
    then Drain(StartWork(s.(queue := s.queue[1..]), s.queue[0]), l)
    else s
  }

  function Enqueue(s: State, kind: Kind, l: Limits): State {
    var r, t := Request(s.submitted, kind), s.(submitted := s.submitted + 1);
    if s.active < l.maxConcurrent then StartWork(t, r)
    else if |s.queue| >= l.maxQueue then t.(saturations := s.saturations + 1, resolved := s.resolved[r.id := Saturated])
    else t.(queue := s.queue + [r])
  }

  function Settle(s: State, r: Request, ok: bool): State {
    var t := s.(resolved := s.resolved[r.id := if ok then Completed else Failed]);
    if !ok then t.(failures := s.failures + 1)
    else if r.kind == Verify then t.(completedVerifications := s.completedVerifications + 1)
    else t.(completedHashes := s.completedHashes + 1)
  }

  function Release(s: State, r: Request): State {
    s.(active := if s.active > 0 then s.active - 1 else 0, running := s.running - {r})
  }

  function IndexOf(q: seq<Request>, r: Request): (n: nat)
    ensures n <= |q| && (n < |q| ==> q[n] == r) && r !in q[..n]
  {
    if q == [] then 0 else if q[0] == r then 0 else 1 + IndexOf(q[1..], r)
  }

  function Expire(s: State, r: Request): State {
    var n := IndexOf(s.queue, r);
    if n >= |s.queue| then s
    else s.(queue := s.queue[..n] + s.queue[n + 1..], saturations := s.saturations + 1, timeouts := s.timeouts + 1,
            resolved := s.resolved[r.id := Saturated])
  }

  function Step(s: State, e: Event, l: Limits): State {
    match e
    case Submit(kind) => Enqueue(s, kind, l)
    case Finish(r, ok) => Drain(Release(Settle(s, r, ok), r), l)
    case Timeout(r) => Expire(s, r)
  }

  // ----- What holds between events -----

  ghost predicate Increasing(ids: seq<nat>) {
    forall i, j :: 0 <= i < j < |ids| ==> ids[i] < ids[j]
  }

  function Ids(q: seq<Request>): (ids: seq<nat>)
    ensures |ids| == |q| && forall i :: 0 <= i < |q| ==> ids[i] == q[i].id
  {
    if q == [] then [] else [q[0].id] + Ids(q[1..])
  }

  ghost predicate Bounded(s: State, l: Limits) {
    && s.active == |s.running| && s.active <= l.maxConcurrent
    && |s.queue| <= l.maxQueue
    && (s.queue != [] ==> s.active == l.maxConcurrent)
  }

  /** Everybody who started, then everybody who waits. */
  function Line(s: State): seq<nat> { s.started + Ids(s.queue) }

  /** Starts happen in submission order, and whatever waits came later than whatever started. */
  ghost predicate Fifo(s: State) {
    Increasing(Line(s)) && forall i :: i in Line(s) ==> i < s.submitted
  }

  /** What runs has started and has no answer yet, one request per number. */
  ghost predicate RunningOpen(s: State) {
    && (forall r :: r in s.running ==> r.id in s.started && r.id !in s.resolved)
    && (forall i :: i in s.started && i !in s.resolved ==> exists r :: r in s.running && r.id == i)
    && (forall r, t :: r in s.running && t in s.running && r.id == t.id ==> r == t)
  }

  /** Every submitted request is answered, running or waiting, and nothing waits with an answer. */
  ghost predicate Partitioned(s: State) {
    && RunningOpen(s)
    && (forall i :: i in Ids(s.queue) ==> i !in s.resolved)
    && (forall i: nat :: i < s.submitted <==> i in s.resolved || i in Line(s))
  }

  ghost predicate Accounted(s: State) {
    s.submitted == s.active + |s.queue| + s.completedVerifications + s.completedHashes + s.failures + s.saturations
  }

  ghost predicate Inv(s: State, l: Limits) {
    Bounded(s, l) && Fifo(s) && Partitioned(s) && Accounted(s)
  }

  lemma {:induction false} IdsAppend(a: seq<Request>, b: seq<Request>)
    ensures Ids(a + b) == Ids(a) + Ids(b)
  {
    if a == [] { assert a + b == b; } else { assert (a + b)[1..] == a[1..] + b; IdsAppend(a[1..], b); }
  }

  lemma IncreasingMore(ids: seq<nat>, id: nat)
    requires Increasing(ids) && forall i :: i in ids ==> i < id
    ensures Increasing(ids + [id])
  {
    forall i, j | 0 <= i < j < |ids + [id]| ensures (ids + [id])[i] < (ids + [id])[j] {
      if j == |ids| { assert ids[i] in ids; }
    }
  }

  lemma IncreasingApart(a: seq<nat>, b: seq<nat>)
    requires Increasing(a + b)
    ensures Increasing(a) && Increasing(b) && forall i :: i in b ==> i !in a
  {
    var all := a + b;
    forall i, j | 0 <= i < j < |a| ensures a[i] < a[j] { assert all[i] < all[j]; }
    forall i, j | 0 <= i < j < |b| ensures b[i] < b[j] { assert all[|a| + i] < all[|a| + j]; }
    forall i, j | 0 <= i < |a| && 0 <= j < |b| ensures a[i] != b[j] { assert all[i] < all[|a| + j]; }
  }

  lemma IncreasingLess(ids: seq<nat>, n: nat)
    requires Increasing(ids) && n < |ids|
    ensures var left := ids[..n] + ids[n + 1..];
      Increasing(left) && forall i :: i in left <==> i in ids && i != ids[n]
  {
    var left := ids[..n] + ids[n + 1..];
    forall k | 0 <= k < |left| ensures left[k] == ids[if k < n then k else k + 1] {}
    forall i | i in ids && i != ids[n] ensures i in left {
      var k :| 0 <= k < |ids| && ids[k] == i;
      assert left[if k < n then k else k - 1] == i;
    }
    forall i | i in left ensures i in ids && i != ids[n] {
      var k :| 0 <= k < |left| && left[k] == i;
      assert if k < n then ids[k] < ids[n] else ids[n] < ids[k + 1];
    }
  }

  lemma StartKeeps(s: State, r: Request)
    requires RunningOpen(s) && r.id !in s.started && r.id !in s.resolved
    ensures RunningOpen(StartWork(s, r)) && |StartWork(s, r).running| == |s.running| + 1
  {
    var t := StartWork(s, r);
    assert r !in s.running;
    forall i | i in t.started && i !in t.resolved ensures exists x :: x in t.running && x.id == i {
      if i == r.id { assert r in t.running; } else {
        assert i in s.started;
        var x :| x in s.running && x.id == i;
        assert x in t.running;
      }
    }
  }

  /** A request newer than all others joins the line, at once in a slot or to wait. */
  lemma JoinLine(s: State, t: State, id: nat)
    requires Fifo(s) && Partitioned(s) && id == s.submitted && t.submitted == s.submitted + 1
      && t.resolved == s.resolved
    requires Line(t) == Line(s) + [id] && RunningOpen(t)
    requires forall i :: i in Ids(t.queue) ==> i in Ids(s.queue) || i == id
    ensures Fifo(t) && Partitioned(t)
  {
    IncreasingMore(Line(s), id);
    forall i: nat ensures i < t.submitted <==> i in t.resolved || i in Line(t) {
      assert i in Line(t) <==> i in Line(s) || i == id;
    }
  }

  lemma NewNumber(s: State)
    requires Fifo(s) && Partitioned(s)
    ensures s.submitted !in s.resolved && s.submitted !in s.started
  {
    assert forall i :: i in s.started ==> i in Line(s);
  }

  lemma TurnedAwayKeeps(s: State, kind: Kind, t: State)
    requires Fifo(s) && Partitioned(s)
    requires t == s.(submitted := s.submitted + 1, saturations := s.saturations + 1,
      resolved := s.resolved[s.submitted := Saturated])
    ensures Fifo(t) && Partitioned(t)
  {
    NewNumber(s);
    assert forall i :: i in Ids(s.queue) ==> i in Line(s);
    forall i | i in t.started && i !in t.resolved ensures exists r :: r in t.running && r.id == i {
      assert i !in s.resolved;
    }
    forall r | r in t.running ensures r.id in t.started && r.id !in t.resolved { assert r.id in s.started; }
  }

  lemma StartsAtOnceKeeps(s: State, kind: Kind, l: Limits)
    requires Inv(s, l) && s.active < l.maxConcurrent
    ensures Fifo(Enqueue(s, kind, l)) && Partitioned(Enqueue(s, kind, l))
    ensures |Enqueue(s, kind, l).running| == |s.running| + 1
  {
    var r, t := Request(s.submitted, kind), Enqueue(s, kind, l);
    NewNumber(s);
    assert s.queue == [] && Line(s) == s.started && Line(t) == t.started;
    StartKeeps(s, r);
    JoinLine(s, t, r.id);
  }

  lemma WaitsKeeps(s: State, kind: Kind, l: Limits)
    requires Fifo(s) && Partitioned(s) && s.active >= l.maxConcurrent && |s.queue| < l.maxQueue
    ensures Fifo(Enqueue(s, kind, l)) && Partitioned(Enqueue(s, kind, l))
  {
    var r, t := Request(s.submitted, kind), Enqueue(s, kind, l);
    IdsAppend(s.queue, [r]);
    assert Ids([r]) == [r.id];
    assert Line(t) == Line(s) + [r.id];
    JoinLine(s, t, r.id);
  }

  lemma EnqueueKeeps(s: State, kind: Kind, l: Limits)
    requires Inv(s, l)
    ensures Inv(Enqueue(s, kind, l), l)
  {
    if s.active < l.maxConcurrent {
      StartsAtOnceKeeps(s, kind, l);
    } else if |s.queue| < l.maxQueue {
      WaitsKeeps(s, kind, l);
    } else {
      TurnedAwayKeeps(s, kind, Enqueue(s, kind, l));
    }
  }

  /** Taking the waiting request at n out of the line. */
  lemma ExpireLine(s: State, t: State, n: nat)
    requires Increasing(Line(s)) && n < |s.queue| && t.started == s.started
      && t.queue == s.queue[..n] + s.queue[n + 1..]
    ensures Increasing(Line(t)) && s.queue[n].id in Line(s) && s.queue[n].id !in s.started
      && s.queue[n].id in Ids(s.queue)
    ensures forall i :: i in Line(t) <==> i in Line(s) && i != s.queue[n].id
    ensures forall i :: i in Ids(t.queue) <==> i in Ids(s.queue) && i != s.queue[n].id
  {
    IdsDrop(s.queue, n);
    CutTail(s.started, Ids(s.queue), n);
    IncreasingLess(Line(s), |s.started| + n);
    IncreasingApart(s.started, Ids(s.queue));
    IncreasingLess(Ids(s.queue), n);
    assert s.queue[n].id == Ids(s.queue)[n] && s.queue[n].id == Line(s)[|s.started| + n];
  }

  lemma ExpireKeeps(s: State, r: Request, l: Limits)
    requires Inv(s, l)
    ensures Inv(Expire(s, r), l)
  {
    var n, t := IndexOf(s.queue, r), Expire(s, r);
    if n < |s.queue| {
      ExpireLine(s, t, n);
      ExpirePartitions(s, r, t);
    }
  }

  lemma {:induction false} IdsDrop(q: seq<Request>, n: nat)
    requires n < |q|
    ensures Ids(q[..n] + q[n + 1..]) == Ids(q)[..n] + Ids(q)[n + 1..]
  {
    IdsAppend(q[..n], q[n + 1..]);
    IdsAppend(q[..n + 1], q[n + 1..]);
    IdsAppend(q[..n], [q[n]]);
    assert q == q[..n + 1] + q[n + 1..] && q[..n + 1] == q[..n] + [q[n]];
  }

  lemma CutTail(a: seq<nat>, b: seq<nat>, n: nat)
    requires n < |b|
    ensures (a + b)[..|a| + n] + (a + b)[|a| + n + 1..] == a + (b[..n] + b[n + 1..])
  {}

  lemma ExpirePartitions(s: State, r: Request, t: State)
    requires Partitioned(s) && r.id in Line(s) && r.id !in s.started && r.id !in s.resolved
    requires t.started == s.started && t.running == s.running && t.submitted == s.submitted
      && t.resolved == s.resolved[r.id := Saturated]
    requires forall i :: i in Line(t) <==> i in Line(s) && i != r.id
    requires forall i :: i in Ids(t.queue) <==> i in Ids(s.queue) && i != r.id
    ensures Partitioned(t)
  {
    forall x | x in t.running ensures x.id !in t.resolved { assert x.id in s.started; }
  }

  /** Giving a slot back lets the head of the queue in, and nobody else. */
  lemma DrainOne(s: State, l: Limits)
    requires s.queue != [] ==> s.active + 1 == l.maxConcurrent
    ensures Drain(s, l) == if s.queue == [] then s else StartWork(s.(queue := s.queue[1..]), s.queue[0])
  {
  }

  lemma ReleaseKeeps(s: State, r: Request, ok: bool)
    requires Fifo(s) && Partitioned(s) && r in s.running
    ensures var u := Release(Settle(s, r, ok), r); Fifo(u) && Partitioned(u)
  {
    var u := Release(Settle(s, r, ok), r);
    IncreasingApart(s.started, Ids(s.queue));
    forall i | i in u.started && i !in u.resolved ensures exists x :: x in u.running && x.id == i {
      var x :| x in s.running && x.id == i;
      assert x in u.running;
    }
  }

  lemma DrainKeeps(u: State, l: Limits)
    requires Fifo(u) && Partitioned(u) && Accounted(u)
    requires u.active == |u.running| < l.maxConcurrent && |u.queue| <= l.maxQueue
    requires u.queue != [] ==> u.active + 1 == l.maxConcurrent
    ensures Inv(Drain(u, l), l)
  {
    DrainOne(u, l);
    if u.queue != [] { HeadKeeps(u); }
  }

  lemma ReleaseCounts(s: State, r: Request, ok: bool, l: Limits)
    requires Bounded(s, l) && Accounted(s) && r in s.running
    ensures var u := Release(Settle(s, r, ok), r); Accounted(u) && u.active == |u.running| == s.active - 1
  {
    assert |s.running - {r}| == |s.running| - 1;
  }

  lemma FinishKeeps(s: State, r: Request, ok: bool, l: Limits)
    requires Inv(s, l) && r in s.running
    ensures Inv(Step(s, Finish(r, ok), l), l)
  {
    ReleaseKeeps(s, r, ok);
    ReleaseCounts(s, r, ok, l);
    DrainKeeps(Release(Settle(s, r, ok), r), l);
  }

  /** Moving the head of the queue into a slot leaves the line as it is. */
  lemma HeadKeeps(u: State)
    requires u.queue != [] && Fifo(u) && Partitioned(u)
    ensures var t := StartWork(u.(queue := u.queue[1..]), u.queue[0]);
      Fifo(t) && Partitioned(t) && |t.running| == |u.running| + 1
  {
    var h, rest := u.queue[0], u.(queue := u.queue[1..]);
    var t := StartWork(rest, h);
    IncreasingApart(u.started, Ids(u.queue));
    assert h.id in Ids(u.queue);
    StartKeeps(rest, h);
    SameLine(u, t, h);
  }

  lemma SameLine(u: State, t: State, h: Request)
    requires u.queue != [] && h == u.queue[0] && t.queue == u.queue[1..] && t.started == u.started + [h.id]
    requires t.resolved == u.resolved && t.submitted == u.submitted
    requires Fifo(u) && Partitioned(u) && RunningOpen(t)
    ensures Fifo(t) && Partitioned(t)
  {
    assert Ids(u.queue) == [h.id] + Ids(t.queue);
    Regrouped(u.started, [h.id], Ids(t.queue));
    assert forall i :: i in Ids(t.queue) ==> i in Ids(u.queue);
  }

  /** Between events, in every interleaving: slots and queue stay within bounds, nobody waits
      while a slot is free, starts are in submission order, every request is in one place
      and resolves once, and the counters add up. */
  lemma StepKeeps(s: State, e: Event, l: Limits)
    requires Inv(s, l) && Possible(s, e)
    ensures Inv(Step(s, e, l), l)
  {
    match e
    case Submit(kind) => EnqueueKeeps(s, kind, l);
    case Finish(r, ok) => FinishKeeps(s, r, ok, l);
    case Timeout(r) => ExpireKeeps(s, r, l);
  }

  /** An answer once given never changes, and nothing started is forgotten. */
  lemma AnswersStay(s: State, e: Event, l: Limits)
    requires Inv(s, l) && Possible(s, e)
    ensures forall i :: i in s.resolved ==> i in Step(s, e, l).resolved && Step(s, e, l).resolved[i] == s.resolved[i]
    ensures s.started <= Step(s, e, l).started
  {
    match e
    case Submit(kind) =>
    case Finish(r, ok) =>
      var u := Release(Settle(s, r, ok), r);
      assert s.active > 0 by { assert r in s.running; }
      DrainOne(u, l);
    case Timeout(r) =>
      if IndexOf(s.queue, r) < |s.queue| { assert r in s.queue; }
  }

  lemma SlotTaken(s: State, r: Request, l: Limits)
    requires Bounded(s, l) && r in s.running
    ensures s.active > 0
  {
    assert s.running != {};
  }

  /** Apart from the counters, nothing else changes. */
  ghost predicate Becomes(t: State, queue: seq<Request>, running: set<Request>, started: seq<nat>,
    resolved: map<nat, Outcome>)
  {
    t.queue == queue && t.running == running && t.started == started && t.resolved == resolved
  }

  ghost predicate Counts(s: State, t: State, verified: nat, hashed: nat, saturated: nat, late: nat, failed: nat) {
    && t.completedVerifications == s.completedVerifications + verified
    && t.completedHashes == s.completedHashes + hashed && t.saturations == s.saturations + saturated
    && t.timeouts == s.timeouts + late && t.failures == s.failures + failed
  }

  /** A request starts exactly when a slot is free, waits exactly when none is but the queue has
      room, and is turned away otherwise. */
  lemma SubmitDecides(s: State, kind: Kind, l: Limits)
    requires Inv(s, l)
    ensures var t, r := Step(s, Submit(kind), l), Request(s.submitted, kind);
      if |s.running| < l.maxConcurrent then
        Becomes(t, s.queue, s.running + {r}, s.started + [r.id], s.resolved) && Counts(s, t, 0, 0, 0, 0, 0)
      else if |s.queue| < l.maxQueue then
        Becomes(t, s.queue + [r], s.running, s.started, s.resolved) && Counts(s, t, 0, 0, 0, 0, 0)
      else
        Becomes(t, s.queue, s.running, s.started, s.resolved[r.id := Saturated]) && Counts(s, t, 0, 0, 1, 0, 0)
  {}

  /** Finished work is answered, and its slot goes to the head of the queue. */
  lemma FinishDecides(s: State, r: Request, ok: bool, l: Limits)
    requires Inv(s, l) && r in s.running
    ensures var t, resolved := Step(s, Finish(r, ok), l), s.resolved[r.id := if ok then Completed else Failed];
      && Counts(s, t, if ok && r.kind == Verify then 1 else 0, if ok && r.kind == HashNew then 1 else 0, 0, 0,
                if ok then 0 else 1)
      && if s.queue == [] then Becomes(t, [], s.running - {r}, s.started, resolved)
         else Becomes(t, s.queue[1..], s.running - {r} + {s.queue[0]}, s.started + [s.queue[0].id], resolved)
  {
    SlotTaken(s, r, l);
    DrainOne(Release(Settle(s, r, ok), r), l);
  }

  /** A waiting request that times out is turned away; any other is left alone. */
  lemma TimeoutDecides(s: State, r: Request, l: Limits)
    requires Inv(s, l)
    ensures var t := Step(s, Timeout(r), l);
      if r !in s.queue then t == s
      else
        && Counts(s, t, 0, 0, 1, 1, 0)
        && exists n :: 0 <= n < |s.queue| && s.queue[n] == r
             && Becomes(t, s.queue[..n] + s.queue[n + 1..], s.running, s.started, s.resolved[r.id := Saturated])
  {
    var n := IndexOf(s.queue, r);
    if n < |s.queue| { assert s.queue[n] == r; }
  }

  function Run(s: State, es: seq<Event>, l: Limits): State {
    if es == [] then s else Step(Run(s, es[..|es| - 1], l), es[|es| - 1], l)
  }

  ghost predicate Feasible(s: State, es: seq<Event>, l: Limits) {
    es == [] || (Feasible(s, es[..|es| - 1], l) && Possible(Run(s, es[..|es| - 1], l), es[|es| - 1]))
  }

  lemma {:induction false} RunKeeps(es: seq<Event>, l: Limits)
    requires Feasible(IDLE, es, l)
    ensures Inv(Run(IDLE, es, l), l)
  {
    if es != [] {
      RunKeeps(es[..|es| - 1], l);
      StepKeeps(Run(IDLE, es[..|es| - 1], l), es[|es| - 1], l);
    }
  }

  // ----- The class -----

  class PasswordVerifier {
    const limits: Limits
    var active: nat
    var queue: seq<Request>
    var completedVerifications: nat
    var completedHashes: nat
    var saturationCount: nat
    var queueTimeoutCount: nat
    var failureCount: nat
    var nextId: nat
    ghost var running: set<Request>
    ghost var started: seq<nat>
    ghost var resolved: map<nat, Outcome>

    ghost function Contents(): State
      reads this
    {
      State(active, queue, completedVerifications, completedHashes, saturationCount, queueTimeoutCount, failureCount,
            nextId, running, started, resolved)
    }

    constructor (limits: Limits)
      ensures Contents() == IDLE && this.limits == limits
    {
      this.limits := limits;
      active, queue, nextId := 0, [], 0;
      completedVerifications, completedHashes, saturationCount, queueTimeoutCount, failureCount := 0, 0, 0, 0, 0;
      running, started, resolved := {}, [], map[];
    }

    method Start(r: Request)
      modifies this`active, this`running, this`started
      ensures Contents() == StartWork(old(Contents()), r)
    {
      active := active + 1;
      running, started := running + {r}, started + [r.id];
    }

    method Admit(kind: Kind) returns (r: Request, turnedAway: bool)
      modifies this
      ensures Contents() == Enqueue(old(Contents()), kind, limits)
      ensures r == Request(old(nextId), kind)
      ensures turnedAway <==> old(active) >= limits.maxConcurrent && |old(queue)| >= limits.maxQueue
    {
      r, turnedAway := Request(nextId, kind), false;
      nextId := nextId + 1;
      if active < limits.maxConcurrent {
        Start(r);
      } else if |queue| >= limits.maxQueue {
        saturationCount, turnedAway := saturationCount + 1, true;
        resolved := resolved[r.id := Saturated];
      } else {
        queue := queue + [r];
      }
    }

    method SubmitWork(kind: Kind) returns (r: Request, turnedAway: bool)
      requires Inv(Contents(), limits)
      modifies this
      ensures Contents() == Step(old(Contents()), Submit(kind), limits) && Inv(Contents(), limits)
      ensures r == Request(old(nextId), kind) && (turnedAway <==> r.id in resolved)
    {
      ghost var before := Contents();
      StepKeeps(before, Submit(kind), limits);
      NewNumber(before);
      r, turnedAway := Admit(kind);
      assert Contents() == Step(before, Submit(kind), limits);
    }

    method DrainQueue()
      modifies this`active, this`queue, this`running, this`started
      ensures Contents() == Drain(old(Contents()), limits)
    {
      while active < limits.maxConcurrent && |queue| > 0
        invariant Drain(Contents(), limits) == Drain(old(Contents()), limits)
        decreases |queue|
      {
        var next := queue[0];
        queue := queue[1..];
        Start(next);
      }
    }

    method SettleWork(r: Request, ok: bool)
      requires active > 0
      modifies this
      ensures Contents() == Release(Settle(old(Contents()), r, ok), r)
    {
      if !ok { failureCount := failureCount + 1; }
      else if r.kind == Verify { completedVerifications := completedVerifications + 1; }
      else { completedHashes := completedHashes + 1; }
      resolved := resolved[r.id := if ok then Completed else Failed];
      active := active - 1;
      running := running - {r};
    }

    method FinishWork(r: Request, ok: bool)
      requires Inv(Contents(), limits) && r in running
      modifies this
      ensures Contents() == Step(old(Contents()), Finish(r, ok), limits) && Inv(Contents(), limits)
    {
      ghost var before := Contents();
      SlotTaken(before, r, limits);
      StepKeeps(before, Finish(r, ok), limits);
      SettleWork(r, ok);
      DrainQueue();
      assert Contents() == Step(before, Finish(r, ok), limits);
    }

    method RemoveWaiting(r: Request)
      modifies this
      ensures Contents() == Expire(old(Contents()), r)
    {
      var index := IndexOf(queue, r);
      if index >= |queue| { return; }
      queue := queue[..index] + queue[index + 1..];
      saturationCount, queueTimeoutCount := saturationCount + 1, queueTimeoutCount + 1;
      resolved := resolved[r.id := Saturated];
    }

    method ExpireWork(r: Request)
      requires Inv(Contents(), limits)
      modifies this
      ensures Contents() == Step(old(Contents()), Timeout(r), limits) && Inv(Contents(), limits)
    {
      ghost var before := Contents();
      StepKeeps(before, Timeout(r), limits);
      RemoveWaiting(r);
      assert Contents() == Step(before, Timeout(r), limits);
    }
  }
}
