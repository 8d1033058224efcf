/** A history in which an attempt number is given twice: the latest attempt at an event is
    pruned while an earlier one is kept for the sake of a queued retry, and is retried again. */
module WebhookReuse {
  import opened Json
  import opened Sequences
  import opened WebhookRetention
  import opened WebhookLedger
  import opened WebhookHistory

  // ----- A ledger that fits is left alone -----

  lemma {:induction false} ChainsInLedger(ds: seq<Delivery>, d: Delivery)
    requires Valid(ds) && d in ds
    ensures Chain(ds, d) <= AllIds(ds)
    decreases d.createdAt
  {
    if Parent(ds, d).Some? {
      ParentIsOlder(ds, d);
      ChainsInLedger(ds, Parent(ds, d).value);
    }
  }

  lemma AllRetained(ds: seq<Delivery>, limit: nat)
    requires Valid(ds) && |Terminals(ds)| <= limit
    ensures RetainsRight(ds, limit, AllIds(ds))
  {
    assert AllIds(ds) * Terminals(ds) == Terminals(ds);
    forall r <- ds ensures Chain(ds, r) <= AllIds(ds) { ChainsInLedger(ds, r); }
    assert QueuedChainsKept(ds, AllIds(ds));
  }

  lemma NothingPruned(ds: seq<Delivery>, group: Delivery -> bool, limit: nat)
    requires Valid(ds) && |Terminals(ds)| <= limit
    ensures Pruned(ds, ds, group, limit)
  {
    var mine := Filter(ds, group);
    FilterValid(ds, group);
    NoMoreThan(Terminals(mine), Terminals(ds));
    AllRetained(mine, limit);
    forall d <- ds ensures Keeps(group, AllIds(mine))(d) { assert group(d) ==> d in mine; }
    FilterAll(ds, Keeps(group, AllIds(mine)));
  }

  lemma NoneOfBothPruned(ds: seq<Delivery>, webhookId: Id, campaignId: Id)
    requires Valid(ds) && |Terminals(ds)| <= RETENTION_PER_WEBHOOK
    ensures PrunedBoth(ds, ds, webhookId, campaignId)
  {
    NothingPruned(ds, OfWebhook(webhookId), RETENTION_PER_WEBHOOK);
    NothingPruned(ds, OfCampaign(campaignId), RETENTION_PER_CAMPAIGN);
  }

  // ----- The deliveries -----

  /** The first attempt at the event, which fails; a retry of it that stays queued; and another
      retry of it, which fails. */
  function First(status: Status): Delivery { Delivery("x", "camp", "hook", "event", 1, status, None, 0) }
  function Waiting(): Delivery { Delivery("q", "camp", "hook", "event", 2, Queued, Some("x"), 1) }
  function Latest3(status: Status): Delivery { Delivery("t", "camp", "hook", "event", 3, status, Some("x"), 2) }

  function Name(n: nat): Id { seq(n + 1, _ => 'f') }

  /** A delivery of some other event, one per number. */
  function Other(n: nat, status: Status): Delivery {
    Delivery(Name(n), "camp", "hook", Name(n), 1, status, None, 3 + n)
  }

  function Others(n: nat): seq<Delivery> { seq(n, i requires 0 <= i < n => Other(i, Delivered)) }

  /** After n other deliveries. */
  function Crowd(n: nat): seq<Delivery> { [First(Failed), Waiting(), Latest3(Failed)] + Others(n) }

  lemma CrowdGrows(n: nat)
    ensures Crowd(n + 1) == Crowd(n) + [Other(n, Delivered)]
  {
    assert Others(n + 1) == Others(n) + [Other(n, Delivered)];
  }

  lemma InCrowd(n: nat, d: Delivery)
    ensures d in Crowd(n) <==>
      d in {First(Failed), Waiting(), Latest3(Failed)} || exists i :: 0 <= i < n && d == Other(i, Delivered)
  {
    var ds := Crowd(n);
    if d in ds {
      var k :| 0 <= k < |ds| && ds[k] == d;
      if k >= 3 { assert d == Other(k - 3, Delivered); }
    }
    if i :| 0 <= i < n && d == Other(i, Delivered) { assert ds[3 + i] == d; }
    assert ds[0] == First(Failed) && ds[1] == Waiting() && ds[2] == Latest3(Failed);
  }

  lemma NamesApart(n: nat, m: nat)
    ensures Name(n) == Name(m) <==> n == m
    ensures Name(n) !in {"x", "q", "t", "r", "event"}
  {
    assert |Name(n)| == n + 1 && |Name(m)| == m + 1;
    assert Name(n)[0] == 'f';
  }

  lemma NextOtherFits(n: nat)
    ensures Fresh(Crowd(n), Name(n)) && Outranks(Other(n, Queued), Crowd(n))
    ensures HighestAttempt(Crowd(n), "hook", Name(n)) == 0
  {
    forall e <- Crowd(n)
      ensures e.id != Name(n) && e.retryOf != Some(Name(n)) && e.createdAt < 3 + n && e.eventId != Name(n)
    {
      InCrowd(n, e);
      NamesApart(n, n);
      if i :| 0 <= i < n && e == Other(i, Delivered) { NamesApart(i, n); }
    }
  }

  lemma {:induction false} CrowdValid(n: nat)
    ensures Valid(Crowd(n)) && Valid(Crowd(n) + [Other(n, Queued)])
  {
    if n == 0 {
      CrowdStarts();
    } else {
      CrowdValid(n - 1);
      CrowdGrows(n - 1);
      OutcomeValid(Crowd(n - 1) + [Other(n - 1, Queued)], n + 2, Delivered);
      assert WithOutcome(Crowd(n - 1) + [Other(n - 1, Queued)], n + 2, Delivered) == Crowd(n);
    }
    NextOtherFits(n);
    AppendValid(Crowd(n), Other(n, Queued));
  }

  lemma TerminalsSnoc(ds: seq<Delivery>, d: Delivery)
    ensures Terminals(ds + [d]) == Terminals(ds) + if d.status == Queued then {} else {d.id}
  {
    assert forall e :: e in ds + [d] <==> e in ds || e == d;
  }

  lemma CrowdStarts()
    ensures Crowd(0) == [First(Failed), Waiting(), Latest3(Failed)] && Terminals(Crowd(0)) == {"x", "t"}
  {
    assert Crowd(0) == [First(Failed), Waiting(), Latest3(Failed)];
    TerminalsSnoc([], First(Failed));
    TerminalsSnoc([First(Failed)], Waiting());
    TerminalsSnoc([First(Failed), Waiting()], Latest3(Failed));
    assert [] + [First(Failed)] == [First(Failed)];
    assert [First(Failed)] + [Waiting()] == [First(Failed), Waiting()];
    assert [First(Failed), Waiting()] + [Latest3(Failed)] == Crowd(0);
  }

  lemma {:induction false} CrowdTerminals(n: nat)
    ensures |Terminals(Crowd(n))| == n + 2
  {
    if n == 0 {
      CrowdStarts();
    } else {
      CrowdTerminals(n - 1);
      CrowdGrows(n - 1);
      NextOtherFits(n - 1);
      TerminalsSnoc(Crowd(n - 1), Other(n - 1, Delivered));
      assert Name(n - 1) !in Terminals(Crowd(n - 1));
    }
  }

  // ----- The history -----

  lemma Continue(es: seq<Event>, e: Event)
    requires Feasible(es) && Possible(LedgerAfter(es), e)
    ensures Feasible(es + [e]) && LedgerAfter(es + [e]) == e.after
    ensures Given(es + [e]) == Given(es) + if e.Created? then [NumberOf(e.d)] else []
  {
    assert (es + [e])[..|es|] == es;
  }

  /** Creating in a ledger that fits. */
  lemma Create(es: seq<Event>, ds: seq<Delivery>, d: Delivery) returns (more: seq<Event>)
    requires Feasible(es) && LedgerAfter(es) == ds && Valid(ds) && Fits(ds, d)
    requires d.status == Queued && d.retryOf != Some(d.id)
    requires d.retryOf.Some? ==> forall e <- ds :: e.id == d.retryOf.value ==> e.webhookId == d.webhookId
    requires |Terminals(ds)| <= RETENTION_PER_WEBHOOK
    ensures Feasible(more) && LedgerAfter(more) == ds + [d] && Valid(ds + [d])
      && Given(more) == Given(es) + [NumberOf(d)]
  {
    AppendValid(ds, d);
    TerminalsSnoc(ds, d);
    NoneOfBothPruned(ds + [d], d.webhookId, d.campaignId);
    more := es + [Created(d, ds + [d])];
    Continue(es, Created(d, ds + [d]));
  }

  /** Finishing the newest delivery, with whatever pruning leaves. */
  lemma FinishNewest(es: seq<Event>, ds: seq<Delivery>, d: Delivery, outcome: Status, after: seq<Delivery>)
    returns (more: seq<Event>)
    requires Feasible(es) && LedgerAfter(es) == ds + [d] && Valid(ds + [d]) && d.status == Queued && outcome != Queued
    requires Valid(ds + [d.(status := outcome)])
    requires PrunedBoth(ds + [d.(status := outcome)], after, d.webhookId, d.campaignId)
    ensures Feasible(more) && LedgerAfter(more) == after && Given(more) == Given(es)
  {
    assert WithOutcome(ds + [d], |ds|, outcome) == ds + [d.(status := outcome)];
    more := es + [Finished(|ds|, outcome, after)];
    Continue(es, Finished(|ds|, outcome, after));
  }

  /** Finishing the newest delivery in a ledger that then still fits. */
  lemma Finish(es: seq<Event>, ds: seq<Delivery>, d: Delivery, outcome: Status) returns (more: seq<Event>)
    requires Feasible(es) && LedgerAfter(es) == ds + [d] && Valid(ds + [d]) && d.status == Queued && outcome != Queued
    requires |Terminals(ds + [d.(status := outcome)])| <= RETENTION_PER_WEBHOOK
    ensures Feasible(more) && LedgerAfter(more) == ds + [d.(status := outcome)] && Valid(ds + [d.(status := outcome)])
    ensures Given(more) == Given(es)
  {
    var after := ds + [d.(status := outcome)];
    assert WithOutcome(ds + [d], |ds|, outcome) == after;
    OutcomeValid(ds + [d], |ds|, outcome);
    NoneOfBothPruned(after, d.webhookId, d.campaignId);
    more := FinishNewest(es, ds, d, outcome, after);
  }

  lemma FewTerminals(ds: seq<Delivery>)
    requires forall d <- ds :: d.id in {"x", "q", "t"}
    ensures |Terminals(ds)| <= 3
  {
    NoMoreThan(Terminals(ds), {"x", "q", "t"});
    NoMoreThan({"x", "q"}, {"x", "q", "t"});
  }

  /** A delivery fits a ledger: its id is new, it outranks what is there, and it has the next number. */
  ghost predicate Fits(ds: seq<Delivery>, d: Delivery) {
    && Fresh(ds, d.id) && Outranks(d, ds) && d.attempt == HighestAttempt(ds, d.webhookId, d.eventId) + 1
  }

  function One(): seq<Delivery> { [] + [First(Failed)] }
  function Two(): seq<Delivery> { One() + [Waiting()] }

  lemma FirstFits()
    ensures Fits([], First(Queued)) && |Terminals([])| <= 3 && |Terminals(One())| <= 3
  {
    FewTerminals([]);
    FewTerminals(One());
  }

  lemma WaitingFits()
    ensures Fits(One(), Waiting()) && forall e <- One() :: e.webhookId == "hook"
  {
    assert First(Failed) in One();
  }

  lemma LatestFits()
    ensures Fits(Two(), Latest3(Queued)) && forall e <- Two() :: e.webhookId == "hook"
    ensures |Terminals(Two())| <= 3 && |Terminals(Two() + [Latest3(Failed)])| <= 3
      && Two() + [Latest3(Failed)] == Crowd(0)
  {
    assert Two() == [First(Failed), Waiting()] && Waiting() in Two();
    FewTerminals(Two());
    FewTerminals(Two() + [Latest3(Failed)]);
    CrowdStarts();
  }

  lemma StartFirst() returns (es: seq<Event>)
    ensures Feasible(es) && LedgerAfter(es) == One() && Valid(One())
  {
    FirstFits();
    es := Create([], [], First(Queued));
    es := Finish(es, [], First(Queued), Failed);
  }

  /** The first attempt fails, and a retry of it waits. */
  lemma StartRetry() returns (es: seq<Event>)
    ensures Feasible(es) && LedgerAfter(es) == Two() && Valid(Two())
  {
    es := StartFirst();
    FirstFits();
    WaitingFits();
    es := Create(es, One(), Waiting());
  }

  lemma Start() returns (es: seq<Event>)
    ensures Feasible(es) && LedgerAfter(es) == Crowd(0) && NumberOf(Latest3(Failed)) in Given(es)
  {
    es := StartRetry();
    LatestFits();
    es := Create(es, Two(), Latest3(Queued));
    assert NumberOf(Latest3(Queued)) == NumberOf(Latest3(Failed));
    es := Finish(es, Two(), Latest3(Queued), Failed);
  }

  lemma OneMore(es: seq<Event>, n: nat) returns (more: seq<Event>)
    requires n <= 498 && Feasible(es) && LedgerAfter(es) == Crowd(n) && NumberOf(Latest3(Failed)) in Given(es)
    ensures Feasible(more) && LedgerAfter(more) == Crowd(n) + [Other(n, Queued)]
      && NumberOf(Latest3(Failed)) in Given(more)
  {
    CrowdValid(n);
    CrowdTerminals(n);
    NextOtherFits(n);
    more := Create(es, Crowd(n), Other(n, Queued));
  }

  lemma {:induction false} Fill(n: nat) returns (es: seq<Event>)
    requires n <= 498
    ensures Feasible(es) && LedgerAfter(es) == Crowd(n) && NumberOf(Latest3(Failed)) in Given(es)
  {
    if n == 0 {
      es := Start();
    } else {
      es := Fill(n - 1);
      es := OneMore(es, n - 1);
      CrowdGrows(n - 1);
      CrowdTerminals(n);
      CrowdValid(n - 1);
      es := Finish(es, Crowd(n - 1), Other(n - 1, Queued), Delivered);
    }
  }

  // ----- One delivery too many -----

  predicate Usual(d: Delivery) {
    && d.webhookId == "hook" && d.campaignId == "camp" && d.createdAt <= 501 && d.id != "r"
    && (d.retryOf.Some? ==> d.retryOf == Some("x"))
    && (d.status == Queued ==> d == Waiting())
    && (d.eventId == "event" ==> d in {First(Failed), Waiting(), Latest3(Failed)})
    && (d.id == "x" ==> d == First(Failed)) && (d.id == "t" ==> d == Latest3(Failed))
    && (d.id !in {"x", "q", "t"} ==> d.createdAt >= 3)
  }

  /** A ledger with one terminal delivery more than is retained. */
  ghost predicate Full(ds: seq<Delivery>) {
    && Valid(ds) && |ds| > RETENTION_PER_WEBHOOK && |Terminals(ds)| == RETENTION_PER_WEBHOOK + 1
    && First(Failed) in ds && Waiting() in ds && Latest3(Failed) in ds && forall d <- ds :: Usual(d)
  }

  lemma CrowdIsFull()
    ensures Full(Crowd(499))
  {
    CrowdValid(499);
    CrowdTerminals(499);
    InCrowd(499, First(Failed));
    InCrowd(499, Waiting());
    InCrowd(499, Latest3(Failed));
    forall d <- Crowd(499) ensures Usual(d) {
      InCrowd(499, d);
      if i :| 0 <= i < 499 && d == Other(i, Delivered) { NamesApart(i, i); }
    }
  }

  function Kept(ds: seq<Delivery>): set<Id> { AllIds(ds) - {"t"} }

  function Left(ds: seq<Delivery>): seq<Delivery> { Filter(ds, Keeps(OfWebhook("hook"), Kept(ds))) }

  lemma {:induction false} ChainReaches(ds: seq<Delivery>, d: Delivery, id: Id)
    requires Valid(ds) && d in ds && id in Chain(ds, d)
    ensures id == d.id || exists e <- ds :: e.retryOf == Some(id)
    decreases d.createdAt
  {
    if id != d.id {
      ParentIsOlder(ds, d);
      ChainReaches(ds, Parent(ds, d).value, id);
    }
  }

  /** The waiting retry keeps the first attempt. */
  lemma WaitingChain(ds: seq<Delivery>)
    requires Full(ds)
    ensures Chain(ds, Waiting()) == {"q", "x"}
  {
    Sole(ds, First(Failed), Find(ds, "x").value);
    assert Parent(ds, Waiting()) == Some(First(Failed));
    assert Parent(ds, First(Failed)) == None;
  }

  lemma LatestIsNoRoot(ds: seq<Delivery>, r: Delivery)
    requires Full(ds) && r in ds && "t" in Chain(ds, r)
    ensures r == Latest3(Failed)
  {
    ChainReaches(ds, r, "t");
    assert Usual(r);
  }

  lemma NotOnQueuedChain(ds: seq<Delivery>)
    requires Full(ds)
    ensures !OnQueuedChain(ds, Latest3(Failed))
  {
    forall r <- ds | "t" in Chain(ds, r) ensures r == Latest3(Failed) { LatestIsNoRoot(ds, r); }
  }

  lemma NotPreferred(ds: seq<Delivery>, u: Delivery)
    requires Full(ds) && u in ds && u.id !in {"x", "q", "t"}
    ensures !Preferred(ds, Latest3(Failed), u)
  {
    assert Usual(u);
    forall r <- ds | "t" in Chain(ds, r) ensures r == Latest3(Failed) { LatestIsNoRoot(ds, r); }
  }

  lemma SomeGoes(ds: seq<Delivery>, keep: set<Id>) returns (u: Delivery)
    requires Full(ds) && RetainsRight(ds, RETENTION_PER_WEBHOOK, keep)
    ensures u in ds && u.status != Queued && u.id !in keep
  {
    assert keep * Terminals(ds) != Terminals(ds);
    var id :| id in Terminals(ds) && id !in keep;
    u :| u in ds && u.status != Queued && u.id == id;
  }

  /** Retention has no choice: the latest attempt goes. */
  lemma LatestIsPruned(ds: seq<Delivery>, keep: set<Id>)
    requires Full(ds) && RetainsRight(ds, RETENTION_PER_WEBHOOK, keep)
    ensures "t" !in keep
  {
    if "t" in keep {
      NotOnQueuedChain(ds);
      WaitingChain(ds);
      var u := SomeGoes(ds, keep);
      assert Usual(u);
      assert u.id !in {"x", "q", "t"} by {
        assert QueuedChainsKept(ds, keep) && Waiting() in ds;
      }
      NotPreferred(ds, u);
      assert false;
    }
  }

  lemma KeptCounts(ds: seq<Delivery>)
    requires Full(ds)
    ensures |Kept(ds) * Terminals(ds)| == RETENTION_PER_WEBHOOK && KeepsQueued(ds, Kept(ds)) && NoOrphan(ds, Kept(ds))
  {
    assert "t" in Terminals(ds) && Kept(ds) * Terminals(ds) == Terminals(ds) - {"t"};
    forall d ensures !Orphan(ds, Kept(ds), d) {
      if d in ds { assert Usual(d); }
    }
  }

  lemma KeptPreferred(ds: seq<Delivery>, t: Delivery)
    requires Full(ds) && t in ds && t.status != Queued && t.id in Kept(ds)
    ensures Preferred(ds, t, Latest3(Failed))
  {
    assert Usual(t);
    if t.id == "x" {
      WaitingChain(ds);
      assert t.id in Chain(ds, Waiting());
    } else {
      assert t.id in Chain(ds, t);
      if t.id == "q" { Sole(ds, t, Waiting()); }
    }
  }

  lemma KeptChains(ds: seq<Delivery>)
    requires Full(ds)
    ensures QueuedChainsKept(ds, Kept(ds))
  {
    WaitingChain(ds);
    forall r <- ds | r.status == Queued ensures Chain(ds, r) <= Kept(ds) { assert Usual(r); }
  }

  lemma KeptRetains(ds: seq<Delivery>)
    requires Full(ds)
    ensures RetainsRight(ds, RETENTION_PER_WEBHOOK, Kept(ds))
  {
    KeptCounts(ds);
    KeptChains(ds);
    forall t <- ds, d <- ds | t.status != Queued && t.id in Kept(ds) && d.id !in Kept(ds) ensures Preferred(ds, t, d) {
      assert Usual(d);
      KeptPreferred(ds, t);
    }
  }

  lemma LeftIsPruned(ds: seq<Delivery>)
    requires Full(ds)
    ensures Valid(Left(ds)) && PrunedBoth(ds, Left(ds), "hook", "camp")
      && |Terminals(Left(ds))| <= RETENTION_PER_WEBHOOK
  {
    KeptRetains(ds);
    KeptCounts(ds);
    forall d <- ds ensures OfWebhook("hook")(d) { assert Usual(d); }
    FilterAll(ds, OfWebhook("hook"));
    FilterValid(ds, Keeps(OfWebhook("hook"), Kept(ds)));
    assert Pruned(ds, Left(ds), OfWebhook("hook"), RETENTION_PER_WEBHOOK);
    assert Terminals(Left(ds)) <= Kept(ds) * Terminals(ds);
    NoMoreThan(Terminals(Left(ds)), Kept(ds) * Terminals(ds));
    NothingPruned(Left(ds), OfCampaign("camp"), RETENTION_PER_CAMPAIGN);
  }

  function Again(): Delivery { Delivery("r", "camp", "hook", "event", 3, Queued, Some("x"), 1000) }

  lemma AgainFits(ds: seq<Delivery>)
    requires Full(ds)
    ensures Fits(Left(ds), Again()) && forall e <- Left(ds) :: e.webhookId == "hook"
  {
    forall e <- Left(ds)
      ensures e.webhookId == "hook" && e.id != "r" && e.retryOf != Some("r") && e.createdAt < 1000
      ensures e.eventId == "event" ==> e.attempt <= 2
    {
      assert Usual(e);
    }
    assert Waiting() in Left(ds);
  }

  /** Finishing the newest delivery overfills the ledger, and the latest attempt goes. */
  lemma Overflow(es: seq<Event>, ds: seq<Delivery>, d: Delivery, full: seq<Delivery>) returns (more: seq<Event>)
    requires Feasible(es) && LedgerAfter(es) == ds + [d] && Valid(ds + [d]) && NumberOf(Latest3(Failed)) in Given(es)
    requires d.status == Queued && d.webhookId == "hook" && d.campaignId == "camp"
    requires full == ds + [d.(status := Delivered)] && Full(full)
    ensures Feasible(more) && LedgerAfter(more) == Left(full) && NumberOf(Latest3(Failed)) in Given(more)
  {
    LeftIsPruned(full);
    more := FinishNewest(es, ds, d, Delivered, Left(full));
  }

  lemma Repeat(es: seq<Event>, left: seq<Delivery>) returns (more: seq<Event>)
    requires Feasible(es) && LedgerAfter(es) == left && Valid(left) && |Terminals(left)| <= RETENTION_PER_WEBHOOK
    requires NumberOf(Latest3(Failed)) in Given(es) && Fits(left, Again()) && forall e <- left :: e.webhookId == "hook"
    ensures Feasible(more) && !AllDistinct(Given(more))
  {
    more := Create(es, left, Again());
    assert NumberOf(Again()) == NumberOf(Latest3(Failed));
    DistinctOneMore(Given(es), NumberOf(Again()));
  }

  lemma OverflowAndRepeat(es: seq<Event>, ds: seq<Delivery>, d: Delivery, full: seq<Delivery>)
    returns (more: seq<Event>)
    requires Feasible(es) && LedgerAfter(es) == ds + [d] && Valid(ds + [d]) && NumberOf(Latest3(Failed)) in Given(es)
    requires d.status == Queued && d.webhookId == "hook" && d.campaignId == "camp"
    requires full == ds + [d.(status := Delivered)] && Full(full)
    ensures Feasible(more) && !AllDistinct(Given(more))
  {
    more := Overflow(es, ds, d, full);
    LeftIsPruned(full);
    AgainFits(full);
    more := Repeat(more, Left(full));
  }

  /** A history in which two deliveries of one event get the same number. */
  lemma NumberGivenTwice() returns (es: seq<Event>)
    ensures Feasible(es) && !AllDistinct(Given(es))
  {
    es := Fill(498);
    es := OneMore(es, 498);
    CrowdValid(498);
    CrowdGrows(498);
    CrowdIsFull();
    es := OverflowAndRepeat(es, Crowd(498), Other(498, Queued), Crowd(499));
  }
}
