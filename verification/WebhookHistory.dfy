/** Numbering the attempts at an event over a whole history of creating, finishing and pruning. */
module WebhookHistory {
  import opened Sequences
  import opened WebhookRetention
  import opened WebhookLedger

  datatype Attempt = Attempt(webhookId: Id, eventId: Id, attempt: nat)

  function NumberOf(d: Delivery): Attempt { Attempt(d.webhookId, d.eventId, d.attempt) }

  /** What happens to a ledger, with the ledger it leaves. */
  datatype Event = Created(d: Delivery, after: seq<Delivery>) | Finished(i: nat, outcome: Status, after: seq<Delivery>)

  /** What creating and finishing promise about the ledger they leave. */
  ghost predicate Possible(ds: seq<Delivery>, e: Event) {
    Valid(ds) && match e
      case Created(d, after) =>
        && Fresh(ds, d.id) && Outranks(d, ds) && d.status == Queued
          && d.attempt == HighestAttempt(ds, d.webhookId, d.eventId) + 1
        && Valid(ds + [d]) && PrunedBoth(ds + [d], after, d.webhookId, d.campaignId)
      case Finished(i, outcome, after) =>
        && i < |ds| && ds[i].status == Queued && outcome != Queued
        && Valid(WithOutcome(ds, i, outcome))
          && PrunedBoth(WithOutcome(ds, i, outcome), after, ds[i].webhookId, ds[i].campaignId)
  }

  /** The ledger after a history that starts with an empty one. */
  function LedgerAfter(es: seq<Event>): seq<Delivery> { if es == [] then [] else es[|es| - 1].after }

  ghost predicate Feasible(es: seq<Event>) {
    es == [] || (Feasible(es[..|es| - 1]) && Possible(LedgerAfter(es[..|es| - 1]), es[|es| - 1]))
  }

  /** The numbers given, in order. */
  function Given(es: seq<Event>): seq<Attempt> {
    if es == [] then []
    else Given(es[..|es| - 1]) + if es[|es| - 1].Created? then [NumberOf(es[|es| - 1].d)] else []
  }

  // ----- What every history keeps -----

  /** The ledger holds numbers that were given, and every number below a given one was given. */
  ghost predicate Numbered(ds: seq<Delivery>, given: seq<Attempt>) {
    && Valid(ds) && (forall d <- ds :: NumberOf(d) in given)
    && forall n <- given, k :: 1 <= k <= n.attempt ==> n.(attempt := k) in given
  }

  lemma PrunedIsValid(before: seq<Delivery>, after: seq<Delivery>, group: Delivery -> bool, limit: nat)
    requires Valid(before) && Pruned(before, after, group, limit)
    ensures Valid(after) && forall d <- after :: d in before
  {
    FilterValid(before, group);
    var keep :| RetainsRight(Filter(before, group), limit, keep) && after == Filter(before, Keeps(group, keep));
    FilterValid(before, Keeps(group, keep));
  }

  lemma PrunedBothIsValid(before: seq<Delivery>, after: seq<Delivery>, webhookId: Id, campaignId: Id)
    requires Valid(before) && PrunedBoth(before, after, webhookId, campaignId)
    ensures Valid(after) && forall d <- after :: d in before
  {
    var between :|
      && Valid(between) && Pruned(before, between, OfWebhook(webhookId), RETENTION_PER_WEBHOOK)
      && Pruned(between, after, OfCampaign(campaignId), RETENTION_PER_CAMPAIGN);
    PrunedIsValid(before, between, OfWebhook(webhookId), RETENTION_PER_WEBHOOK);
    PrunedIsValid(between, after, OfCampaign(campaignId), RETENTION_PER_CAMPAIGN);
  }

  /** Every number below one that is given next was given. */
  lemma BelowNext(ds: seq<Delivery>, given: seq<Attempt>, n: Attempt, k: nat)
    requires Numbered(ds, given) && n.attempt == HighestAttempt(ds, n.webhookId, n.eventId) + 1 && 1 <= k < n.attempt
    ensures n.(attempt := k) in given
  {
    var e :| e in ds && e.webhookId == n.webhookId && e.eventId == n.eventId && e.attempt == n.attempt - 1;
    assert NumberOf(e).(attempt := k) == n.(attempt := k);
  }

  /** Every number up to the new one is among those given. */
  lemma UpToNext(ds: seq<Delivery>, given: seq<Attempt>, n: Attempt, k: nat)
    requires Numbered(ds, given) && n.attempt == HighestAttempt(ds, n.webhookId, n.eventId) + 1 && 1 <= k <= n.attempt
    ensures n.(attempt := k) in given + [n]
  {
    if k < n.attempt {
      BelowNext(ds, given, n, k);
    } else {
      assert (given + [n])[|given|] == n.(attempt := k);
    }
  }

  lemma CreatedNumbered(ds: seq<Delivery>, given: seq<Attempt>, d: Delivery, after: seq<Delivery>)
    requires Numbered(ds, given) && Possible(ds, Created(d, after))
    ensures Numbered(after, given + [NumberOf(d)])
  {
    PrunedBothIsValid(ds + [d], after, d.webhookId, d.campaignId);
    var more, n := given + [NumberOf(d)], NumberOf(d);
    forall k | 1 <= k <= n.attempt ensures n.(attempt := k) in more { UpToNext(ds, given, n, k); }
    forall x <- more ensures x in given || x == n {}
  }

  lemma FinishedNumbered(ds: seq<Delivery>, given: seq<Attempt>, e: Event)
    requires Numbered(ds, given) && e.Finished? && Possible(ds, e)
    ensures Numbered(e.after, given)
  {
    PrunedBothIsValid(WithOutcome(ds, e.i, e.outcome), e.after, ds[e.i].webhookId, ds[e.i].campaignId);
    forall d <- e.after ensures NumberOf(d) in given {
      var k :| 0 <= k < |ds| && WithOutcome(ds, e.i, e.outcome)[k] == d;
      assert NumberOf(ds[k]) == NumberOf(d);
    }
  }

  lemma {:induction false} HistoryNumbered(es: seq<Event>)
    requires Feasible(es)
    ensures Numbered(LedgerAfter(es), Given(es))
  {
    if es != [] {
      var before, e := es[..|es| - 1], es[|es| - 1];
      HistoryNumbered(before);
      if e.Created? {
        CreatedNumbered(LedgerAfter(before), Given(before), e.d, e.after);
      } else {
        FinishedNumbered(LedgerAfter(before), Given(before), e);
        assert Given(es) == Given(before);
      }
    }
  }

  // ----- When a number is given again -----

  /** Some attempt at the event was given a higher number than any that the ledger still has. */
  ghost predicate LatestPruned(ds: seq<Delivery>, given: seq<Attempt>, webhookId: Id, eventId: Id) {
    exists n <- given :: n.webhookId == webhookId && n.eventId == eventId
      && n.attempt > HighestAttempt(ds, webhookId, eventId)
  }

  /** A new delivery gets a number that was given before exactly when the latest attempt at its
      event has been pruned. */
  lemma GivenAgainIff(es: seq<Event>, d: Delivery, after: seq<Delivery>)
    requires Feasible(es) && Possible(LedgerAfter(es), Created(d, after))
    ensures NumberOf(d) in Given(es) <==> LatestPruned(LedgerAfter(es), Given(es), d.webhookId, d.eventId)
  {
    HistoryNumbered(es);
    if LatestPruned(LedgerAfter(es), Given(es), d.webhookId, d.eventId) {
      var n :| n in Given(es) && n.webhookId == d.webhookId && n.eventId == d.eventId
        && n.attempt > HighestAttempt(LedgerAfter(es), d.webhookId, d.eventId);
      assert n.(attempt := d.attempt) == NumberOf(d);
    }
  }

  ghost predicate AllDistinct(ns: seq<Attempt>) { forall i, j :: 0 <= i < j < |ns| ==> ns[i] != ns[j] }

  /** At every creation the latest attempt at the event was still in the ledger. */
  ghost predicate LatestKept(es: seq<Event>) {
    es == [] ||
      (LatestKept(es[..|es| - 1]) && var before, e := es[..|es| - 1], es[|es| - 1];
        e.Created? ==> !LatestPruned(LedgerAfter(before), Given(before), e.d.webhookId, e.d.eventId))
  }

  /** Over a whole history no attempt number is given twice exactly when no event was retried
      after its latest attempt had been pruned. */
  lemma {:induction false} NumbersDistinctIff(es: seq<Event>)
    requires Feasible(es)
    ensures AllDistinct(Given(es)) <==> LatestKept(es)
  {
    if es != [] {
      var before, e := es[..|es| - 1], es[|es| - 1];
      NumbersDistinctIff(before);
      if e.Created? {
        GivenAgainIff(before, e.d, e.after);
        DistinctOneMore(Given(before), NumberOf(e.d));
      } else {
        assert Given(es) == Given(before);
      }
    }
  }

  lemma DistinctOneMore(ns: seq<Attempt>, n: Attempt)
    ensures AllDistinct(ns + [n]) <==> AllDistinct(ns) && n !in ns
  {
    var more := ns + [n];
    if AllDistinct(more) {
      forall i, j | 0 <= i < j < |ns| ensures ns[i] != ns[j] { assert more[i] != more[j]; }
      forall i | 0 <= i < |ns| ensures ns[i] != n { assert more[i] != more[|ns|]; }
    }
  }
}
