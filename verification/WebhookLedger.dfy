/** The ledger of webhook deliveries: creating, finishing and pruning them. */
module WebhookLedger {
  import opened Json
  import opened WebhookRetention
  import opened Sequences

  const RETENTION_PER_WEBHOOK := 500
  const RETENTION_PER_CAMPAIGN := 5000

  datatype Webhook = Webhook(id: Id, campaignId: Id)

  lemma {:induction false} FilterValid(ds: seq<Delivery>, keep: Delivery -> bool)
    requires Valid(ds)
    ensures Valid(Filter(ds, keep))
  {
    if ds != [] {
      assert forall d <- ds[1..] :: d in ds;
      FilterValid(ds[1..], keep);
      var rest := Filter(ds[1..], keep);
      if keep(ds[0]) {
        forall e <- rest ensures Apart(ds[0], e) {
          var k :| 0 <= k < |ds| - 1 && ds[1..][k] == e;
          assert Apart(ds[0], ds[k + 1]);
        }
        PrependValid(ds[0], rest);
      } else {
        assert [] + rest == rest;
      }
    }
  }

  function OfWebhook(webhookId: Id): Delivery -> bool { (d: Delivery) => d.webhookId == webhookId }

  function OfCampaign(campaignId: Id): Delivery -> bool { (d: Delivery) => d.campaignId == campaignId }

  /** Pruning one group: the others stay where they are, the group keeps what retention says. */
  ghost predicate Pruned(before: seq<Delivery>, after: seq<Delivery>, group: Delivery -> bool, limit: nat)
    requires Valid(before)
  {
    FilterValid(before, group);
    exists keep :: RetainsRight(Filter(before, group), limit, keep) && after == Filter(before, Keeps(group, keep))
  }

  /** The webhook's deliveries are pruned, then the campaign's. */
  ghost predicate PrunedBoth(before: seq<Delivery>, after: seq<Delivery>, webhookId: Id, campaignId: Id)
    requires Valid(before)
  {
    exists between ::
      && Valid(between) && Pruned(before, between, OfWebhook(webhookId), RETENTION_PER_WEBHOOK)
      && Pruned(between, after, OfCampaign(campaignId), RETENTION_PER_CAMPAIGN)
  }

  function Keeps(group: Delivery -> bool, keep: set<Id>): Delivery -> bool { d => !group(d) || d.id in keep }

  function HighestAttempt(ds: seq<Delivery>, webhookId: Id, eventId: Id): (r: nat)
    ensures forall d <- ds :: d.webhookId == webhookId && d.eventId == eventId ==> d.attempt <= r
    ensures r > 0 ==> exists d <- ds :: d.webhookId == webhookId && d.eventId == eventId && d.attempt == r
  {
    if ds == [] then 0
    else
      var rest, d := HighestAttempt(ds[1..], webhookId, eventId), ds[0];
      if d.webhookId == webhookId && d.eventId == eventId && d.attempt > rest then d.attempt else rest
  }

  /** The creation time of the webhook's newest delivery. */
  function Latest(ds: seq<Delivery>, webhookId: Id): (r: Option<nat>)
    ensures r.None? <==> forall d <- ds :: d.webhookId != webhookId
    ensures r.Some? ==> forall d <- ds :: d.webhookId == webhookId ==> d.createdAt <= r.value
    ensures r.Some? ==> exists d <- ds :: d.webhookId == webhookId && d.createdAt == r.value
  {
    if ds == [] then None
    else
      var rest, d := Latest(ds[1..], webhookId), ds[0];
      if d.webhookId == webhookId && (rest.None? || rest.value < d.createdAt) then Some(d.createdAt) else rest
  }

  /** The delivery for the next attempt at an event. */
  method NextDelivery(ds: seq<Delivery>, webhook: Webhook, eventId: Id, retryOf: Option<Id>, id: Id, now: nat)
    returns (d: Delivery)
    ensures d == Delivery(id, webhook.campaignId, webhook.id, eventId, d.attempt, Queued, retryOf, d.createdAt)
    ensures Outranks(d, ds) && d.createdAt >= now
    ensures d.attempt == HighestAttempt(ds, webhook.id, eventId) + 1
    ensures d.createdAt == now || exists e <- ds :: e.webhookId == webhook.id && d.createdAt == e.createdAt + 1
  {
    var latest := Latest(ds, webhook.id);
    var createdAt := if latest.Some? && latest.value >= now then latest.value + 1 else now;
    d := Delivery(id, webhook.campaignId, webhook.id, eventId, HighestAttempt(ds, webhook.id, eventId) + 1, Queued,
      retryOf, createdAt);
  }

  class Ledger {
    var deliveries: seq<Delivery>

    constructor ()
      ensures deliveries == [] && Valid(deliveries)
    {
      deliveries := [];
    }

    method Prune(group: Delivery -> bool, limit: nat)
      requires Valid(deliveries)
      modifies this
      ensures Valid(deliveries) && Pruned(old(deliveries), deliveries, group, limit)
    {
      var mine := Filter(deliveries, group);
      FilterValid(deliveries, group);
      ghost var keepAll := AllIds(mine);
      if |mine| <= limit {
        assert RetainsRight(mine, limit, keepAll);
        forall d <- deliveries ensures Keeps(group, keepAll)(d) { assert group(d) ==> d in mine; }
        FilterAll(deliveries, Keeps(group, keepAll));
        return;
      }
      var keep := RetainedDeliveryIds(mine, limit);
      FilterValid(deliveries, Keeps(group, keep));
      deliveries := Filter(deliveries, Keeps(group, keep));
    }

    /** Prunes the webhook's deliveries, then the campaign's. */
    method PruneLedgers(webhookId: Id, campaignId: Id)
      requires Valid(deliveries)
      modifies this
      ensures Valid(deliveries)
      ensures PrunedBoth(old(deliveries), deliveries, webhookId, campaignId)
    {
      Prune(OfWebhook(webhookId), RETENTION_PER_WEBHOOK);
      ghost var between := deliveries;
      Prune(OfCampaign(campaignId), RETENTION_PER_CAMPAIGN);
    }

    /** `id` is fresh: nothing in the ledger carries or retries it. */
    method Create(webhook: Webhook, eventId: Id, retryOf: Option<Id>, id: Id, now: nat) returns (d: Delivery)
      requires Valid(deliveries) && Fresh(deliveries, id) && retryOf != Some(id)
      requires retryOf.Some? ==> forall e <- deliveries :: e.id == retryOf.value ==> e.webhookId == webhook.id
      modifies this
      ensures Valid(deliveries) && d in deliveries && Outranks(d, old(deliveries))
      ensures d == Delivery(id, webhook.campaignId, webhook.id, eventId, d.attempt, Queued, retryOf, d.createdAt)
      ensures d.createdAt >= now && d.attempt == HighestAttempt(old(deliveries), webhook.id, eventId) + 1
      ensures Valid(old(deliveries) + [d])
        && PrunedBoth(old(deliveries) + [d], deliveries, webhook.id, webhook.campaignId)
      ensures forall e <- deliveries :: e == d || e in old(deliveries)
      ensures forall e <- old(deliveries) :: Untouchable(e, d.webhookId, d.campaignId) ==> e in deliveries
    {
      d := NextDelivery(deliveries, webhook, eventId, retryOf, id, now);
      AppendValid(deliveries, d);
      deliveries := deliveries + [d];
      label created:
      PruneLedgers(webhook.id, webhook.campaignId);
      PruneBothKeeps(old@created(deliveries), deliveries, webhook.id, webhook.campaignId);
    }

    /** A caller records the outcome of a queued delivery; what no longer fits is pruned. */
    method Finish(i: nat, outcome: Status)
      requires Valid(deliveries) && i < |deliveries| && deliveries[i].status == Queued && outcome != Queued
      modifies this
      ensures Valid(deliveries) && Valid(WithOutcome(old(deliveries), i, outcome))
      ensures PrunedBoth(WithOutcome(old(deliveries), i, outcome), deliveries, old(deliveries[i]).webhookId,
        old(deliveries[i]).campaignId)
      ensures forall e <- old(deliveries) :: e.status == Queued && e != old(deliveries[i]) ==> e in deliveries
      ensures forall e <- deliveries :: e in old(deliveries) || e == old(deliveries[i]).(status := outcome)
    {
      var d := deliveries[i].(status := outcome);
      ghost var before := deliveries;
      deliveries := deliveries[i := d];
      OutcomeValid(before, i, outcome);
      forall e <- before | e != before[i] ensures e in deliveries {
        var k :| 0 <= k < |before| && before[k] == e;
        assert deliveries[k] == e;
      }
      label finished:
      PruneLedgers(d.webhookId, d.campaignId);
      PruneBothKeeps(old@finished(deliveries), deliveries, d.webhookId, d.campaignId);
    }
  }

  function WithOutcome(ds: seq<Delivery>, i: nat, outcome: Status): seq<Delivery>
    requires i < |ds|
  {
    ds[i := ds[i].(status := outcome)]
  }

  lemma OutcomeValid(ds: seq<Delivery>, i: nat, outcome: Status)
    requires Valid(ds) && i < |ds|
    ensures Valid(WithOutcome(ds, i, outcome))
  {
    var after := WithOutcome(ds, i, outcome);
    forall j, k | 0 <= j < k < |after| ensures Apart(after[j], after[k]) { assert Apart(ds[j], ds[k]); }
  }

  ghost predicate Fresh(ds: seq<Delivery>, id: Id) { forall e <- ds :: e.id != id && e.retryOf != Some(id) }

  /** Strictly newer than everything its webhook has, and a later attempt at its event than any. */
  ghost predicate Outranks(d: Delivery, ds: seq<Delivery>) {
    forall e <- ds :: e.webhookId == d.webhookId
      ==> e.createdAt < d.createdAt && (e.eventId == d.eventId ==> e.attempt < d.attempt)
  }

  /** Pruning the two groups cannot drop the delivery. */
  predicate Untouchable(d: Delivery, webhookId: Id, campaignId: Id) {
    d.status == Queued || (d.webhookId != webhookId && d.campaignId != campaignId)
  }

  lemma AppendValid(ds: seq<Delivery>, d: Delivery)
    requires Valid(ds) && Fresh(ds, d.id) && Outranks(d, ds) && d.retryOf != Some(d.id)
    requires d.retryOf.Some? ==> forall e <- ds :: e.id == d.retryOf.value ==> e.webhookId == d.webhookId
    ensures Valid(ds + [d])
  {
    forall i | 0 <= i < |ds| ensures Apart(ds[i], d) { assert ds[i] in ds; }
  }

  /** Pruning drops only terminal deliveries of the group. */
  lemma PrunedDrops(before: seq<Delivery>, after: seq<Delivery>, group: Delivery -> bool, limit: nat)
    requires Valid(before) && Pruned(before, after, group, limit)
    ensures forall d <- after :: d in before
    ensures forall d <- before :: d.status == Queued || !group(d) ==> d in after
  {}

  lemma PruneBothKeeps(before: seq<Delivery>, after: seq<Delivery>, webhookId: Id, campaignId: Id)
    requires Valid(before) && PrunedBoth(before, after, webhookId, campaignId)
    ensures forall d <- after :: d in before
    ensures forall d <- before :: Untouchable(d, webhookId, campaignId) ==> d in after
  {
    var between :| Valid(between) && Pruned(before, between, OfWebhook(webhookId), RETENTION_PER_WEBHOOK)
      && Pruned(between, after, OfCampaign(campaignId), RETENTION_PER_CAMPAIGN);
    PrunedDrops(before, between, OfWebhook(webhookId), RETENTION_PER_WEBHOOK);
    PrunedDrops(between, after, OfCampaign(campaignId), RETENTION_PER_CAMPAIGN);
  }
}
