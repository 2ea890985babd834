/** `POST /api/webhooks/stripe` (`src/app/api/webhooks/stripe/route.ts`):
    keeps the subscription table in step with the payment provider. Signature
    checking is reduced to whether an event could be built; the provider's
    `current_period_end` for the checkout's subscription, the configured
    price id, the new row's id and the time are inputs. */
module StripeWebhook {
  import opened Base
  import opened Schema
  import Seqs

  /** The verified events the handler distinguishes. `OtherEvent` stands only
      for a type other than "checkout.session.completed",
      "invoice.payment_succeeded" and "customer.subscription.deleted": an event
      of one of those types is always built with its own constructor. */
  datatype StripeEvent =
    | CheckoutSessionCompleted(metadataUserId: Option<string>, customer: string, subscription: string)
    | InvoicePaymentSucceeded(lineSubscriptions: seq<Option<string>>, periodEnd: int)
    | CustomerSubscriptionDeleted(subscriptionId: string)
    | OtherEvent(eventType: string)

  /** Provider timestamps are seconds; the table stores milliseconds. */
  function SecondsToMillis(sec: int): (ms: Millis)
    ensures ms / 1000 == sec && ms % 1000 == 0
  {
    sec * 1000
  }

  /** The row of `userId`, if any, as `upsert({ where: { userId } })` finds it. */
  function RowOf(subs: seq<Subscription>, userId: string): (k: nat)
    ensures k <= |subs|
    ensures k < |subs| ==> subs[k].userId == userId
    ensures k == |subs| <==> forall i :: 0 <= i < |subs| ==> subs[i].userId != userId
  {
    Seqs.FirstIndex((s: Subscription) => s.userId == userId, subs)
  }

  /** The `upsert` of a completed checkout (route.ts:42-61): an existing row
      keeps its id, user and cancellation date and takes the new customer,
      subscription, price, status and period end; otherwise a row is created. */
  function UpsertActive(subs: seq<Subscription>, userId: string, customer: string, subscriptionId: string,
                        priceId: string, periodEnd: Millis, newId: string): (r: seq<Subscription>)
    ensures |subs| <= |r| <= |subs| + 1
    ensures forall i :: 0 <= i < |subs| ==> r[i].id == subs[i].id && r[i].userId == subs[i].userId
    ensures |r| == |subs| + 1 ==> r[|subs|].id == newId && r[|subs|].userId == userId && IsActive(r[|subs|])
    ensures |r| == |subs| + 1 ==> r[|subs|].canceledAt.None?
    // an existing row keeps its cancellation date
    ensures RowOf(subs, userId) < |subs| ==> r[RowOf(subs, userId)].canceledAt == subs[RowOf(subs, userId)].canceledAt
  {
    var k := RowOf(subs, userId);
    if k < |subs| then
      subs[k := subs[k].(stripeCustomerId := customer, stripeSubscriptionId := Some(subscriptionId),
                         stripePriceId := priceId, status := "active", currentPeriodEnd := Some(periodEnd))]
    else
      subs + [Subscription(newId, userId, customer, Some(subscriptionId), priceId, "active", Some(periodEnd), None)]
  }

  /** After the upsert the user has exactly one row (the table still holds
      one row per user), it is active with the new subscription and period
      end, and every other user's row is as it was. */
  lemma UpsertLeavesOneActiveRow(subs: seq<Subscription>, userId: string, customer: string, subscriptionId: string,
                                 priceId: string, periodEnd: Millis, newId: string)
    requires OnePerUser(subs)
    ensures var r := UpsertActive(subs, userId, customer, subscriptionId, priceId, periodEnd, newId);
      OnePerUser(r)
      && SubscriptionOf(r, userId).Some?
      && IsActive(SubscriptionOf(r, userId).value)
      && SubscriptionOf(r, userId).value.stripeSubscriptionId == Some(subscriptionId)
      && SubscriptionOf(r, userId).value.currentPeriodEnd == Some(periodEnd)
      && SubscriptionOf(r, userId).value.stripeCustomerId == customer
      && SubscriptionOf(r, userId).value.stripePriceId == priceId
      && HasActiveSubscription(r, userId)
      && (|r| == |subs| <==> exists i :: 0 <= i < |subs| && subs[i].userId == userId)
      && |r| <= |subs| + 1
      && (forall i :: 0 <= i < |subs| && subs[i].userId != userId ==> r[i] == subs[i])
  {
    var r := UpsertActive(subs, userId, customer, subscriptionId, priceId, periodEnd, newId);
    var k := RowOf(subs, userId);
    var p := (s: Subscription) => s.userId == userId;
    assert forall i :: 0 <= i < |subs| ==> r[i].userId == subs[i].userId;
    assert r[k].userId == userId && IsActive(r[k]);
    Seqs.FirstMatchAtFirstIndex(p, r);
    assert Seqs.FirstIndex(p, r) == k;
  }

  /** The subscription the first invoice line belongs to, as `lines.data[0]?.subscription`. */
  function InvoiceSubscriptionId(lineSubscriptions: seq<Option<string>>): (id: Option<string>)
    ensures lineSubscriptions == [] ==> id.None?
    ensures lineSubscriptions != [] ==> id == lineSubscriptions[0]
  {
    if lineSubscriptions == [] then None else lineSubscriptions[0]
  }

  /** `findFirst({ where: { stripeSubscriptionId } })` then `update` of that
      row (route.ts:81-96): the first matching row becomes active with the
      new period end; nothing else changes. */
  function RenewFirst(subs: seq<Subscription>, subscriptionId: string, periodEnd: Millis): (r: seq<Subscription>)
    ensures |r| == |subs|
    ensures forall i :: 0 <= i < |subs| ==> r[i].userId == subs[i].userId && r[i].id == subs[i].id
  {
    var k := Seqs.FirstIndex((s: Subscription) => s.stripeSubscriptionId == Some(subscriptionId), subs);
    if k < |subs| then subs[k := subs[k].(status := "active", currentPeriodEnd := Some(periodEnd))]
    else subs
  }

  /** A renewal changes exactly the first row carrying the subscription id,
      or nothing when no row carries it. */
  lemma RenewalTouchesOnlyFirstMatch(subs: seq<Subscription>, subscriptionId: string, periodEnd: Millis)
    ensures var r := RenewFirst(subs, subscriptionId, periodEnd);
      OnePerUser(subs) ==> OnePerUser(r)
    ensures var r := RenewFirst(subs, subscriptionId, periodEnd);
      (forall i :: 0 <= i < |subs| ==> subs[i].stripeSubscriptionId != Some(subscriptionId)) ==> r == subs
    ensures var r := RenewFirst(subs, subscriptionId, periodEnd);
      forall k :: 0 <= k < |subs| && subs[k].stripeSubscriptionId == Some(subscriptionId)
                  && (forall i :: 0 <= i < k ==> subs[i].stripeSubscriptionId != Some(subscriptionId)) ==>
        r[k] == subs[k].(status := "active", currentPeriodEnd := Some(periodEnd))
        && forall i :: 0 <= i < |subs| && i != k ==> r[i] == subs[i]
  {
    var p := (s: Subscription) => s.stripeSubscriptionId == Some(subscriptionId);
    var first := Seqs.FirstIndex(p, subs);
    forall k | 0 <= k < |subs| && p(subs[k]) && (forall i :: 0 <= i < k ==> !p(subs[i]))
      ensures k == first
    {
    }
  }

  /** The `updateMany` of a deleted subscription (route.ts:122-132): every
      row carrying the id is canceled and its access ends now. */
  function CancelMatching(subs: seq<Subscription>, subscriptionId: string, now: Millis): (r: seq<Subscription>)
    ensures |r| == |subs|
    ensures forall i :: 0 <= i < |subs| && subs[i].stripeSubscriptionId == Some(subscriptionId) ==>
      !IsActive(r[i]) && r[i].status == "canceled"
      && r[i].canceledAt == Some(now) && r[i].currentPeriodEnd == Some(now)
      && r[i].id == subs[i].id && r[i].userId == subs[i].userId
      && r[i].stripeSubscriptionId == subs[i].stripeSubscriptionId
      && r[i].stripeCustomerId == subs[i].stripeCustomerId && r[i].stripePriceId == subs[i].stripePriceId
    ensures forall i :: 0 <= i < |subs| && subs[i].stripeSubscriptionId != Some(subscriptionId) ==> r[i] == subs[i]
  {
    seq(|subs|, i requires 0 <= i < |subs| =>
      if subs[i].stripeSubscriptionId == Some(subscriptionId)
      then subs[i].(status := "canceled", canceledAt := Some(now), currentPeriodEnd := Some(now))
      else subs[i])
  }

  /** Deleting a subscription ends Pro at once for a user whose row carries
      it, and the table still holds one row per user. */
  lemma DeletionRevokesPro(subs: seq<Subscription>, subscriptionId: string, now: Millis, userId: string)
    requires OnePerUser(subs)
    requires SubscriptionOf(subs, userId).Some?
    requires SubscriptionOf(subs, userId).value.stripeSubscriptionId == Some(subscriptionId)
    ensures OnePerUser(CancelMatching(subs, subscriptionId, now))
    ensures !HasActiveSubscription(CancelMatching(subs, subscriptionId, now), userId)
    ensures SubscriptionOf(CancelMatching(subs, subscriptionId, now), userId).value.currentPeriodEnd == Some(now)
  {
    var r := CancelMatching(subs, subscriptionId, now);
    var p := (s: Subscription) => s.userId == userId;
    Seqs.FirstMatchAtFirstIndex(p, subs);
    var k := Seqs.FirstIndex(p, subs);
    assert forall i :: 0 <= i < |subs| ==> r[i].userId == subs[i].userId;
    forall i | 0 <= i < |r| && r[i].userId == userId ensures !IsActive(r[i]) {
      assert i == k;
    }
    Seqs.FirstMatchAtFirstIndex(p, r);
    assert Seqs.FirstIndex(p, r) == k;
  }

  /** `POST` (route.ts:8-150); `event` is `None` when the signature check fails. */
  method Post(db: Database, event: Option<StripeEvent>, currentPeriodEndSec: int, priceId: string,
              newRowId: string, now: Millis) returns (resp: Response)
    requires db.Valid()
    modifies db`subscriptions
    ensures db.Valid()
    ensures event.None? ==>
      resp == Response(400, ErrorBody("Webhook signature verification failed"))
      && db.subscriptions == old(db.subscriptions)
    ensures event.Some? && event.value.CheckoutSessionCompleted? && !Truthy(event.value.metadataUserId) ==>
      resp == Response(500, ErrorBody("Webhook handler failed"))
      && db.subscriptions == old(db.subscriptions)
    ensures event.Some? && event.value.CheckoutSessionCompleted? && Truthy(event.value.metadataUserId) ==>
      resp == Response(200, ReceivedBody)
      && db.subscriptions == UpsertActive(old(db.subscriptions), event.value.metadataUserId.value,
                                          event.value.customer, event.value.subscription, priceId,
                                          SecondsToMillis(currentPeriodEndSec), newRowId)
    ensures event.Some? && event.value.InvoicePaymentSucceeded? ==>
      var id := InvoiceSubscriptionId(event.value.lineSubscriptions);
      resp == Response(200, ReceivedBody)
      && db.subscriptions == if Truthy(id)
                             then RenewFirst(old(db.subscriptions), id.value, SecondsToMillis(event.value.periodEnd))
                             else old(db.subscriptions)
    ensures event.Some? && event.value.CustomerSubscriptionDeleted? ==>
      resp == Response(200, ReceivedBody)
      && db.subscriptions == CancelMatching(old(db.subscriptions), event.value.subscriptionId, now)
    ensures event.Some? && event.value.OtherEvent? ==>
      resp == Response(200, ReceivedBody) && db.subscriptions == old(db.subscriptions)
  {
    if event.None? {
      return Response(400, ErrorBody("Webhook signature verification failed"));
    }
    match event.value {
      case CheckoutSessionCompleted(userId, customer, subscriptionId) =>
        if !Truthy(userId) {
          return Response(500, ErrorBody("Webhook handler failed"));
        }
        UpsertLeavesOneActiveRow(db.subscriptions, userId.value, customer, subscriptionId, priceId,
                                 SecondsToMillis(currentPeriodEndSec), newRowId);
        db.subscriptions := UpsertActive(db.subscriptions, userId.value, customer, subscriptionId, priceId,
                                         SecondsToMillis(currentPeriodEndSec), newRowId);
      case InvoicePaymentSucceeded(lines, periodEnd) =>
        var subscriptionId := InvoiceSubscriptionId(lines);
        if Truthy(subscriptionId) {
          RenewalTouchesOnlyFirstMatch(db.subscriptions, subscriptionId.value, SecondsToMillis(periodEnd));
          db.subscriptions := RenewFirst(db.subscriptions, subscriptionId.value, SecondsToMillis(periodEnd));
        }
      case CustomerSubscriptionDeleted(subscriptionId) =>
        var r := CancelMatching(db.subscriptions, subscriptionId, now);
        assert forall i :: 0 <= i < |r| ==> r[i].userId == db.subscriptions[i].userId;
        db.subscriptions := r;
      case OtherEvent(_) =>
    }
    resp := Response(200, ReceivedBody);
  }
}
