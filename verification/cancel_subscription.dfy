/** `POST /api/subscription/cancel` (`src/app/api/subscription/cancel/route.ts`):
    asks the provider to cancel at the end of the billing period and records
    the cancellation while keeping the row active. The provider's
    `current_period_end` and the time are inputs; the provider call is
    returned as the subscription id it is sent for. */
module CancelSubscription {
  import opened Base
  import opened Schema
  import Seqs
  import StripeWebhook

  /** The `where: { userId }` filter of the `findFirst`. Prisma drops a field
      whose value is `undefined`, so for such an id the filter matches every row. */
  datatype UserFilter = AnyUser | UserIs(userId: string)

  /** The guard `!session || !session.user || !("id" in session.user)`: unlike
      the other routes it only asks that the key exist, so an empty id and an
      `undefined` id both pass. */
  function CancelSessionUserId(session: Option<Session>): (f: Option<UserFilter>)
    ensures f.Some? <==> session.Some? && session.value.user.Some? && !session.value.user.value.id.NoIdKey?
    ensures f == Some(AnyUser) <==> session.Some? && session.value.user.Some? && session.value.user.value.id.UndefinedId?
    ensures SessionUserId(session).Some? ==> f == Some(UserIs(SessionUserId(session).value))
  {
    if session.Some? && session.value.user.Some? then
      match session.value.user.value.id
      case NoIdKey => None
      case UndefinedId => Some(AnyUser)
      case StringId(id) => Some(UserIs(id))
    else None
  }

  /** The guard lets through a session whose user id is empty, which every
      other route refuses. */
  lemma EmptyIdPassesCancelGuard()
    ensures var s := Some(Session(Some(SessionUser(StringId("")))));
      CancelSessionUserId(s) == Some(UserIs("")) && SessionUserId(s).None?
  {
  }

  /** The row `findFirst` returns, as an index: the first row the filter
      matches, or the table length when none does. The row found is always
      the first row of its own user. */
  function CancelRow(subs: seq<Subscription>, filter: UserFilter): (k: nat)
    ensures k <= |subs|
    ensures k < |subs| ==> StripeWebhook.RowOf(subs, subs[k].userId) == k
    ensures filter.UserIs? ==> k == StripeWebhook.RowOf(subs, filter.userId)
    ensures filter.AnyUser? ==> (k == |subs| <==> subs == [])
  {
    match filter
    case AnyUser => 0
    case UserIs(userId) => StripeWebhook.RowOf(subs, userId)
  }

  /** A session whose `id` key holds `undefined` passes the guard, is refused
      by every other route, and leads the lookup to the table's first row,
      whichever user owns it. */
  lemma UndefinedIdReachesFirstRow(subs: seq<Subscription>, other: string)
    requires subs != [] && subs[0].userId == other
    ensures var s := Some(Session(Some(SessionUser(UndefinedId))));
      SessionUserId(s).None? && CancelSessionUserId(s) == Some(AnyUser)
      && CancelRow(subs, AnyUser) == 0 && subs[CancelRow(subs, AnyUser)].userId == other
  {
  }

  /** The row `update` (route.ts:42-51): status stays "active", the
      cancellation time is recorded and access runs to the period end. */
  function MarkCanceledAtPeriodEnd(subs: seq<Subscription>, k: nat, now: Millis, periodEnd: Millis): (r: seq<Subscription>)
    requires k < |subs|
    ensures |r| == |subs|
    ensures r[k].id == subs[k].id && r[k].userId == subs[k].userId
    ensures r[k].stripeSubscriptionId == subs[k].stripeSubscriptionId
    ensures IsActive(r[k]) && r[k].canceledAt == Some(now) && r[k].currentPeriodEnd == Some(periodEnd)
    ensures forall i :: 0 <= i < |subs| && i != k ==> r[i] == subs[i]
  {
    subs[k := subs[k].(status := "active", canceledAt := Some(now), currentPeriodEnd := Some(periodEnd))]
  }

  /** Cancelling keeps Pro: the user still has an active subscription until
      the period end, and the table still holds one row per user. */
  lemma CancelKeepsProUntilPeriodEnd(subs: seq<Subscription>, userId: string, now: Millis, periodEnd: Millis)
    requires OnePerUser(subs)
    requires StripeWebhook.RowOf(subs, userId) < |subs|
    ensures var r := MarkCanceledAtPeriodEnd(subs, StripeWebhook.RowOf(subs, userId), now, periodEnd);
      OnePerUser(r) && HasActiveSubscription(r, userId)
      && SubscriptionOf(r, userId).Some? && SubscriptionOf(r, userId).value.currentPeriodEnd == Some(periodEnd)
  {
    var k := StripeWebhook.RowOf(subs, userId);
    var r := MarkCanceledAtPeriodEnd(subs, k, now, periodEnd);
    var p := (s: Subscription) => s.userId == userId;
    assert forall i :: 0 <= i < |subs| ==> r[i].userId == subs[i].userId;
    Seqs.FirstMatchAtFirstIndex(p, r);
    assert Seqs.FirstIndex(p, r) == k;
  }

  /** `POST` (route.ts:8-71); `cancelAtPeriodEnd` is the subscription the
      provider is asked to cancel at period end, if any. */
  method Post(db: Database, session: Option<Session>, currentPeriodEndSec: int, now: Millis)
    returns (resp: Response, cancelAtPeriodEnd: Option<string>)
    requires db.Valid()
    modifies db`subscriptions
    ensures db.Valid()
    ensures CancelSessionUserId(session).None? ==>
      resp == Response(401, ErrorBody("Unauthorized")) && cancelAtPeriodEnd.None?
      && db.subscriptions == old(db.subscriptions)
    ensures CancelSessionUserId(session).Some? &&
            (var k := CancelRow(old(db.subscriptions), CancelSessionUserId(session).value);
             k == |old(db.subscriptions)| || !Truthy(old(db.subscriptions)[k].stripeSubscriptionId)) ==>
      resp == Response(404, ErrorBody("No active subscription found")) && cancelAtPeriodEnd.None?
      && db.subscriptions == old(db.subscriptions)
    ensures CancelSessionUserId(session).Some? &&
            (var k := CancelRow(old(db.subscriptions), CancelSessionUserId(session).value);
             k < |old(db.subscriptions)| && Truthy(old(db.subscriptions)[k].stripeSubscriptionId)) ==>
      var k := CancelRow(old(db.subscriptions), CancelSessionUserId(session).value);
      resp == Response(200, MessageBody("Subscription canceled successfully. You'll maintain access until the end of your billing period."))
      && cancelAtPeriodEnd == old(db.subscriptions)[k].stripeSubscriptionId
      && db.subscriptions == MarkCanceledAtPeriodEnd(old(db.subscriptions), k, now,
                                                     StripeWebhook.SecondsToMillis(currentPeriodEndSec))
      && HasActiveSubscription(db.subscriptions, old(db.subscriptions)[k].userId)
    // an `undefined` id cancels the table's first row, whoever owns it
    ensures CancelSessionUserId(session) == Some(AnyUser) && old(db.subscriptions) != []
            && Truthy(old(db.subscriptions)[0].stripeSubscriptionId) ==>
      cancelAtPeriodEnd == old(db.subscriptions)[0].stripeSubscriptionId
      && db.subscriptions == MarkCanceledAtPeriodEnd(old(db.subscriptions), 0, now,
                                                     StripeWebhook.SecondsToMillis(currentPeriodEndSec))
  {
    var filter := CancelSessionUserId(session);
    if filter.None? {
      return Response(401, ErrorBody("Unauthorized")), None;
    }
    var k := CancelRow(db.subscriptions, filter.value);
    if k == |db.subscriptions| || !Truthy(db.subscriptions[k].stripeSubscriptionId) {
      return Response(404, ErrorBody("No active subscription found")), None;
    }
    var subscription := db.subscriptions[k];
    cancelAtPeriodEnd := subscription.stripeSubscriptionId;
    CancelKeepsProUntilPeriodEnd(db.subscriptions, subscription.userId, now, StripeWebhook.SecondsToMillis(currentPeriodEndSec));
    db.subscriptions := MarkCanceledAtPeriodEnd(db.subscriptions, k, now, StripeWebhook.SecondsToMillis(currentPeriodEndSec));
    resp := Response(200, MessageBody("Subscription canceled successfully. You'll maintain access until the end of your billing period."));
  }
}
