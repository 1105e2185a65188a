// The billing service over its stored documents, changed in place, one call at a time.
module BillingService {
  import opened Wrappers
  import opened Billing

  class Service {
    var subscriptions: seq<Subscription>
    var payments: seq<Payment>
    var outbox: seq<Row>

    ghost function Contents(): State
      reads this
    {
      State(subscriptions, payments, outbox)
    }

    /** Beside the balance of payments and activations: a subscription has at most one pending payment,
        an owner at most one subscription, and no idempotency key is used twice. */
    ghost predicate Valid()
      reads this
    {
      && Inv(Contents())
      && (forall p, q :: 0 <= p < q < |payments| && payments[p].status == Pending && payments[q].status == Pending ==>
            payments[p].subscription != payments[q].subscription)
      && (forall p, q :: 0 <= p < q < |payments| ==> payments[p].key != payments[q].key)
      && (forall i, j :: 0 <= i < j < |subscriptions| && subscriptions[i].owner == subscriptions[j].owner ==>
            subscriptions[i].ownerType != subscriptions[j].ownerType)
    }

    constructor ()
      ensures Valid() && Contents() == EMPTY
    {
      subscriptions, payments, outbox := [], [], [];
    }

    // ---------------------------------------------------------------- look-ups

    method SearchCheckout(checkout: nat) returns (found: Option<nat>)
      ensures found == ByCheckout(payments, checkout)
    {
      found := None;
      var p := 0;
      while p < |payments|
        invariant 0 <= p <= |payments| && found == ByCheckout(payments[..p], checkout)
      {
        assert payments[..p + 1][..p] == payments[..p];
        if found.None? && payments[p].checkout == Some(checkout) { found := Some(p); }
        p := p + 1;
      }
      assert payments[..p] == payments;
    }

    method SearchPending(i: nat) returns (found: Option<nat>)
      ensures found == PendingOf(payments, i)
    {
      found := None;
      var p := 0;
      while p < |payments|
        invariant 0 <= p <= |payments| && found == PendingOf(payments[..p], i)
      {
        assert payments[..p + 1][..p] == payments[..p];
        if found.None? && payments[p].subscription == i && payments[p].status == Pending { found := Some(p); }
        p := p + 1;
      }
      assert payments[..p] == payments;
    }

    method SearchKey(key: nat) returns (used: bool)
      ensures used == KeyUsed(payments, key)
    {
      used := false;
      var p := 0;
      while p < |payments| && !used
        invariant 0 <= p <= |payments|
        invariant used ==> KeyUsed(payments, key)
        invariant !used ==> forall q :: 0 <= q < p ==> payments[q].key != key
      {
        used := payments[p].key == key;
        p := p + 1;
      }
    }

    method SearchOwner(owner: nat, ownerType: OwnerType) returns (found: bool)
      ensures found == OwnerHas(subscriptions, owner, ownerType)
    {
      found := false;
      var i := 0;
      while i < |subscriptions| && !found
        invariant 0 <= i <= |subscriptions|
        invariant found ==> OwnerHas(subscriptions, owner, ownerType)
        invariant !found ==> forall k :: 0 <= k < i ==>
                      !(subscriptions[k].owner == owner && subscriptions[k].ownerType == ownerType)
      {
        found := subscriptions[i].owner == owner && subscriptions[i].ownerType == ownerType;
        i := i + 1;
      }
    }

    // ---------------------------------------------------------------- subscriptions

    method CreateSubscription(owner: nat, ownerType: OwnerType, plan: Plan, cycle: Cycle, trialEndsAt: Option<int>)
      returns (r: Result<nat, Error>)
      requires Valid()
      modifies this`subscriptions
      ensures Valid()
      ensures r == if OwnerHas(old(subscriptions), owner, ownerType) then Err(Conflict) else Ok(|old(subscriptions)|)
      ensures subscriptions == if r.Err? then old(subscriptions)
                               else old(subscriptions) +
                                    [Subscription(owner, ownerType, plan, cycle, Trial, trialEndsAt)]
    {
      var existing := SearchOwner(owner, ownerType);
      if existing { return Err(Conflict); }
      r := Ok(|subscriptions|);
      subscriptions := subscriptions + [Subscription(owner, ownerType, plan, cycle, Trial, trialEndsAt)];
      OthersKeep(old(Contents()), Contents());
    }

    method UpdateSubscription(i: nat, sub: Subscription)
      requires Valid() && i < |subscriptions|
      requires sub.owner == subscriptions[i].owner && sub.ownerType == subscriptions[i].ownerType
      modifies this`subscriptions
      ensures Valid() && subscriptions == old(subscriptions)[i := sub]
    {
      subscriptions := subscriptions[i := sub];
      OthersKeep(old(Contents()), Contents());
    }

    method Activate(i: nat) returns (r: Result<(), Error>)
      requires Valid()
      modifies this`subscriptions
      ensures Valid()
      ensures r == if i >= |old(subscriptions)| then Err(NotFound)
                   else match old(subscriptions)[i].status
                        case Active => Err(Conflict)
                        case Cancelled | Expired => Err(BusinessRule)
                        case Trial | PastDue => Ok(())
      ensures r.Err? ==> subscriptions == old(subscriptions)
      ensures r.Ok? ==> subscriptions == old(subscriptions)[i := old(subscriptions)[i].(status := Active)]
    {
      if i >= |subscriptions| { return Err(NotFound); }
      var refusal := CanActivate(subscriptions[i].status);
      if refusal.Some? { return Err(refusal.value); }
      UpdateSubscription(i, subscriptions[i].(status := Active));
      r := Ok(());
    }

    method Cancel(i: nat) returns (r: Result<(), Error>)
      requires Valid()
      modifies this`subscriptions
      ensures Valid()
      ensures r == if i >= |old(subscriptions)| then Err(NotFound)
                   else match old(subscriptions)[i].status
                        case Cancelled => Err(Conflict)
                        case Expired => Err(BusinessRule)
                        case Trial | Active | PastDue => Ok(())
      ensures r.Err? ==> subscriptions == old(subscriptions)
      ensures r.Ok? ==> subscriptions == old(subscriptions)[i := old(subscriptions)[i].(status := Cancelled)]
    {
      if i >= |subscriptions| { return Err(NotFound); }
      var refusal := CanCancel(subscriptions[i].status);
      if refusal.Some? { return Err(refusal.value); }
      UpdateSubscription(i, subscriptions[i].(status := Cancelled));
      r := Ok(());
    }

    method ExpireTrial(i: nat, now: int) returns (r: Result<(), Error>)
      requires Valid()
      modifies this`subscriptions
      ensures Valid()
      ensures r.Ok? <==> i < |old(subscriptions)| && old(subscriptions)[i].status == Trial &&
                         old(subscriptions)[i].trialEndsAt.Some? && old(subscriptions)[i].trialEndsAt.value <= now
      ensures r.Err? ==> r.error == if i >= |old(subscriptions)| then NotFound else BusinessRule
      ensures r.Err? ==> subscriptions == old(subscriptions)
      ensures r.Ok? ==> subscriptions == old(subscriptions)[i := old(subscriptions)[i].(status := Expired)]
    {
      if i >= |subscriptions| { return Err(NotFound); }
      var refusal := CanExpireTrial(subscriptions[i], now);
      if refusal.Some? { return Err(refusal.value); }
      UpdateSubscription(i, subscriptions[i].(status := Expired));
      r := Ok(());
    }

    /** Upgrades and downgrades, which may change the cycle too. */
    method ChangePlan(i: nat, plan: Plan, cycle: Option<Cycle>, upgrade: bool) returns (r: Result<(), Error>)
      requires Valid()
      modifies this`subscriptions
      ensures Valid()
      ensures r.Ok? <==> i < |old(subscriptions)| && old(subscriptions)[i].status in [Trial, Active, PastDue] &&
                         (if upgrade then Rank(plan) > Rank(old(subscriptions)[i].plan)
                          else Rank(plan) < Rank(old(subscriptions)[i].plan))
      ensures r.Err? ==> r.error == if i >= |old(subscriptions)| then NotFound
                                    else if old(subscriptions)[i].status in [Cancelled, Expired] then BusinessRule
                                    else if old(subscriptions)[i].plan == plan then Conflict else BusinessRule
      ensures r.Err? ==> subscriptions == old(subscriptions)
      ensures r.Ok? ==> var was := old(subscriptions)[i];
                        subscriptions ==
                        old(subscriptions)[i := was.(plan := plan,
                                                     cycle := if cycle.Some? then cycle.value else was.cycle)]
    {
      if i >= |subscriptions| { return Err(NotFound); }
      var sub := subscriptions[i];
      var refusal := CanChangePlan(sub.status);
      if refusal.None? { refusal := if upgrade then CanUpgrade(sub.plan, plan) else CanDowngrade(sub.plan, plan); }
      if refusal.Some? { return Err(refusal.value); }
      UpdateSubscription(i, sub.(plan := plan, cycle := if cycle.Some? then cycle.value else sub.cycle));
      r := Ok(());
    }

    // ---------------------------------------------------------------- payments

    /** A pending payment is used again; otherwise a new one is stored before the gateway is asked, and
        marked failed if the gateway fails, so that a later call can start afresh. */
    method InitiateCheckout(i: nat, key: nat, checkout: Option<nat>) returns (r: Result<nat, Error>)
      requires Valid()
      modifies this`payments
      ensures Valid()
      ensures i >= |subscriptions| ==> r == Err(NotFound) && payments == old(payments)
      ensures i < |subscriptions| ==>
                var pending := PendingOf(old(payments), i); var p := |old(payments)|;
                if pending.Some? then r == Ok(pending.value) && payments == old(payments)
                else if KeyUsed(old(payments), key) then r == Err(Conflict) && payments == old(payments)
                else
                  var sub := subscriptions[i];
                  && payments == old(payments) +
                                 [Payment(i, if checkout.Some? then Pending else Failed, key,
                                          Amount(sub.ownerType, sub.plan, sub.cycle), checkout)]
                  && r == if checkout.Some? then Ok(p) else Err(GatewayFailed)
      ensures r.Ok? ==> r.value < |payments|
      ensures r.Ok? ==> payments[r.value].subscription == i && payments[r.value].status == Pending
    {
      if i >= |subscriptions| { return Err(NotFound); }
      var pending := SearchPending(i);
      if pending.Some? { return Ok(pending.value); }
      var used := SearchKey(key);
      if used { return Err(Conflict); }
      var sub := subscriptions[i];
      var p := |payments|;
      payments := payments + [Payment(i, Pending, key, Amount(sub.ownerType, sub.plan, sub.cycle), None)];
      if checkout.None? {
        payments := payments[p := payments[p].(status := Failed)];
        r := Err(GatewayFailed);
      } else {
        payments := payments[p := payments[p].(checkout := checkout)];
        r := Ok(p);
      }
      OthersKeep(old(Contents()), Contents());
    }

    /** One delivery, as one transaction: either all of its writes stay or none. */
    method HandleWebhook(checkout: nat, succeeded: bool) returns (r: Result<(), Error>)
      requires Valid()
      modifies this
      ensures Valid()
      ensures match Deliver(old(Contents()), checkout, succeeded)
              case Ok(after) => r == Ok(()) && Contents() == after
              case Err(e) => r == Err(e) && Contents() == old(Contents())
    {
      var found := SearchCheckout(checkout);
      if found.None? { return Ok(()); }
      var p := found.value;
      ghost var before := Contents();
      if Webhook(before, p, succeeded).Ok? { WebhookKeeps(before, p, succeeded); }
      if payments[p].status != Pending { return Ok(()); }
      var claimedFrom := payments;
      payments := payments[p := payments[p].(status := if succeeded then Succeeded else Failed)];
      var i := payments[p].subscription;
      var sub := subscriptions[i];
      if succeeded {
        var refusal := CanActivate(sub.status);
        if refusal.Some? {
          payments := claimedFrom;
          return Err(refusal.value);
        }
        subscriptions := subscriptions[i := sub.(status := Active)];
        outbox := outbox + [Row(i, sub.plan, sub.cycle)];
      } else {
        subscriptions := subscriptions[i := sub.(status := PastDue)];
      }
      r := Ok(());
    }
  }
}
