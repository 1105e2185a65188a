// Subscriptions, payments and the outbox: the transition policy, the effect of a payment webhook as
// one transaction, and the other operations of the billing service.
module Billing {
  import opened Wrappers

  datatype Error = NotFound | Conflict | BusinessRule | GatewayFailed

  datatype Status = Trial | Active | PastDue | Cancelled | Expired

  datatype Plan = Free | Starter | Professional | Enterprise

  datatype Cycle = Monthly | Annual

  datatype OwnerType = Organization | Vendor

  datatype Subscription = Subscription(owner: nat, ownerType: OwnerType, plan: Plan, cycle: Cycle, status: Status,
                                       trialEndsAt: Option<int>)

  datatype PaymentStatus = Pending | Succeeded | Failed

  /** `checkout` is the gateway's reference, known once the checkout has been opened there. */
  datatype Payment = Payment(subscription: nat, status: PaymentStatus, key: nat, amount: nat, checkout: Option<nat>)

  /** An activation event that waits for delivery. */
  datatype Row = Row(subscription: nat, plan: Plan, cycle: Cycle)

  /** Documents are identified by their position. */
  datatype State = State(subscriptions: seq<Subscription>, payments: seq<Payment>, outbox: seq<Row>)

  const EMPTY := State([], [], [])

  // ------------------------------------------------------------------ policy

  function Rank(plan: Plan): nat
  {
    match plan case Free => 0 case Starter => 1 case Professional => 2 case Enterprise => 3
  }

  /** The reason why a transition is refused, if it is. */
  function CanActivate(status: Status): Option<Error>
  {
    if status == Active then Some(Conflict)
    else if status == Cancelled || status == Expired then Some(BusinessRule)
    else None
  }

  function CanCancel(status: Status): Option<Error>
  {
    if status == Cancelled then Some(Conflict) else if status == Expired then Some(BusinessRule) else None
  }

  function CanChangePlan(status: Status): Option<Error>
  {
    if status == Cancelled || status == Expired then Some(BusinessRule) else None
  }

  function CanUpgrade(from: Plan, next: Plan): Option<Error>
  {
    if from == next then Some(Conflict) else if Rank(next) <= Rank(from) then Some(BusinessRule) else None
  }

  function CanDowngrade(from: Plan, next: Plan): Option<Error>
  {
    if from == next then Some(Conflict)
    else if Rank(next) >= Rank(from) then Some(BusinessRule)
    else if next == Free && from == Free then Some(BusinessRule)
    else None
  }

  function CanExpireTrial(s: Subscription, now: int): Option<Error>
  {
    if s.status != Trial || s.trialEndsAt.None? || now < s.trialEndsAt.value then Some(BusinessRule) else None
  }

  // ------------------------------------------------------------------ amounts

  const ANNUAL_DISCOUNT_PERCENT := 20

  function MonthlyPrice(owner: OwnerType, plan: Plan): nat
  {
    match plan
    case Free => 0
    case Starter => if owner == Organization then 29 else 19
    case Professional => if owner == Organization then 59 else 39
    case Enterprise => if owner == Organization then 59 else 39
  }

  /** In cents, the discounted month rounded to the nearest cent before it is taken twelve times. */
  function Amount(owner: OwnerType, plan: Plan, cycle: Cycle): nat
  {
    var month := 100 * MonthlyPrice(owner, plan);
    if cycle == Monthly then month else 12 * ((2 * month * (100 - ANNUAL_DISCOUNT_PERCENT) + 100) / 200)
  }

  lemma DiscountIsWhole(price: nat)
    ensures (2 * (100 * price) * (100 - ANNUAL_DISCOUNT_PERCENT) + 100) / 200 == 80 * price
  {
  }

  /** Where two choices of plan and cycle cost the same: the two upper plans do, and nothing does not
      depend on the cycle. */
  predicate SamePrice(plan: Plan, cycle: Cycle, other: Plan, otherCycle: Cycle)
  {
    || (plan == Free && other == Free)
    || (cycle == otherCycle && (plan == other || (Rank(plan) >= 2 && Rank(other) >= 2)))
  }

  lemma SamePriceIff(owner: OwnerType, plan: Plan, cycle: Cycle, other: Plan, otherCycle: Cycle)
    ensures Amount(owner, plan, cycle) == Amount(owner, other, otherCycle) <==>
                SamePrice(plan, cycle, other, otherCycle)
  {
    DiscountIsWhole(MonthlyPrice(owner, plan));
    DiscountIsWhole(MonthlyPrice(owner, other));
  }

  // ------------------------------------------------------------------ the webhook transaction

  function SetStatus(s: State, i: nat, status: Status): State
    requires i < |s.subscriptions|
  {
    s.(subscriptions := s.subscriptions[i := s.subscriptions[i].(status := status)])
  }

  function SetPayment(s: State, p: nat, status: PaymentStatus): State
    requires p < |s.payments|
  {
    s.(payments := s.payments[p := s.payments[p].(status := status)])
  }

  /** Claims the payment if it is pending, then activates the subscription or marks it past due. A
      refused activation fails the whole transaction. */
  function Webhook(s: State, p: nat, succeeded: bool): (r: Result<State, Error>)
    requires p < |s.payments|
    ensures r.Ok? ==>
              && |r.value.subscriptions| == |s.subscriptions| && |r.value.payments| == |s.payments|
              && s.outbox <= r.value.outbox
  {
    var payment := s.payments[p];
    if payment.status != Pending then Ok(s)
    else if payment.subscription >= |s.subscriptions| then Err(NotFound)
    else
      var claimed := SetPayment(s, p, if succeeded then Succeeded else Failed);
      var sub := s.subscriptions[payment.subscription];
      if !succeeded then Ok(SetStatus(claimed, payment.subscription, PastDue))
      else if CanActivate(sub.status).Some? then Err(CanActivate(sub.status).value)
      else Ok(SetStatus(claimed, payment.subscription, Active)
              .(outbox := s.outbox + [Row(payment.subscription, sub.plan, sub.cycle)]))
  }

  /** The payment a gateway's reference belongs to. */
  function ByCheckout(payments: seq<Payment>, checkout: nat): (r: Option<nat>)
    ensures r.Some? ==> r.value < |payments| && payments[r.value].checkout == Some(checkout)
    ensures r.None? ==> forall p :: 0 <= p < |payments| ==> payments[p].checkout != Some(checkout)
  {
    if payments == [] then None
    else
      var last := |payments| - 1;
      var before := ByCheckout(payments[..last], checkout);
      if before.Some? then before
      else if payments[last].checkout == Some(checkout) then Some(last) else None
  }

  /** A delivery: unknown references are acknowledged and ignored. */
  function Deliver(s: State, checkout: nat, succeeded: bool): Result<State, Error>
  {
    var p := ByCheckout(s.payments, checkout);
    if p.None? then Ok(s) else Webhook(s, p.value, succeeded)
  }

  // ------------------------------------------------------------------ counting

  /** Payments of a subscription that succeeded. */
  function Paid(payments: seq<Payment>, i: nat): nat
  {
    if payments == [] then 0
    else
      var last := payments[|payments| - 1];
      Paid(payments[..|payments| - 1], i) + (if last.subscription == i && last.status == Succeeded then 1 else 0)
  }

  /** Activation rows of a subscription. */
  function Activations(outbox: seq<Row>, i: nat): nat
  {
    if outbox == [] then 0
    else Activations(outbox[..|outbox| - 1], i) + (if outbox[|outbox| - 1].subscription == i then 1 else 0)
  }

  ghost predicate Balanced(s: State)
  {
    forall i: nat :: Paid(s.payments, i) == Activations(s.outbox, i)
  }

  predicate Wellformed(s: State)
  {
    && (forall p :: 0 <= p < |s.payments| ==> s.payments[p].subscription < |s.subscriptions|)
    && (forall p :: 0 <= p < |s.payments| ==> s.payments[p].checkout.None? ==> s.payments[p].status != Succeeded)
  }

  ghost predicate Inv(s: State)
  {
    Wellformed(s) && Balanced(s)
  }

  lemma {:induction false} PaidAfterUpdate(payments: seq<Payment>, p: nat, payment: Payment, i: nat)
    requires p < |payments| && payment.subscription == payments[p].subscription && payments[p].status != Succeeded
    ensures Paid(payments[p := payment], i) ==
            Paid(payments, i) + if payment.subscription == i && payment.status == Succeeded then 1 else 0
  {
    var more := payments[p := payment];
    if p == |payments| - 1 {
      assert more[..p] == payments[..p];
    } else {
      assert more[..|more| - 1] == payments[..|payments| - 1][p := payment];
      PaidAfterUpdate(payments[..|payments| - 1], p, payment, i);
    }
  }

  lemma ActivationsAfterAppend(outbox: seq<Row>, row: Row, i: nat)
    ensures Activations(outbox + [row], i) == Activations(outbox, i) + if row.subscription == i then 1 else 0
  {
    assert (outbox + [row])[..|outbox|] == outbox;
  }

  /** A payment and its activation row come together or not at all. */
  lemma WebhookKeeps(s: State, p: nat, succeeded: bool)
    requires Inv(s) && p < |s.payments| && s.payments[p].checkout.Some? && Webhook(s, p, succeeded).Ok?
    ensures Inv(Webhook(s, p, succeeded).value)
  {
    var t := Webhook(s, p, succeeded).value;
    if s.payments[p].status == Pending {
      forall i: nat
        ensures Paid(t.payments, i) == Activations(t.outbox, i)
      {
        PaidAfterUpdate(s.payments, p, t.payments[p], i);
        if succeeded { ActivationsAfterAppend(s.outbox, t.outbox[|s.outbox|], i); }
      }
    }
  }

  /** A delivery that settles the payment. */
  predicate Settles(s: State, p: nat, succeeded: bool)
    requires p < |s.payments| && s.payments[p].subscription < |s.subscriptions|
  {
    && s.payments[p].status == Pending
    && (succeeded ==> CanActivate(s.subscriptions[s.payments[p].subscription].status).None?)
  }

  /** Deliveries for one payment, one after the other; a refused one changes nothing. */
  function Deliveries(s: State, p: nat, outcomes: seq<bool>): (t: State)
    requires p < |s.payments|
    ensures |t.payments| == |s.payments|
  {
    if outcomes == [] then s
    else
      var before := Deliveries(s, p, outcomes[..|outcomes| - 1]);
      match Webhook(before, p, outcomes[|outcomes| - 1]) case Ok(after) => after case Err(_) => before
  }

  function FirstSettling(s: State, p: nat, outcomes: seq<bool>): Option<bool>
    requires p < |s.payments| && s.payments[p].subscription < |s.subscriptions|
  {
    if outcomes == [] then None
    else
      var before, last := FirstSettling(s, p, outcomes[..|outcomes| - 1]), outcomes[|outcomes| - 1];
      if before.None? && Settles(s, p, last) then Some(last) else before
  }

  /** Any number of deliveries of any outcomes amounts to the first one that can settle the payment. */
  lemma {:induction false} DeliveriesAmountToFirst(s: State, p: nat, outcomes: seq<bool>)
    requires Inv(s) && p < |s.payments|
    ensures match FirstSettling(s, p, outcomes)
            case None => Deliveries(s, p, outcomes) == s
            case Some(o) => Webhook(s, p, o) == Ok(Deliveries(s, p, outcomes)) && Settles(s, p, o)
  {
    if outcomes != [] {
      DeliveriesAmountToFirst(s, p, outcomes[..|outcomes| - 1]);
    }
  }

  predicate Terminal(status: Status) { status == Cancelled || status == Expired }

  // ------------------------------------------------------------------ the other operations

  predicate OwnerHas(subscriptions: seq<Subscription>, owner: nat, ownerType: OwnerType)
  {
    exists i :: 0 <= i < |subscriptions| && subscriptions[i].owner == owner && subscriptions[i].ownerType == ownerType
  }

  predicate KeyUsed(payments: seq<Payment>, key: nat)
  {
    exists p :: 0 <= p < |payments| && payments[p].key == key
  }

  function PendingOf(payments: seq<Payment>, i: nat): (r: Option<nat>)
    ensures r.Some? ==> r.value < |payments|
    ensures r.Some? ==> payments[r.value].subscription == i && payments[r.value].status == Pending
    ensures r.None? ==> forall p :: 0 <= p < |payments| && payments[p].subscription == i ==>
                payments[p].status != Pending
  {
    if payments == [] then None
    else
      var last := |payments| - 1;
      var before := PendingOf(payments[..last], i);
      if before.Some? then before
      else if payments[last].subscription == i && payments[last].status == Pending then Some(last) else None
  }

  function NewPayment(s: State, i: nat, key: nat): State
    requires i < |s.subscriptions|
  {
    var sub := s.subscriptions[i];
    s.(payments := s.payments + [Payment(i, Pending, key, Amount(sub.ownerType, sub.plan, sub.cycle), None)])
  }

  /** The gateway either opens the checkout under a reference or fails. */
  function Answered(s: State, p: nat, checkout: Option<nat>): State
    requires p < |s.payments|
  {
    if checkout.Some? then s.(payments := s.payments[p := s.payments[p].(checkout := checkout)])
    else SetPayment(s, p, Failed)
  }

  lemma {:induction false} PaidUnchanged(a: seq<Payment>, b: seq<Payment>, i: nat)
    requires |a| <= |b|
    requires forall p :: 0 <= p < |a| ==>
               a[p].subscription == b[p].subscription && (a[p].status == Succeeded <==> b[p].status == Succeeded)
    requires forall p :: |a| <= p < |b| ==> b[p].status != Succeeded
    ensures Paid(a, i) == Paid(b, i)
  {
    if |a| < |b| {
      PaidUnchanged(a, b[..|b| - 1], i);
    } else if a != [] {
      PaidUnchanged(a[..|a| - 1], b[..|b| - 1], i);
    }
  }

  /** Nothing outside the webhook settles a payment as succeeded or appends an activation row. */
  lemma OthersKeep(s: State, t: State)
    requires Inv(s) && t.outbox == s.outbox && |s.subscriptions| <= |t.subscriptions| && |s.payments| <= |t.payments|
    requires forall p :: 0 <= p < |s.payments| ==>
               && t.payments[p].subscription == s.payments[p].subscription
               && (t.payments[p].status == Succeeded <==> s.payments[p].status == Succeeded)
               && (s.payments[p].checkout.Some? ==> t.payments[p].checkout.Some?)
    requires forall p :: |s.payments| <= p < |t.payments| ==>
               t.payments[p].status != Succeeded && t.payments[p].subscription < |t.subscriptions|
    ensures Inv(t)
  {
    forall i: nat
      ensures Paid(t.payments, i) == Activations(t.outbox, i)
    {
      PaidUnchanged(s.payments, t.payments, i);
    }
  }
}
