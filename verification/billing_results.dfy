// The whole result of a payment webhook, what a plan costs, and what is counted as paid and activated.
module BillingResults {
  import opened Wrappers
  import opened Billing

  /** In cents: a year costs twelve times the month less a fifth. */
  lemma AmountIs(owner: OwnerType, plan: Plan, cycle: Cycle)
    ensures Amount(owner, plan, Monthly) ==
            match (plan, owner)
            case (Free, _) => 0
            case (Starter, Organization) => 2900
            case (Starter, Vendor) => 1900
            case (_, Organization) => 5900
            case (_, Vendor) => 3900
    ensures 5 * Amount(owner, plan, Annual) == 4 * 12 * Amount(owner, plan, Monthly)
  {
    DiscountIsWhole(MonthlyPrice(owner, plan));
  }

  /** The order of the plans; a higher one never costs less. */
  lemma RankIs(plan: Plan, other: Plan)
    ensures Rank(plan) < Rank(other) <==>
            match plan
            case Free => other != Free
            case Starter => other == Professional || other == Enterprise
            case Professional => other == Enterprise
            case Enterprise => false
    ensures Rank(plan) <= Rank(other) ==> forall owner :: Amount(owner, plan, Monthly) <= Amount(owner, other, Monthly)
  {
  }

  /** A webhook for a pending payment settles it and its subscription: a success activates a trial or a
      past-due subscription and appends one row with its present plan and cycle, and is refused for any other; a
      failure makes it past due, whatever it was. */
  lemma WebhookResult(s: State, p: nat, succeeded: bool)
    requires Inv(s) && p < |s.payments|
    ensures var r, payment := Webhook(s, p, succeeded), s.payments[p];
            && payment.subscription < |s.subscriptions|
            && var i := payment.subscription; var sub := s.subscriptions[i];
               if payment.status != Pending then r == Ok(s)
               else if !succeeded then
                 r == Ok(State(s.subscriptions[i := sub.(status := PastDue)],
                               s.payments[p := Payment(i, Failed, payment.key, payment.amount, payment.checkout)],
                               s.outbox))
               else
                 match sub.status
                 case Active => r == Err(Conflict)
                 case Cancelled | Expired => r == Err(BusinessRule)
                 case Trial | PastDue =>
                   r == Ok(State(s.subscriptions[i := sub.(status := Active)],
                                 s.payments[p := Payment(i, Succeeded, payment.key, payment.amount, payment.checkout)],
                                 s.outbox + [Row(i, sub.plan, sub.cycle)]))
  {
  }

  /** The gateway's reference finds its payment, and a delivery with an unknown one changes nothing. */
  lemma DeliverResult(s: State, checkout: nat, succeeded: bool, p: nat)
    ensures (forall q :: 0 <= q < |s.payments| ==> s.payments[q].checkout != Some(checkout)) ==>
              Deliver(s, checkout, succeeded) == Ok(s)
    ensures p < |s.payments| && s.payments[p].checkout == Some(checkout) &&
            (forall q :: 0 <= q < |s.payments| && q != p ==> s.payments[q].checkout != Some(checkout)) ==>
              Deliver(s, checkout, succeeded) == Webhook(s, p, succeeded)
  {
  }

  function PaidOf(payments: seq<Payment>, i: nat): set<nat>
  {
    set p: nat | p < |payments| && payments[p].subscription == i && payments[p].status == Succeeded
  }

  lemma {:induction false} PaidCounts(payments: seq<Payment>, i: nat)
    ensures Paid(payments, i) == |PaidOf(payments, i)|
  {
    if payments != [] {
      var last := |payments| - 1;
      PaidCounts(payments[..last], i);
      var before := PaidOf(payments[..last], i);
      if payments[last].subscription == i && payments[last].status == Succeeded {
        assert PaidOf(payments, i) == before + {last};
      } else {
        assert PaidOf(payments, i) == before;
      }
    }
  }

  function RowsOf(outbox: seq<Row>, i: nat): set<nat>
  {
    set k: nat | k < |outbox| && outbox[k].subscription == i
  }

  lemma {:induction false} ActivationsCount(outbox: seq<Row>, i: nat)
    ensures Activations(outbox, i) == |RowsOf(outbox, i)|
  {
    if outbox != [] {
      var last := |outbox| - 1;
      ActivationsCount(outbox[..last], i);
      var before := RowsOf(outbox[..last], i);
      if outbox[last].subscription == i {
        assert RowsOf(outbox, i) == before + {last};
      } else {
        assert RowsOf(outbox, i) == before;
      }
    }
  }
}
