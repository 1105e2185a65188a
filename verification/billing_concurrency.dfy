// Interleaved and repeated webhook deliveries, each a transaction on its own snapshot, with the other
// operations of the billing service writing in between. A transaction commits only if the payment and
// the subscription it writes have not been written since its snapshot.
module BillingConcurrency {
  import opened Wrappers
  import opened Billing

  /** `payment` was found by the gateway's reference before the transaction began. */
  datatype Tx = Tx(payment: nat, succeeded: bool, snapshot: State, payVersions: seq<nat>, subVersions: seq<nat>)

  /** The versions count how often each document was written. */
  datatype System = System(db: State, payVersions: seq<nat>, subVersions: seq<nat>, active: map<nat, Tx>, begun: nat)

  const START := System(EMPTY, [], [], map[], 0)

  /** `WriteSubscription` is any write of the other operations, whose checks may be stale by then. */
  datatype Event =
    | Delivery(checkout: nat, succeeded: bool)
    | Finish(id: nat)
    | Crash(id: nat)
    | AddSubscription(sub: Subscription)
    | WriteSubscription(i: nat, sub: Subscription)
    | OpenPayment(i: nat, key: nat)
    | GatewayAnswers(p: nat, answer: Option<nat>)

  function Drop(s: System, id: nat): System { s.(active := s.active - {id}) }

  function Bump(versions: seq<nat>, i: nat): seq<nat>
    requires i < |versions|
  {
    versions[i := versions[i] + 1]
  }

  /** Payments belong to subscriptions that exist. */
  predicate Linked(db: State)
  {
    forall p :: 0 <= p < |db.payments| ==> db.payments[p].subscription < |db.subscriptions|
  }

  predicate Fits(tx: Tx, db: State)
  {
    && Linked(tx.snapshot) && tx.payment < |tx.snapshot.payments|
    && |tx.payVersions| == |tx.snapshot.payments| <= |db.payments|
    && |tx.subVersions| == |tx.snapshot.subscriptions| <= |db.subscriptions|
  }

  predicate Sized(s: System)
  {
    && |s.payVersions| == |s.db.payments| && |s.subVersions| == |s.db.subscriptions|
    && Linked(s.db)
    && forall id :: id in s.active ==> Fits(s.active[id], s.db)
  }

  /** What the transaction wrote on its snapshot is written to the current documents. */
  function FinishStep(s: System, id: nat): (r: System)
    requires Sized(s) && id in s.active
    ensures Sized(r)
  {
    var tx := s.active[id];
    var p := tx.payment;
    var i := tx.snapshot.payments[p].subscription;
    if tx.snapshot.payments[p].status != Pending then Drop(s, id)
    else
      match Webhook(tx.snapshot, p, tx.succeeded)
      case Err(_) => Drop(s, id)
      case Ok(t) =>
        if s.payVersions[p] != tx.payVersions[p] || s.subVersions[i] != tx.subVersions[i] then Drop(s, id)
        else
          System(State(s.db.subscriptions[i := t.subscriptions[i]], s.db.payments[p := t.payments[p]],
                       s.db.outbox + t.outbox[|tx.snapshot.outbox|..]),
                 Bump(s.payVersions, p), Bump(s.subVersions, i), s.active - {id}, s.begun)
  }

  function Next(s: System, e: Event): (r: System)
    requires Sized(s)
    ensures Sized(r)
  {
    match e
    case Delivery(checkout, succeeded) =>
      var p := ByCheckout(s.db.payments, checkout);
      if p.None? then s
      else
        s.(active := s.active[s.begun := Tx(p.value, succeeded, s.db, s.payVersions, s.subVersions)],
           begun := s.begun + 1)
    case Finish(id) => if id in s.active then FinishStep(s, id) else s
    case Crash(id) => Drop(s, id)
    case AddSubscription(sub) =>
      s.(db := s.db.(subscriptions := s.db.subscriptions + [sub]), subVersions := s.subVersions + [0])
    case WriteSubscription(i, sub) =>
      if i >= |s.db.subscriptions| || sub.owner != s.db.subscriptions[i].owner ||
         sub.ownerType != s.db.subscriptions[i].ownerType then s
      else s.(db := s.db.(subscriptions := s.db.subscriptions[i := sub]), subVersions := Bump(s.subVersions, i))
    case OpenPayment(i, key) =>
      if i >= |s.db.subscriptions| then s else s.(db := NewPayment(s.db, i, key), payVersions := s.payVersions + [0])
    case GatewayAnswers(p, answer) =>
      if p >= |s.db.payments| || s.db.payments[p].checkout.Some? || s.db.payments[p].status != Pending then s
      else s.(db := Answered(s.db, p, answer), payVersions := Bump(s.payVersions, p))
  }

  function Run(events: seq<Event>): (r: System)
    ensures Sized(r)
  {
    if events == [] then START else Next(Run(events[..|events| - 1]), events[|events| - 1])
  }

  // ------------------------------------------------------------------ snapshots

  /** Documents not written since the snapshot are those of the snapshot. */
  ghost predicate StillCurrent(tx: Tx, s: System)
  {
    && |tx.payVersions| == |tx.snapshot.payments| <= |s.db.payments| == |s.payVersions|
    && |tx.subVersions| == |tx.snapshot.subscriptions| <= |s.db.subscriptions| == |s.subVersions|
    && (forall p :: 0 <= p < |tx.snapshot.payments| ==>
          && tx.payVersions[p] <= s.payVersions[p]
          && (tx.payVersions[p] == s.payVersions[p] ==> tx.snapshot.payments[p] == s.db.payments[p]))
    && (forall i :: 0 <= i < |tx.snapshot.subscriptions| ==>
          && tx.subVersions[i] <= s.subVersions[i]
          && (tx.subVersions[i] == s.subVersions[i] ==> tx.snapshot.subscriptions[i] == s.db.subscriptions[i]))
  }

  ghost predicate TxInv(tx: Tx, s: System)
  {
    && Wellformed(tx.snapshot)
    && tx.payment < |tx.snapshot.payments| && tx.snapshot.payments[tx.payment].checkout.Some?
    && StillCurrent(tx, s)
  }

  ghost predicate SysInv(s: System)
  {
    && Sized(s) && Inv(s.db)
    && (forall id :: id in s.active ==> id < s.begun && TxInv(s.active[id], s))
  }

  /** A commit does to the current documents exactly what the whole webhook, run at once at that moment,
      would do; otherwise nothing changes. */
  lemma CommitIsAtomic(s: System, id: nat)
    requires SysInv(s) && id in s.active
    ensures var tx := s.active[id]; var after := Next(s, Finish(id)).db;
            && tx.payment < |s.db.payments|
            && (after == s.db ||
                (Webhook(s.db, tx.payment, tx.succeeded) == Ok(after)
                 && s.db.payments[tx.payment].status == Pending && after.payments[tx.payment].status != Pending))
  {
    var tx := s.active[id];
    assert TxInv(tx, s);
    var p, after := tx.payment, Next(s, Finish(id)).db;
    if after != s.db {
      var i := tx.snapshot.payments[p].subscription;
      var here, there := Webhook(s.db, p, tx.succeeded), Webhook(tx.snapshot, p, tx.succeeded);
      assert tx.payVersions[p] == s.payVersions[p] && tx.subVersions[i] == s.subVersions[i];
      assert s.db.payments[p] == tx.snapshot.payments[p] && s.db.subscriptions[i] == tx.snapshot.subscriptions[i];
      assert there.Ok? && here.Ok?;
      assert there.value.outbox[|tx.snapshot.outbox|..] == here.value.outbox[|s.db.outbox|..];
      assert after.payments == here.value.payments && after.subscriptions == here.value.subscriptions;
      assert after.outbox == here.value.outbox;
    }
  }

  // ------------------------------------------------------------------ every interleaving

  /** Versions only grow, and a document whose version stayed is unchanged. */
  ghost predicate Versioned(s: System, t: System)
  {
    && Sized(s) && Sized(t)
    && |s.payVersions| <= |t.payVersions| && |s.subVersions| <= |t.subVersions|
    && (forall p :: 0 <= p < |s.payVersions| ==>
          && s.payVersions[p] <= t.payVersions[p]
          && (s.payVersions[p] == t.payVersions[p] ==> s.db.payments[p] == t.db.payments[p]))
    && (forall i :: 0 <= i < |s.subVersions| ==>
          && s.subVersions[i] <= t.subVersions[i]
          && (s.subVersions[i] == t.subVersions[i] ==> s.db.subscriptions[i] == t.db.subscriptions[i]))
  }

  lemma CurrentLater(tx: Tx, s: System, t: System)
    requires TxInv(tx, s) && Versioned(s, t)
    ensures TxInv(tx, t)
  {
  }

  lemma FinishVersioned(s: System, id: nat)
    requires Sized(s) && id in s.active
    ensures Versioned(s, FinishStep(s, id))
  {
  }

  lemma NextVersioned(s: System, e: Event)
    requires Sized(s)
    ensures Versioned(s, Next(s, e))
  {
    if e.Finish? && e.id in s.active { FinishVersioned(s, e.id); }
  }

  lemma DirectKeeps(s: System, e: Event)
    requires SysInv(s) && !e.Finish?
    ensures Inv(Next(s, e).db)
  {
    OthersKeep(s.db, Next(s, e).db);
  }

  lemma FinishKeeps(s: System, id: nat)
    requires SysInv(s)
    ensures Inv(Next(s, Finish(id)).db)
  {
    if id in s.active {
      CommitIsAtomic(s, id);
      var tx := s.active[id];
      assert TxInv(tx, s);
      if Next(s, Finish(id)).db != s.db {
        assert s.payVersions[tx.payment] == tx.payVersions[tx.payment];
        WebhookKeeps(s.db, tx.payment, tx.succeeded);
      }
    }
  }

  lemma ActiveOnward(s: System, e: Event)
    requires Sized(s)
    ensures forall id :: id in Next(s, e).active && id !in s.active ==>
              && e.Delivery? && id == s.begun && ByCheckout(s.db.payments, e.checkout).Some?
              && Next(s, e).active[id] == Tx(ByCheckout(s.db.payments, e.checkout).value, e.succeeded, s.db,
                                             s.payVersions, s.subVersions)
    ensures forall id :: id in Next(s, e).active && id in s.active && id < s.begun ==>
                Next(s, e).active[id] == s.active[id]
    ensures Next(s, e).begun >= s.begun && (e.Delivery? && ByCheckout(s.db.payments, e.checkout).Some? ==>
                Next(s, e).begun > s.begun)
  {
  }

  lemma NextKeeps(s: System, e: Event)
    requires SysInv(s)
    ensures SysInv(Next(s, e))
  {
    var t := Next(s, e);
    if e.Finish? { FinishKeeps(s, e.id); } else { DirectKeeps(s, e); }
    ActiveKeep(s, e, t);
  }

  lemma ActiveKeep(s: System, e: Event, t: System)
    requires SysInv(s) && t == Next(s, e)
    ensures forall id :: id in t.active ==> id < t.begun && TxInv(t.active[id], t)
  {
    NextVersioned(s, e);
    ActiveOnward(s, e);
    forall id | id in t.active
      ensures id < t.begun && TxInv(t.active[id], t)
    {
      if id in s.active { CurrentLater(s.active[id], s, t); }
    }
  }

  lemma {:induction false} RunKeeps(events: seq<Event>)
    ensures SysInv(Run(events))
  {
    if events != [] {
      RunKeeps(events[..|events| - 1]);
      NextKeeps(Run(events[..|events| - 1]), events[|events| - 1]);
    }
  }

  /** However deliveries are repeated and interleaved, each subscription has exactly as many activation
      rows as payments that succeeded. */
  lemma ActivationsMatchPayments(events: seq<Event>, i: nat)
    ensures Activations(Run(events).db.outbox, i) == Paid(Run(events).db.payments, i)
  {
    RunKeeps(events);
    assert Balanced(Run(events).db);
  }

  /** A settled payment never changes its status again. */
  lemma StepSettles(s: System, e: Event, p: nat)
    requires SysInv(s) && p < |s.db.payments| && s.db.payments[p].status != Pending
    ensures var t := Next(s, e).db;
            p < |t.payments| && t.payments[p].status == s.db.payments[p].status
  {
    if e.Finish? && e.id in s.active { CommitIsAtomic(s, e.id); }
  }

  lemma {:induction false} PaymentsSettleOnce(events: seq<Event>, later: seq<Event>, p: nat)
    requires p < |Run(events).db.payments| && Run(events).db.payments[p].status != Pending
    ensures var t := Run(events + later).db;
            p < |t.payments| && t.payments[p].status == Run(events).db.payments[p].status
  {
    if later == [] {
      assert events + later == events;
    } else {
      var sofar := events + later[..|later| - 1];
      assert (events + later)[..|events + later| - 1] == sofar;
      PaymentsSettleOnce(events, later[..|later| - 1], p);
      RunKeeps(sofar);
      StepSettles(Run(sofar), later[|later| - 1], p);
    }
  }

  /** No delivery activates a subscription that is active, cancelled or expired when it commits; a
      delivery refused for that reason leaves its payment pending. */
  lemma NoActivationAgainstPolicy(events: seq<Event>, id: nat)
    requires id in Run(events).active && Run(events).active[id].succeeded
    ensures var s := Run(events); var p := s.active[id].payment; var after := Next(s, Finish(id)).db;
            && p < |s.db.payments| && s.db.payments[p].subscription < |s.db.subscriptions|
            && var i := s.db.payments[p].subscription;
               (CanActivate(s.db.subscriptions[i].status).Some? ==> after == s.db)
  {
    RunKeeps(events);
    CommitIsAtomic(Run(events), id);
  }

  /** Neither document that the transaction writes was written since its snapshot. */
  predicate Undisturbed(s: System, id: nat)
    requires Sized(s) && id in s.active
  {
    var tx := s.active[id];
    var p := tx.payment;
    s.payVersions[p] == tx.payVersions[p] &&
    s.subVersions[tx.snapshot.payments[p].subscription] == tx.subVersions[tx.snapshot.payments[p].subscription]
  }

  /** In every interleaving, exactly when a delivery settles its payment; otherwise it changes nothing. */
  lemma DeliverySettlesIff(s: System, id: nat)
    requires SysInv(s) && id in s.active
    ensures var tx := s.active[id]; var after := Next(s, Finish(id)).db;
            && tx.payment < |s.db.payments|
            && (after != s.db <==> Undisturbed(s, id) && Settles(s.db, tx.payment, tx.succeeded))
            && (after != s.db ==> Webhook(s.db, tx.payment, tx.succeeded) == Ok(after))
  {
    CommitIsAtomic(s, id);
    var tx := s.active[id];
    assert TxInv(tx, s);
    var p := tx.payment;
    if Undisturbed(s, id) && Settles(s.db, p, tx.succeeded) {
      var after := Next(s, Finish(id)).db;
      assert after.payments[p].status != Pending;
    }
  }

  // ------------------------------------------------------------------ leaving a final status

  /** A failed delivery for a subscription settles its payment. */
  predicate FailureSettles(s: System, e: Event, i: nat)
    requires Sized(s)
  {
    && e.Finish? && e.id in s.active && !s.active[e.id].succeeded
    && s.active[e.id].payment < |s.db.payments| && s.db.payments[s.active[e.id].payment].subscription == i
    && s.db.payments[s.active[e.id].payment].status == Pending && Undisturbed(s, e.id)
  }

  /** A cancelled or expired subscription comes back exactly by a failed delivery that settles its payment,
      or by another operation's write that says so; and a live one becomes final only by such a write. */
  lemma StepLeavesTerminalIff(s: System, e: Event, i: nat)
    requires SysInv(s) && i < |s.db.subscriptions|
    ensures var t := Next(s, e).db;
            && i < |t.subscriptions|
            && (Terminal(s.db.subscriptions[i].status) ==>
                  (!Terminal(t.subscriptions[i].status) <==>
                     FailureSettles(s, e, i) || (Overwrites(s, e, i) && !Terminal(e.sub.status))))
            && (!Terminal(s.db.subscriptions[i].status) ==>
                  (Terminal(t.subscriptions[i].status) <==> Overwrites(s, e, i) && Terminal(e.sub.status)))
  {
    if e.Finish? && e.id in s.active {
      DeliverySettlesIff(s, e.id);
      assert TxInv(s.active[e.id], s);
    }
  }

  predicate Overwrites(s: System, e: Event, i: nat)
    requires i < |s.db.subscriptions|
  {
    && e.WriteSubscription? && e.i == i
    && e.sub.owner == s.db.subscriptions[i].owner && e.sub.ownerType == s.db.subscriptions[i].ownerType
  }

  ghost predicate FailedSince(events: seq<Event>, later: seq<Event>, i: nat)
  {
    exists n :: 0 <= n < |later| && FailureSettles(Run(events + later[..n]), later[n], i)
  }

  lemma FailedOneMore(events: seq<Event>, later: seq<Event>, last: Event, i: nat)
    ensures FailedSince(events, later + [last], i) <==>
            FailedSince(events, later, i) || FailureSettles(Run(events + later), last, i)
  {
    var all := later + [last];
    assert all[..|later|] == later && all[|later|] == last;
    forall n | 0 <= n < |later|
      ensures all[..n] == later[..n] && all[n] == later[n]
    {
    }
  }

  predicate NoWritesTo(later: seq<Event>, i: nat)
  {
    forall n :: 0 <= n < |later| ==> !(later[n].WriteSubscription? && later[n].i == i)
  }

  ghost predicate BackAsSaid(events: seq<Event>, later: seq<Event>, i: nat)
  {
    && i < |Run(events + later).db.subscriptions|
    && (Terminal(Run(events + later).db.subscriptions[i].status) <==> !FailedSince(events, later, i))
  }

  lemma TerminalStep(s: System, e: Event, i: nat)
    requires SysInv(s) && i < |s.db.subscriptions| && !(e.WriteSubscription? && e.i == i)
    ensures var t := Next(s, e).db;
            && i < |t.subscriptions|
            && (Terminal(t.subscriptions[i].status) <==>
                Terminal(s.db.subscriptions[i].status) && !FailureSettles(s, e, i))
  {
    StepLeavesTerminalIff(s, e, i);
    if FailureSettles(s, e, i) { FailureEndsLive(s, e, i); }
  }

  lemma BackOneMore(events: seq<Event>, later: seq<Event>, last: Event, i: nat)
    requires BackAsSaid(events, later, i) && !(last.WriteSubscription? && last.i == i)
    ensures BackAsSaid(events, later + [last], i)
  {
    var sofar := events + later;
    assert events + (later + [last]) == sofar + [last];
    RunKeeps(sofar);
    TerminalStep(Run(sofar), last, i);
    RunOneMore(sofar, last);
    FailedOneMore(events, later, last, i);
  }

  lemma RunOneMore(events: seq<Event>, last: Event)
    ensures Run(events + [last]) == Next(Run(events), last)
  {
    assert (events + [last])[..|events|] == events;
  }

  lemma FailureEndsLive(s: System, e: Event, i: nat)
    requires SysInv(s) && i < |s.db.subscriptions| && FailureSettles(s, e, i)
    ensures Next(s, e).db.subscriptions[i].status == PastDue
  {
    DeliverySettlesIff(s, e.id);
  }

  /** Over every interleaving in which no other operation writes it: a cancelled or expired subscription
      has come back if and only if a failed delivery for it settled its payment meanwhile. */
  lemma {:induction false} TerminalComesBackIff(events: seq<Event>, later: seq<Event>, i: nat)
    requires i < |Run(events).db.subscriptions| && Terminal(Run(events).db.subscriptions[i].status)
    requires NoWritesTo(later, i)
    ensures BackAsSaid(events, later, i)
  {
    if later == [] {
      assert events + later == events;
    } else {
      var init, last := later[..|later| - 1], later[|later| - 1];
      TerminalComesBackIff(events, init, i);
      BackOneMore(events, init, last, i);
      assert later == init + [last];
    }
  }

  // ------------------------------------------------------------------ what was paid for

  /** Payment `p` was opened by event `n`, for the price of its subscription's plan and cycle then. */
  predicate OpenedAt(events: seq<Event>, n: nat, p: nat, payment: Payment, ownerType: OwnerType)
  {
    && n < |events| && |Run(events[..n]).db.payments| == p
    && events[n].OpenPayment? && events[n].i == payment.subscription
    && payment.subscription < |Run(events[..n]).db.subscriptions|
    && var sub := Run(events[..n]).db.subscriptions[payment.subscription];
       sub.ownerType == ownerType && payment.amount == Amount(sub.ownerType, sub.plan, sub.cycle)
  }

  lemma OpenedEarlier(events: seq<Event>, last: Event, n: nat, p: nat, payment: Payment, later: Payment,
                      ownerType: OwnerType)
    requires OpenedAt(events, n, p, payment, ownerType)
    requires later.subscription == payment.subscription && later.amount == payment.amount
    ensures OpenedAt(events + [last], n, p, later, ownerType)
  {
    assert (events + [last])[..n] == events[..n];
  }

  /** No event changes what a payment is for, or the kind of a subscription's owner. */
  lemma NextKeepsTerms(s: System, e: Event, p: nat)
    requires SysInv(s) && p < |s.db.payments|
    ensures var t := Next(s, e).db; var i := s.db.payments[p].subscription;
            && p < |t.payments| && t.payments[p].subscription == i && t.payments[p].amount == s.db.payments[p].amount
            && i < |s.db.subscriptions| && i < |t.subscriptions|
            && t.subscriptions[i].ownerType == s.db.subscriptions[i].ownerType
  {
    if e.Finish? && e.id in s.active { CommitIsAtomic(s, e.id); }
  }

  lemma {:induction false} AmountIsCheckoutPrice(events: seq<Event>, p: nat) returns (n: nat)
    requires p < |Run(events).db.payments|
    ensures var db := Run(events).db;
            && db.payments[p].subscription < |db.subscriptions|
            && OpenedAt(events, n, p, db.payments[p], db.subscriptions[db.payments[p].subscription].ownerType)
  {
    var init, last := events[..|events| - 1], events[|events| - 1];
    RunKeeps(init);
    assert events == init + [last];
    if p < |Run(init).db.payments| {
      n := AmountIsCheckoutPrice(init, p);
      NextKeepsTerms(Run(init), last, p);
      var db := Run(init).db;
      OpenedEarlier(init, last, n, p, db.payments[p], Run(events).db.payments[p],
                    db.subscriptions[db.payments[p].subscription].ownerType);
    } else {
      n := |init|;
      NewPaymentOnly(Run(init), last, p);
    }
  }

  lemma NewPaymentOnly(s: System, e: Event, p: nat)
    requires SysInv(s) && |s.db.payments| <= p < |Next(s, e).db.payments|
    ensures e.OpenPayment? && e.i < |s.db.subscriptions| && p == |s.db.payments|
  {
    if e.Finish? && e.id in s.active { CommitIsAtomic(s, e.id); }
  }

  /** The activation row tells the plan and cycle at commit, while the amount is that of the checkout: it is
      the row's price exactly when the choice then, at event `n`, and the row's choice cost the same. */
  lemma RowPaidForIff(events: seq<Event>, id: nat) returns (n: nat)
    requires id in Run(events).active && Run(events).active[id].succeeded
    requires Next(Run(events), Finish(id)).db != Run(events).db
    ensures var s := Run(events); var p := s.active[id].payment; var after := Next(s, Finish(id)).db;
            && p < |s.db.payments| && |after.outbox| == |s.db.outbox| + 1
            && var row, i := after.outbox[|s.db.outbox|], s.db.payments[p].subscription;
               && row.subscription == i < |s.db.subscriptions|
               && n < |events| && events[n].OpenPayment? && events[n].i == i && |Run(events[..n]).db.payments| == p
               && i < |Run(events[..n]).db.subscriptions|
               && var chosen := Run(events[..n]).db.subscriptions[i];
                  s.db.payments[p].amount == Amount(s.db.subscriptions[i].ownerType, row.plan, row.cycle) <==>
                  SamePrice(chosen.plan, chosen.cycle, row.plan, row.cycle)
  {
    var s := Run(events);
    RunKeeps(events);
    DeliverySettlesIff(s, id);
    var p := s.active[id].payment;
    n := AmountIsCheckoutPrice(events, p);
    var i := s.db.payments[p].subscription;
    var chosen := Run(events[..n]).db.subscriptions[i];
    SamePriceIff(chosen.ownerType, chosen.plan, chosen.cycle, s.db.subscriptions[i].plan, s.db.subscriptions[i].cycle);
  }
}
