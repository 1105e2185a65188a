// What every run of the procurement services keeps.
module ProcurementRuns {
  import opened Wrappers
  import opened Procurement

  // ------------------------------------------------------------------ the invariant

  predicate ApplicationsInv(orders: seq<WorkOrder>, apps: seq<Application>)
  {
    && (forall i :: 0 <= i < |apps| ==> apps[i].workOrder < |orders|)
    && (forall i, j :: 0 <= i < j < |apps| && apps[i].workOrder == apps[j].workOrder ==>
        apps[i].vendor != apps[j].vendor)
    && (forall i :: 0 <= i < |apps| && apps[i].status == Awarded ==>
          orders[apps[i].workOrder].status != Open && orders[apps[i].workOrder].vendor == Some(apps[i].vendor))
    && (forall i, j :: 0 <= i < j < |apps| && apps[i].status == Awarded && apps[j].status == Awarded ==>
          apps[i].workOrder != apps[j].workOrder)
  }

  /** The first quotation is revision one; the totals are those of the latest revision. */
  predicate Priced(q: Quotation)
  {
    && q.currentRevision == |q.revisions| + 1
    && q.total == q.subtotal + q.taxAndFees
    && (forall k :: 0 <= k < |q.revisions| ==>
          && q.revisions[k].number == k + 2
          && q.revisions[k].subtotal == Subtotal(q.revisions[k].lines)
          && q.revisions[k].total == q.revisions[k].subtotal + q.revisions[k].taxAndFees)
    && (q.revisions != [] ==>
          var last := q.revisions[|q.revisions| - 1];
          q.subtotal == last.subtotal && q.taxAndFees == last.taxAndFees && q.total == last.total)
  }

  predicate QuotationsInv(apps: seq<Application>, quotations: seq<Quotation>)
  {
    && (forall q :: 0 <= q < |quotations| ==>
          && quotations[q].application < |apps|
          && quotations[q].workOrder == apps[quotations[q].application].workOrder
          && quotations[q].vendor == apps[quotations[q].application].vendor
          && (quotations[q].status == Accepted ==> apps[quotations[q].application].status == Awarded)
          && Priced(quotations[q]))
    && (forall q, r :: 0 <= q < r < |quotations| && quotations[q].status == quotations[r].status == Accepted ==>
          quotations[q].application != quotations[r].application)
  }

  predicate AwardsInv(apps: seq<Application>, awards: seq<Award>)
  {
    && (forall k :: 0 <= k < |awards| ==>
          && awards[k].application < |apps|
          && apps[awards[k].application] == Application(awards[k].workOrder, awards[k].vendor, Awarded))
    && (forall k, l :: 0 <= k < l < |awards| ==> awards[k].workOrder != awards[l].workOrder)
  }

  predicate Inv(s: State)
  {
    && ApplicationsInv(s.workOrders, s.applications)
    && QuotationsInv(s.applications, s.quotations)
    && AwardsInv(s.applications, s.awards)
  }

  // ------------------------------------------------------------------ steps

  /** Every application stays itself, and an awarded one stays awarded. */
  predicate Onward(a: seq<Application>, b: seq<Application>)
  {
    && |a| <= |b|
    && forall i :: 0 <= i < |a| ==>
         b[i].workOrder == a[i].workOrder && b[i].vendor == a[i].vendor &&
             (a[i].status == Awarded ==> b[i].status == Awarded)
  }

  lemma OnwardKeeps(a: seq<Application>, b: seq<Application>, quotations: seq<Quotation>, awards: seq<Award>)
    requires Onward(a, b) && QuotationsInv(a, quotations) && AwardsInv(a, awards)
    ensures QuotationsInv(b, quotations) && AwardsInv(b, awards)
  {
  }

  /** While a work order is open none of its applications is awarded, so an award takes nothing back. */
  lemma DecidedOnward(s: State, a: nat, waitingOnly: bool)
    requires ApplicationsInv(s.workOrders, s.applications) && a < |s.applications|
    requires s.workOrders[s.applications[a].workOrder].status == Open
    ensures Onward(s.applications, Decided(s.applications, a, waitingOnly))
  {
  }

  lemma AssignedKeeps(s: State, a: nat, waitingOnly: bool)
    requires Inv(s) && a < |s.applications| && s.workOrders[s.applications[a].workOrder].status == Open
    ensures Inv(Assigned(s, a, waitingOnly))
  {
    var apps, t := s.applications, Assigned(s, a, waitingOnly);
    DecidedOnward(s, a, waitingOnly);
    OnwardKeeps(apps, t.applications, s.quotations, s.awards);
    forall i | 0 <= i < |apps| && t.applications[i].status == Awarded
      ensures i == a || (apps[i].status == Awarded && apps[i].workOrder != apps[a].workOrder)
    {
    }
  }

  lemma ReviewKeeps(s: State, a: nat, review: Review)
    requires Inv(s)
    ensures Inv(ReviewApplication(s, a, review).state)
  {
    if a < |s.applications| && review == ToAward {
      if s.workOrders[s.applications[a].workOrder].status == Open { AssignedKeeps(s, a, false); }
    } else if a < |s.applications| && s.applications[a].status != Awarded {
      StatusKeeps(s, a, if review == ToReview then UnderReview else if review == ToReject then Rejected else Withdrawn);
    }
  }

  lemma StatusKeeps(s: State, a: nat, status: ApplicationStatus)
    requires Inv(s) && a < |s.applications| && status != Awarded && s.applications[a].status != Awarded
    ensures Inv(s.(applications := s.applications[a := s.applications[a].(status := status)]))
  {
    OnwardKeeps(s.applications, s.applications[a := s.applications[a].(status := status)], s.quotations, s.awards);
  }

  lemma ApplyKeeps(s: State, w: nat, vendor: nat, eligible: bool)
    requires Inv(s)
    ensures Inv(Apply(s, w, vendor, eligible).state)
  {
    OnwardKeeps(s.applications, s.applications + [Application(w, vendor, Submitted)], s.quotations, s.awards);
  }

  lemma AwardKeeps(s: State, a: nat)
    requires Inv(s)
    ensures Inv(AwardContract(s, a).state)
  {
    if a < |s.applications| && s.workOrders[s.applications[a].workOrder].status == Open {
      AssignedKeeps(s, a, true);
    }
  }

  lemma SetStatusKeeps(apps: seq<Application>, quotations: seq<Quotation>, q: nat, next: QuotationStatus)
    requires QuotationsInv(apps, quotations) && q < |quotations|
    requires next == Accepted ==>
               && apps[quotations[q].application].status == Awarded
               && forall r :: 0 <= r < |quotations| && quotations[r].status == Accepted ==>
                    quotations[r].application != quotations[q].application
    ensures QuotationsInv(apps, quotations[q := quotations[q].(status := next)])
  {
    var more := quotations[q := quotations[q].(status := next)];
    assert Priced(more[q]);
  }

  lemma QuotationKeeps(s: State, q: nat, next: QuotationStatus)
    requires Inv(s)
    ensures Inv(SetQuotationStatus(s, q, next).state)
  {
    if q < |s.quotations| && MayBecome(s.quotations[q].status, next) {
      var a := s.quotations[q].application;
      var r := if next == Accepted then ReviewApplication(s, a, ToAward) else Reply(s, Done);
      ReviewKeeps(s, a, ToAward);
      assert Inv(r.state) && r.state.quotations == s.quotations;
      if r.outcome.Done? {
        if next == Accepted {
          assert s.applications[a].status != Awarded && r.state.applications[a].status == Awarded;
        }
        SetStatusKeeps(r.state.applications, s.quotations, q, next);
      }
    }
  }

  lemma ReviseKeeps(s: State, q: nat, vendor: nat, lines: seq<LineItem>, taxAndFees: nat)
    requires Inv(s)
    ensures Inv(Revise(s, q, vendor, lines, taxAndFees).state)
  {
  }

  lemma WithdrawKeeps(s: State, a: nat, vendor: nat)
    requires Inv(s)
    ensures Inv(Withdraw(s, a, vendor).state)
  {
    if a < |s.applications| && s.applications[a].status != Awarded { StatusKeeps(s, a, Withdrawn); }
  }

  lemma QuoteKeeps(s: State, a: nat, vendor: nat, labor: nat, material: nat)
    requires Inv(s)
    ensures Inv(Quote(s, a, vendor, labor, material).state)
  {
  }

  lemma RepairKeeps(s: State, q: nat)
    requires Inv(s)
    ensures Repair(s, q) == Reply(s, Done)
  {
  }

  lemma WorkOrdersKeep(s: State, op: Op)
    requires Inv(s) && (op.AddWorkOrder? || op.Progress?)
    ensures Inv(Step(s, op).state)
  {
  }

  lemma StepKeeps(s: State, op: Op)
    requires Inv(s)
    ensures Inv(Step(s, op).state)
  {
    match op
    case ApplyOp(w, vendor, eligible) => ApplyKeeps(s, w, vendor, eligible);
    case ReviewOp(a, review) => ReviewKeeps(s, a, review);
    case WithdrawOp(a, vendor) => WithdrawKeeps(s, a, vendor);
    case AwardOp(a) => AwardKeeps(s, a);
    case QuoteOp(a, vendor, labor, material) => QuoteKeeps(s, a, vendor, labor, material);
    case QuotationOp(q, next) => QuotationKeeps(s, q, next);
    case ReviseOp(q, vendor, lines, tax) => ReviseKeeps(s, q, vendor, lines, tax);
    case RepairOp(q) => RepairKeeps(s, q);
    case AddWorkOrder(marketplace, status) => WorkOrdersKeep(s, op);
    case Progress(w, status) => WorkOrdersKeep(s, op);
  }

  lemma {:induction false} RunKeeps(ops: seq<Op>)
    ensures Inv(After(ops))
  {
    if ops != [] {
      RunKeeps(ops[..|ops| - 1]);
      StepKeeps(After(ops[..|ops| - 1]), ops[|ops| - 1]);
    }
  }

  // ------------------------------------------------------------------ every run

  /** Over every run of the three services: a work order has at most one awarded application and at
      most one accepted quotation. */
  lemma OneWinner(ops: seq<Op>, i: nat, j: nat, q: nat, r: nat)
    requires var s := After(ops);
             && i < |s.applications| && j < |s.applications| &&
                 s.applications[i].workOrder == s.applications[j].workOrder
             && q < |s.quotations| && r < |s.quotations| && s.quotations[q].workOrder == s.quotations[r].workOrder
    ensures var s := After(ops);
            && (s.applications[i].status == Awarded && s.applications[j].status == Awarded ==> i == j)
            && (s.quotations[q].status == Accepted && s.quotations[r].status == Accepted ==> q == r)
  {
    RunKeeps(ops);
    var s := After(ops);
    var a, b := s.quotations[q].application, s.quotations[r].application;
    if s.quotations[q].status == Accepted && s.quotations[r].status == Accepted {
      assert s.applications[a].status == Awarded && s.applications[b].status == Awarded;
      assert a == b;
    }
  }

  /** An awarded application's work order is no longer open and is assigned to its vendor. */
  lemma AwardedIsAssigned(ops: seq<Op>, i: nat)
    requires var s := After(ops); i < |s.applications| && s.applications[i].status == Awarded
    ensures var s := After(ops); var w := s.applications[i].workOrder;
            w < |s.workOrders| && s.workOrders[w].status != Open &&
                s.workOrders[w].vendor == Some(s.applications[i].vendor)
  {
    RunKeeps(ops);
  }

  /** An accepted quotation's application is the awarded one, so the work order is its vendor's. */
  lemma AcceptedIsAwarded(ops: seq<Op>, q: nat)
    requires var s := After(ops); q < |s.quotations| && s.quotations[q].status == Accepted
    ensures var s := After(ops); var a, w := s.quotations[q].application, s.quotations[q].workOrder;
            && a < |s.applications| && s.applications[a] == Application(w, s.quotations[q].vendor, Awarded)
            && w < |s.workOrders| && s.workOrders[w].vendor == Some(s.quotations[q].vendor)
  {
    RunKeeps(ops);
    AwardedIsAssigned(ops, After(ops).quotations[q].application);
  }

  /** The same of a contract. */
  lemma ContractIsAwarded(ops: seq<Op>, k: nat)
    requires var s := After(ops); k < |s.awards|
    ensures var s := After(ops); var a, w := s.awards[k].application, s.awards[k].workOrder;
            && a < |s.applications| && s.applications[a] == Application(w, s.awards[k].vendor, Awarded)
            && w < |s.workOrders| && s.workOrders[w].vendor == Some(s.awards[k].vendor)
  {
    RunKeeps(ops);
    AwardedIsAssigned(ops, After(ops).awards[k].application);
  }

  /** So all three paths agree: a quotation and a contract for one work order have one winner. */
  lemma WinnersAgree(ops: seq<Op>, q: nat, k: nat)
    requires var s := After(ops); q < |s.quotations| && s.quotations[q].status == Accepted && k < |s.awards|
    requires var s := After(ops); s.quotations[q].workOrder == s.awards[k].workOrder
    ensures var s := After(ops);
            s.quotations[q].application == s.awards[k].application && s.quotations[q].vendor == s.awards[k].vendor
  {
    AcceptedIsAwarded(ops, q);
    ContractIsAwarded(ops, k);
    OneWinner(ops, After(ops).quotations[q].application, After(ops).awards[k].application, q, q);
  }

  /** Conversely a work order's vendor is that of its awarded application. */
  ghost predicate VendorsWon(s: State)
  {
    forall w :: 0 <= w < |s.workOrders| && s.workOrders[w].vendor.Some? ==> Won(s, w)
  }

  ghost predicate Won(s: State, w: nat)
    requires w < |s.workOrders| && s.workOrders[w].vendor.Some?
  {
    exists i :: 0 <= i < |s.applications| && s.applications[i] == Application(w, s.workOrders[w].vendor.value, Awarded)
  }

  lemma StillWon(s: State, t: State, w: nat)
    requires w < |s.workOrders| && w < |t.workOrders| && s.workOrders[w].vendor.Some?
    requires t.workOrders[w].vendor == s.workOrders[w].vendor && Won(s, w) && Onward(s.applications, t.applications)
    ensures Won(t, w)
  {
    var i :| 0 <= i < |s.applications| && s.applications[i] == Application(w, s.workOrders[w].vendor.value, Awarded);
    assert t.applications[i] == s.applications[i];
  }

  lemma AssignedWon(s: State, a: nat, waitingOnly: bool, t: State)
    requires Inv(s) && VendorsWon(s) && a < |s.applications| && s.workOrders[s.applications[a].workOrder].status == Open
    requires t == Assigned(s, a, waitingOnly)
    ensures VendorsWon(t)
  {
    DecidedOnward(s, a, waitingOnly);
    var here := s.applications[a].workOrder;
    forall w | 0 <= w < |t.workOrders| && t.workOrders[w].vendor.Some?
      ensures Won(t, w)
    {
      if w == here {
        assert t.applications[a] == Application(w, s.applications[a].vendor, Awarded);
      } else {
        StillWon(s, t, w);
      }
    }
  }

  lemma OthersWon(s: State, t: State)
    requires VendorsWon(s) && Onward(s.applications, t.applications) && |s.workOrders| <= |t.workOrders|
    requires forall w :: 0 <= w < |s.workOrders| ==> t.workOrders[w].vendor == s.workOrders[w].vendor
    requires forall w :: |s.workOrders| <= w < |t.workOrders| ==> t.workOrders[w].vendor.None?
    ensures VendorsWon(t)
  {
    forall w | 0 <= w < |t.workOrders| && t.workOrders[w].vendor.Some?
      ensures Won(t, w)
    {
      StillWon(s, t, w);
    }
  }

  lemma ReviewWon(s: State, a: nat, review: Review, t: State)
    requires Inv(s) && VendorsWon(s) && t == ReviewApplication(s, a, review).state
    ensures VendorsWon(t)
  {
    if t.workOrders != s.workOrders {
      AssignedWon(s, a, false, t);
    } else {
      ReviewOnward(s, a, review);
      OthersWon(s, t);
    }
  }

  lemma StepWon(s: State, op: Op, t: State)
    requires Inv(s) && VendorsWon(s) && t == Step(s, op).state
    ensures VendorsWon(t)
  {
    match op
    case ReviewOp(a, review) => ReviewWon(s, a, review, t);
    case AwardOp(a) => if t != s { AssignedWon(s, a, true, t.(awards := s.awards)); }
    case QuotationOp(q, next) =>
      if q < |s.quotations| && next == Accepted {
        ReviewWon(s, s.quotations[q].application, ToAward,
                  ReviewApplication(s, s.quotations[q].application, ToAward).state);
      }
    case RepairOp(q) => RepairKeeps(s, q);
    case _ =>
      StepOnward(s, op);
      OthersWon(s, t);
  }

  /** Over every run a work order is assigned to a vendor exactly when that vendor's application for it
      is awarded. */
  lemma {:induction false} AssignedIffAwarded(ops: seq<Op>, w: nat, vendor: nat)
    requires w < |After(ops).workOrders|
    ensures var s := After(ops);
            s.workOrders[w].vendor == Some(vendor) <==>
            exists i :: 0 <= i < |s.applications| && s.applications[i] == Application(w, vendor, Awarded)
  {
    RunKeeps(ops);
    RunWon(ops);
  }

  lemma {:induction false} RunWon(ops: seq<Op>)
    ensures VendorsWon(After(ops))
  {
    if ops != [] {
      RunKeeps(ops[..|ops| - 1]);
      RunWon(ops[..|ops| - 1]);
      StepWon(After(ops[..|ops| - 1]), ops[|ops| - 1], After(ops));
    }
  }

  /** An award is final: it survives any continuation of the run. */
  lemma {:induction false} AwardsAreFinal(ops: seq<Op>, later: seq<Op>)
    ensures Onward(After(ops).applications, After(ops + later).applications)
  {
    if later == [] {
      assert ops + later == ops;
    } else {
      var sofar := ops + later[..|later| - 1];
      assert (ops + later)[..|ops + later| - 1] == sofar;
      AwardsAreFinal(ops, later[..|later| - 1]);
      RunKeeps(sofar);
      StepOnward(After(sofar), later[|later| - 1]);
    }
  }

  lemma ReviewOnward(s: State, a: nat, review: Review)
    requires Inv(s)
    ensures Onward(s.applications, ReviewApplication(s, a, review).state.applications)
  {
    if a < |s.applications| && s.workOrders[s.applications[a].workOrder].status == Open { DecidedOnward(s, a, false); }
  }

  lemma AwardOnward(s: State, a: nat)
    requires Inv(s)
    ensures Onward(s.applications, AwardContract(s, a).state.applications)
  {
    if a < |s.applications| && s.workOrders[s.applications[a].workOrder].status == Open { DecidedOnward(s, a, true); }
  }

  lemma QuotationOnward(s: State, q: nat, next: QuotationStatus)
    requires Inv(s)
    ensures Onward(s.applications, SetQuotationStatus(s, q, next).state.applications)
  {
    if q < |s.quotations| { ReviewOnward(s, s.quotations[q].application, ToAward); }
  }

  lemma StepOnward(s: State, op: Op)
    requires Inv(s)
    ensures Onward(s.applications, Step(s, op).state.applications)
  {
    match op
    case ReviewOp(a, review) => ReviewOnward(s, a, review);
    case AwardOp(a) => AwardOnward(s, a);
    case QuotationOp(q, next) => QuotationOnward(s, q, next);
    case RepairOp(q) => RepairKeeps(s, q);
    case _ =>
  }

  /** The repair on the read path never finds anything to repair. */
  lemma RepairIsIdle(ops: seq<Op>, q: nat)
    ensures Repair(After(ops), q) == Reply(After(ops), Done)
  {
    RunKeeps(ops);
  }

  /** An accepted quotation can be obtained exactly while its work order is open and unassigned and its
      application neither awarded nor withdrawn. */
  lemma AcceptanceIff(ops: seq<Op>, q: nat)
    requires q < |After(ops).quotations|
    ensures var s := After(ops); var quotation := s.quotations[q];
            && quotation.application < |s.applications| && quotation.workOrder < |s.workOrders|
            && (SetQuotationStatus(s, q, Accepted).outcome.Done? <==>
                  && (quotation.status == Sent || quotation.status == InReview)
                  && s.workOrders[quotation.workOrder].status == Open && s.workOrders[quotation.workOrder].vendor.None?
                  && s.applications[quotation.application].status != Withdrawn)
  {
    RunKeeps(ops);
  }

  /** A contract goes to an application that was withdrawn. */
  predicate AwardsWithdrawn(s: State, op: Op, a: nat)
  {
    && op == AwardOp(a) && a < |s.applications| && s.applications[a].workOrder < |s.workOrders|
    && s.applications[a].status == Withdrawn
    && s.workOrders[s.applications[a].workOrder].status == Open && !HasAward(s.awards, s.applications[a].workOrder)
  }

  lemma WithdrawnStep(s: State, op: Op, a: nat)
    requires Inv(s) && a < |s.applications| && s.applications[a].status == Withdrawn
    ensures var t := Step(s, op).state;
            && |s.applications| <= |t.applications|
            && (t.applications[a].status != Withdrawn <==> AwardsWithdrawn(s, op, a))
            && (t.applications[a].status != Withdrawn ==> t.applications[a].status == Awarded)
  {
    StepOnward(s, op);
  }

  ghost predicate ContractedSince(ops: seq<Op>, later: seq<Op>, a: nat)
  {
    exists n :: 0 <= n < |later| && AwardsWithdrawn(After(ops + later[..n]), later[n], a)
  }

  lemma ContractedOneMore(ops: seq<Op>, later: seq<Op>, last: Op, a: nat)
    ensures ContractedSince(ops, later + [last], a) <==>
            ContractedSince(ops, later, a) || AwardsWithdrawn(After(ops + later), last, a)
  {
    var all := later + [last];
    assert all[..|later|] == later && all[|later|] == last;
    forall n | 0 <= n < |later|
      ensures all[..n] == later[..n] && all[n] == later[n]
    {
    }
  }

  ghost predicate ComesBackAsSaid(ops: seq<Op>, later: seq<Op>, a: nat)
  {
    && a < |After(ops + later).applications|
    && After(ops + later).applications[a].status == if ContractedSince(ops, later, a) then Awarded else Withdrawn
  }

  lemma ComesBackOneMore(ops: seq<Op>, later: seq<Op>, last: Op, a: nat)
    requires ComesBackAsSaid(ops, later, a)
    ensures ComesBackAsSaid(ops, later + [last], a)
  {
    assert ops + (later + [last]) == ops + later + [last];
    ContractedOneMore(ops, later, last, a);
    WithdrawnOneMore(ops + later, last, a);
  }

  /** A withdrawn application comes back exactly by the award of a contract, which does not ask for its
      status, while the work order is open and has no contract; no review and no quotation brings it back. */
  lemma {:induction false} WithdrawnComesBackIff(ops: seq<Op>, later: seq<Op>, a: nat)
    requires a < |After(ops).applications| && After(ops).applications[a].status == Withdrawn
    ensures ComesBackAsSaid(ops, later, a)
  {
    if later == [] {
      assert ops + later == ops;
    } else {
      var init, last := later[..|later| - 1], later[|later| - 1];
      WithdrawnComesBackIff(ops, init, a);
      ComesBackOneMore(ops, init, last, a);
      assert later == init + [last];
    }
  }

  lemma WithdrawnOneMore(sofar: seq<Op>, last: Op, a: nat)
    requires a < |After(sofar).applications| && After(sofar).applications[a].status in [Withdrawn, Awarded]
    ensures a < |After(sofar + [last]).applications|
    ensures var was := After(sofar).applications[a].status;
            After(sofar + [last]).applications[a].status ==
            if was == Awarded || AwardsWithdrawn(After(sofar), last, a) then Awarded else Withdrawn
  {
    assert (sofar + [last])[..|sofar|] == sofar;
    RunKeeps(sofar);
    StepOnward(After(sofar), last);
    if After(sofar).applications[a].status == Withdrawn { WithdrawnStep(After(sofar), last, a); }
  }

  /** A vendor applies to a work order at most once, while it is open and unassigned. */
  lemma SecondApplicationRefused(s: State, w: nat, vendor: nat)
    requires Inv(s) && w < |s.workOrders|
    ensures var r := Apply(s, w, vendor, true);
            && (r.outcome == Done <==>
                  s.workOrders[w] == WorkOrder(true, Open, None) && !HasApplied(s.applications, w, vendor))
            && (r.outcome == Done ==> HasApplied(r.state.applications, w, vendor) &&
                                      Apply(r.state, w, vendor, true) == Reply(r.state, Failed(Conflict)))
  {
    var r := Apply(s, w, vendor, true);
    if r.outcome == Done {
      assert r.state.applications[|s.applications|] == Application(w, vendor, Submitted);
    }
  }

  // ------------------------------------------------------------------ amounts

  function Exact(lines: seq<LineItem>): real
  {
    if lines == [] then 0.0
    else Exact(lines[..|lines| - 1]) + lines[|lines| - 1].quantity * lines[|lines| - 1].unitPrice as real
  }

  /** Rounding each line moves a subtotal by at most half a minor unit for each line. */
  lemma {:induction false} SubtotalWithinRounding(lines: seq<LineItem>)
    ensures -(|lines| as real) / 2.0 <= Subtotal(lines) as real - Exact(lines) <= |lines| as real / 2.0
  {
    if lines != [] {
      var item := lines[|lines| - 1];
      SubtotalWithinRounding(lines[..|lines| - 1]);
      var x := item.quantity * item.unitPrice as real;
      assert x + 0.5 - 1.0 < Round(x) as real <= x + 0.5;
    }
  }

  /** Over every run a quotation's totals are those of its latest revision, and revisions are numbered
      without gaps. */
  lemma RevisionsAreInOrder(ops: seq<Op>, q: nat, k: nat)
    requires q < |After(ops).quotations| && k < |After(ops).quotations[q].revisions|
    ensures var quotation := After(ops).quotations[q]; var r := quotation.revisions[k];
            && r.number == k + 2 && quotation.currentRevision == |quotation.revisions| + 1
            && r.total == Subtotal(r.lines) + r.taxAndFees
            && (r.number == quotation.currentRevision <==> k == |quotation.revisions| - 1)
            && (r.number == quotation.currentRevision ==> quotation.total == r.total)
  {
    RunKeeps(ops);
    assert Priced(After(ops).quotations[q]);
  }
}
