// The whole result of every procurement call, from its arguments and the documents it finds, and what
// becomes of the applications that lose.
module ProcurementResults {
  import opened Wrappers
  import opened Procurement
  import opened ProcurementRuns

  // ------------------------------------------------------------------ awards

  /** The documents after application `a` is awarded: its work order is assigned to its vendor, and every other
      application for the same work order is withdrawn if it was, and rejected if it was not. */
  predicate AwardedTo(s: State, t: State, a: nat)
    requires a < |s.applications| && s.applications[a].workOrder < |s.workOrders|
  {
    var w, vendor := s.applications[a].workOrder, s.applications[a].vendor;
    && t.workOrders == s.workOrders[w := WorkOrder(s.workOrders[w].marketplace, AssignedWork, Some(vendor))]
    && |t.applications| == |s.applications|
    && (forall i :: 0 <= i < |s.applications| ==>
          var app := s.applications[i];
          t.applications[i] ==
          if i == a then Application(w, vendor, Awarded)
          else if app.workOrder == w && app.status != Withdrawn then Application(w, app.vendor, Rejected)
          else app)
  }

  /** An award is made while the work order is open, so none of its applications is awarded yet. */
  lemma AssignedIsAwardedTo(s: State, a: nat, waitingOnly: bool)
    requires Inv(s) && a < |s.applications| && s.workOrders[s.applications[a].workOrder].status == Open
    ensures AwardedTo(s, Assigned(s, a, waitingOnly), a)
  {
  }

  /** A review: refused for an application that is awarded or withdrawn, an award also unless the work order is
      open and unassigned; any other status is only noted, also for an application that had lost. */
  lemma ReviewResult(s: State, a: nat, review: Review)
    requires Inv(s)
    ensures var r := ReviewApplication(s, a, review);
            if a >= |s.applications| then r == Reply(s, Failed(NotFound))
            else
              var app, order := s.applications[a], s.workOrders[s.applications[a].workOrder];
              if app.status == Awarded || app.status == Withdrawn then r == Reply(s, Failed(BusinessRule))
              else
                match review
                case ToReview => r == Reply(s.(applications := s.applications[a := app.(status := UnderReview)]), Done)
                case ToReject => r == Reply(s.(applications := s.applications[a := app.(status := Rejected)]), Done)
                case ToWithdraw => r == Reply(s.(applications := s.applications[a := app.(status := Withdrawn)]), Done)
                case ToAward =>
                  if order.status != Open || order.vendor.Some? then r == Reply(s, Failed(Conflict))
                  else r.outcome == Done && AwardedTo(s, r.state, a) && r.state.quotations == s.quotations &&
                       r.state.awards == s.awards
  {
    if a < |s.applications| && s.workOrders[s.applications[a].workOrder].status == Open {
      AssignedIsAwardedTo(s, a, false);
    }
  }

  /** A contract: refused unless the work order is open and has none, whatever the application's status. */
  lemma ContractResult(s: State, a: nat)
    requires Inv(s)
    ensures var r := AwardContract(s, a);
            if a >= |s.applications| then r == Reply(s, Failed(NotFound))
            else
              var w := s.applications[a].workOrder;
              if s.workOrders[w].status != Open then r == Reply(s, Failed(BusinessRule))
              else if exists k :: 0 <= k < |s.awards| && s.awards[k].workOrder == w
              then r == Reply(s, Failed(Conflict))
              else
                && r.outcome == Done && AwardedTo(s, r.state, a) && r.state.quotations == s.quotations
                && r.state.awards == s.awards + [Award(w, a, s.applications[a].vendor)]
  {
    if a < |s.applications| && s.workOrders[s.applications[a].workOrder].status == Open {
      AssignedIsAwardedTo(s, a, true);
    }
  }

  /** A change of a quotation's status, with the award when it is accepted. */
  lemma QuotationResult(s: State, q: nat, next: QuotationStatus)
    requires Inv(s)
    ensures var r := SetQuotationStatus(s, q, next);
            if q >= |s.quotations| then r == Reply(s, Failed(NotFound))
            else
              var before := s.quotations[q];
              var changed := s.quotations[q := before.(status := next)];
              if !(match before.status
                   case Sent => next in {InReview, Accepted, Declined}
                   case InReview => next in {Accepted, Declined}
                   case Draft => next in {Sent, Retracted}
                   case _ => false)
              then r == Reply(s, Failed(BusinessRule))
              else if next != Accepted then r == Reply(s.(quotations := changed), Done)
              else
                var app, order := s.applications[before.application], s.workOrders[before.workOrder];
                if app.status == Withdrawn then r == Reply(s, Failed(BusinessRule))
                else if order.status != Open || order.vendor.Some?
                then r.state == s && r.outcome in {Failed(Conflict), Failed(BusinessRule)} &&
                     (r.outcome == Failed(BusinessRule) <==> app.status == Awarded)
                else
                  && r.outcome == Done && AwardedTo(s, r.state, before.application)
                  && r.state.quotations == changed && r.state.awards == s.awards
  {
    if q < |s.quotations| { ReviewResult(s, s.quotations[q].application, ToAward); }
  }

  // ------------------------------------------------------------------ the other calls

  /** Applying: an eligible vendor's first application, to an open unassigned marketplace order, is stored as
      submitted. */
  lemma ApplyResult(s: State, w: nat, vendor: nat, eligible: bool)
    ensures var r := Apply(s, w, vendor, eligible);
            if w >= |s.workOrders| then r == Reply(s, Failed(NotFound))
            else if !eligible then r == Reply(s, Failed(NotAllowed))
            else if s.workOrders[w] != WorkOrder(true, Open, None) then r == Reply(s, Failed(BusinessRule))
            else if exists i :: 0 <= i < |s.applications| && s.applications[i].workOrder == w &&
                                s.applications[i].vendor == vendor
            then r == Reply(s, Failed(Conflict))
            else r == Reply(State(s.workOrders, s.applications + [Application(w, vendor, Submitted)], s.quotations,
                                  s.awards), Done)
  {
  }

  /** Withdrawing: the vendor's own application that is neither awarded nor rejected. */
  lemma WithdrawResult(s: State, a: nat, vendor: nat)
    ensures var r := Withdraw(s, a, vendor);
            if a >= |s.applications| || s.applications[a].vendor != vendor then r == Reply(s, Failed(NotFound))
            else if s.applications[a].status in {Awarded, Rejected} then r == Reply(s, Failed(BusinessRule))
            else
              var app := Application(s.applications[a].workOrder, vendor, Withdrawn);
              r == Reply(State(s.workOrders, s.applications[a := app], s.quotations, s.awards), Done)
  {
  }

  /** A first quotation costs what its labor and material do, without tax or fees. */
  lemma QuoteResult(s: State, a: nat, vendor: nat, labor: nat, material: nat)
    requires Inv(s)
    ensures var r := Quote(s, a, vendor, labor, material);
            if a >= |s.applications| || s.applications[a].vendor != vendor then r == Reply(s, Failed(NotFound))
            else
              var cost := labor + material;
              var quotation := Quotation(a, s.applications[a].workOrder, vendor, Sent, 1, [], cost, 0, cost);
              r == Reply(State(s.workOrders, s.applications, s.quotations + [quotation], s.awards), Done)
  {
  }

  /** Rounding is to the nearest integer, and upwards from halfway. */
  lemma RoundIsNearest(x: real, n: int)
    ensures Round(x) == n <==> n as real - 0.5 <= x < n as real + 0.5
  {
  }

  /** A subtotal adds up its lines, each rounded for itself. */
  lemma SubtotalAdds(lines: seq<LineItem>, item: LineItem, n: int)
    requires n as real - 0.5 <= item.quantity * item.unitPrice as real < n as real + 0.5
    ensures Subtotal([]) == 0 && Subtotal(lines + [item]) == Subtotal(lines) + n
  {
    RoundIsNearest(item.quantity * item.unitPrice as real, n);
    assert (lines + [item])[..|lines|] == lines;
  }

  /** Revising: the vendor's own quotation, until it is decided; its new revision has the given lines, and
      the quotation is sent again with that revision's totals. */
  lemma ReviseResult(s: State, q: nat, vendor: nat, lines: seq<LineItem>, taxAndFees: nat)
    requires Inv(s)
    ensures var r := Revise(s, q, vendor, lines, taxAndFees);
            if q >= |s.quotations| || s.quotations[q].vendor != vendor then r == Reply(s, Failed(NotAllowed))
            else if s.quotations[q].status !in {Draft, Sent, InReview} then r == Reply(s, Failed(Conflict))
            else
              var before, cost := s.quotations[q], Subtotal(lines);
              var number := |before.revisions| + 2;
              var revision := Revision(number, lines, cost, taxAndFees, cost + taxAndFees);
              var after := Quotation(before.application, before.workOrder, vendor, Sent, number,
                                     before.revisions + [revision], cost, taxAndFees, cost + taxAndFees);
              r == Reply(State(s.workOrders, s.applications, s.quotations[q := after], s.awards), Done)
  {
    if q < |s.quotations| { assert Priced(s.quotations[q]); }
  }

  // ------------------------------------------------------------------ who lost

  /** Application `i` is for a work order that another application won. */
  predicate Lost(s: State, i: nat)
  {
    i < |s.applications| && exists a :: 0 <= a < |s.applications| && a != i && s.applications[a].status == Awarded &&
                                        s.applications[a].workOrder == s.applications[i].workOrder
  }

  lemma LostStays(s: State, t: State, i: nat)
    requires Lost(s, i) && Onward(s.applications, t.applications)
    ensures Lost(t, i)
  {
    var a :| 0 <= a < |s.applications| && a != i && s.applications[a].status == Awarded &&
             s.applications[a].workOrder == s.applications[i].workOrder;
    assert t.applications[a].status == Awarded && t.applications[a].workOrder == t.applications[i].workOrder;
  }

  /** What becomes of an application that lost, by one more call: only its own review and withdrawal. */
  function LoserNext(status: ApplicationStatus, op: Op, i: nat, vendor: nat): ApplicationStatus
  {
    match op
    case ReviewOp(a, review) =>
      if a != i || status == Withdrawn then status
      else (match review case ToReview => UnderReview case ToReject => Rejected case ToWithdraw => Withdrawn
                         case ToAward => status)
    case WithdrawOp(a, v) => if a == i && v == vendor && status != Rejected then Withdrawn else status
    case _ => status
  }

  lemma LoserStep(s: State, op: Op, i: nat)
    requires Inv(s) && Lost(s, i)
    ensures var t := Step(s, op).state; var app := s.applications[i];
            && Lost(t, i) && t.applications[i].workOrder == app.workOrder && t.applications[i].vendor == app.vendor
            && t.applications[i].status == LoserNext(app.status, op, i, app.vendor)
  {
    StepOnward(s, op);
    LostStays(s, Step(s, op).state, i);
    LoserStatus(s, op, i);
  }

  /** The work order of an application that lost is closed and assigned, so it cannot win. */
  lemma LosersOrder(s: State, i: nat)
    requires Inv(s) && Lost(s, i)
    ensures var order := s.workOrders[s.applications[i].workOrder]; order.status != Open && order.vendor.Some?
    ensures s.applications[i].status != Awarded
  {
  }

  lemma LoserStatus(s: State, op: Op, i: nat)
    requires Inv(s) && Lost(s, i)
    ensures var t := Step(s, op).state;
            && i < |t.applications|
            && t.applications[i].status == LoserNext(s.applications[i].status, op, i, s.applications[i].vendor)
  {
    LosersOrder(s, i);
    match op
    case ReviewOp(b, review) => ReviewResult(s, b, review);
    case AwardOp(b) => ContractResult(s, b);
    case QuotationOp(q, next) => QuotationResult(s, q, next);
    case RepairOp(q) => RepairKeeps(s, q);
    case _ =>
  }

  /** An award loses nothing for the applications of other work orders. */
  lemma OthersLoseNothing(s: State, t: State, a: nat, i: nat)
    requires Inv(s) && a < |s.applications| && AwardedTo(s, t, a)
    requires i < |s.applications| && s.applications[i].workOrder != s.applications[a].workOrder
    ensures t.applications[i] == s.applications[i] && (Lost(t, i) ==> Lost(s, i))
  {
    if Lost(t, i) {
      var b :| 0 <= b < |t.applications| && b != i && t.applications[b].status == Awarded &&
               t.applications[b].workOrder == t.applications[i].workOrder;
      assert s.applications[b] == t.applications[b];
    }
  }

  lemma LosingAward(s: State, t: State, a: nat, i: nat)
    requires Inv(s) && a < |s.applications| && AwardedTo(s, t, a)
    requires i < |s.applications| && !Lost(s, i) && Lost(t, i)
    ensures t.applications[i].status == if s.applications[i].status == Withdrawn then Withdrawn else Rejected
  {
    if s.applications[i].workOrder != s.applications[a].workOrder { OthersLoseNothing(s, t, a, i); }
  }

  /** The call by which an application loses leaves it withdrawn if it was, and rejected if it was not. */
  lemma LosingStep(s: State, op: Op, i: nat)
    requires Inv(s) && i < |s.applications| && !Lost(s, i) && Lost(Step(s, op).state, i)
    ensures var t := Step(s, op).state;
            t.applications[i].status == if s.applications[i].status == Withdrawn then Withdrawn else Rejected
  {
    var t := Step(s, op).state;
    match op
    case ReviewOp(b, review) =>
      ReviewResult(s, b, review);
      if review == ToAward && t != s { LosingAward(s, t, b, i); }
    case AwardOp(b) =>
      ContractResult(s, b);
      if t != s { LosingAward(s, t, b, i); }
    case QuotationOp(q, next) =>
      QuotationResult(s, q, next);
      if next == Accepted && t != s { LosingAward(s, t, s.quotations[q].application, i); }
    case RepairOp(q) => RepairKeeps(s, q);
    case _ =>
  }

  /** A new application is for an open work order, which nobody has won. */
  lemma NewHasNotLost(s: State, op: Op, i: nat)
    requires Inv(s) && |s.applications| <= i < |Step(s, op).state.applications|
    ensures !Lost(Step(s, op).state, i)
  {
    match op
    case ReviewOp(b, review) => ReviewResult(s, b, review);
    case AwardOp(b) => ContractResult(s, b);
    case QuotationOp(q, next) => QuotationResult(s, q, next);
    case RepairOp(q) => RepairKeeps(s, q);
    case _ =>
  }

  /** Over every run no application of a work order that another one has won is still submitted. */
  lemma {:induction false} LosersAreDecided(ops: seq<Op>, i: nat)
    requires Lost(After(ops), i)
    ensures After(ops).applications[i].status in {UnderReview, Withdrawn, Rejected}
  {
    var init, last := ops[..|ops| - 1], ops[|ops| - 1];
    var s := After(init);
    RunKeeps(init);
    if i >= |s.applications| {
      NewHasNotLost(s, last, i);
    } else if Lost(s, i) {
      LosersAreDecided(init, i);
      LoserStep(s, last, i);
    } else {
      LosingStep(s, last, i);
    }
  }

  // Whether one is under review depends on its own reviews and withdrawal alone.

  predicate Closes(op: Op, i: nat, vendor: nat)
  {
    op == ReviewOp(i, ToReject) || op == ReviewOp(i, ToWithdraw) || op == WithdrawOp(i, vendor)
  }

  /** Application `i` was put under review while it was not withdrawn, and nothing closed it since. */
  ghost predicate Reopened(ops: seq<Op>, later: seq<Op>, i: nat, vendor: nat)
  {
    exists n :: 0 <= n < |later| && ReopenedAt(ops, later, i, vendor, n)
  }

  predicate ReopenedAt(ops: seq<Op>, later: seq<Op>, i: nat, vendor: nat, n: nat)
    requires n < |later|
  {
    var s := After(ops + later[..n]);
    && later[n] == ReviewOp(i, ToReview) && i < |s.applications| && s.applications[i].status != Withdrawn
    && forall m :: n < m < |later| ==> !Closes(later[m], i, vendor)
  }

  lemma ReopenedAtOneMore(ops: seq<Op>, later: seq<Op>, last: Op, i: nat, vendor: nat, n: nat)
    requires n < |later|
    ensures ReopenedAt(ops, later + [last], i, vendor, n) <==>
            ReopenedAt(ops, later, i, vendor, n) && !Closes(last, i, vendor)
  {
    var all := later + [last];
    assert all[..n] == later[..n] && all[n] == later[n] && all[|later|] == last;
    assert forall m :: n < m < |later| ==> all[m] == later[m];
  }

  lemma ReopenedOneMore(ops: seq<Op>, later: seq<Op>, last: Op, i: nat, vendor: nat)
    requires i < |After(ops + later).applications|
    ensures Reopened(ops, later + [last], i, vendor) <==>
            || (last == ReviewOp(i, ToReview) && After(ops + later).applications[i].status != Withdrawn)
            || (Reopened(ops, later, i, vendor) && !Closes(last, i, vendor))
  {
    var all := later + [last];
    forall n | 0 <= n < |later|
      ensures ReopenedAt(ops, all, i, vendor, n) <==> ReopenedAt(ops, later, i, vendor, n) && !Closes(last, i, vendor)
    {
      ReopenedAtOneMore(ops, later, last, i, vendor, n);
    }
    assert all[..|later|] == later;
    assert ReopenedAt(ops, all, i, vendor, |later|) <==>
           last == ReviewOp(i, ToReview) && After(ops + later).applications[i].status != Withdrawn;
  }

  ghost predicate LoserAsSaid(ops: seq<Op>, later: seq<Op>, i: nat, app: Application)
  {
    var s := After(ops + later);
    && Lost(s, i) && s.applications[i].vendor == app.vendor && s.applications[i].workOrder == app.workOrder
    && (s.applications[i].status == UnderReview <==> Reopened(ops, later, i, app.vendor))
  }

  lemma LoserOneMore(ops: seq<Op>, later: seq<Op>, last: Op, i: nat, app: Application)
    requires LoserAsSaid(ops, later, i, app)
    ensures LoserAsSaid(ops, later + [last], i, app)
  {
    assert ops + (later + [last]) == ops + later + [last];
    assert (ops + later + [last])[..|ops + later|] == ops + later;
    RunKeeps(ops + later);
    LosersAreDecided(ops + later, i);
    LoserStep(After(ops + later), last, i);
    ReopenedOneMore(ops, later, last, i, app.vendor);
  }

  /** Over every continuation of a run an application that lost has lost, and it is under review exactly if
      since then it was put under review, while it was not withdrawn, and neither rejected nor withdrawn after
      that. */
  lemma {:induction false} LoserUnderReviewIff(ops: seq<Op>, later: seq<Op>, i: nat, app: Application)
    requires Lost(After(ops), i) && app == After(ops).applications[i] && app.status != UnderReview
    ensures LoserAsSaid(ops, later, i, app)
  {
    if later == [] {
      assert ops + later == ops;
    } else {
      var init, last := later[..|later| - 1], later[|later| - 1];
      LoserUnderReviewIff(ops, init, i, app);
      LoserOneMore(ops, init, last, i, app);
      assert later == init + [last];
    }
  }

  const LOSER_REVIEWED := [AddWorkOrder(true, Open), ApplyOp(0, 1, true), ApplyOp(0, 2, true), ReviewOp(0, ToAward),
                           ReviewOp(1, ToReview)]

  /** A vendor that lost is put under review for a work order that is another's. */
  lemma LoserIsReviewed()
    ensures var s := After(LOSER_REVIEWED);
            && s.workOrders == [WorkOrder(true, AssignedWork, Some(1))]
            && s.applications == [Application(0, 1, Awarded), Application(0, 2, UnderReview)]
  {
    var ops := LOSER_REVIEWED;
    assert ops[..4][..3] == ops[..3] && ops[..3][..2] == ops[..2] && ops[..2][..1] == ops[..1] && ops[..1][..0] == [];
    var order := WorkOrder(true, Open, None);
    assert After(ops[..1]) == State([order], [], [], []);
    assert After(ops[..2]) == State([order], [Application(0, 1, Submitted)], [], []);
    assert After(ops[..3]) == State([order], [Application(0, 1, Submitted), Application(0, 2, Submitted)], [], []);
    var s := After(ops[..4]);
    assert s.applications == [Application(0, 1, Awarded), Application(0, 2, Rejected)];
  }
}
