// Procurement on the marketplace: vendors apply to work orders and quote, and an organization awards a
// work order on one of three paths, by application, by quotation or by contract. The services run one
// call at a time here.
module Procurement {
  import opened Wrappers

  /** Open for bidding and open are the same status. */
  datatype WorkStatus = Open | AssignedWork | InProgress | PendingCompletion | CompletedWork | CancelledWork | OnHold

  datatype WorkOrder = WorkOrder(marketplace: bool, status: WorkStatus, vendor: Option<nat>)

  datatype ApplicationStatus = Submitted | UnderReview | Withdrawn | Rejected | Awarded

  datatype Application = Application(workOrder: nat, vendor: nat, status: ApplicationStatus)

  datatype QuotationStatus = Draft | Sent | InReview | Accepted | Declined | Retracted | Expired

  datatype LineItem = LineItem(quantity: real, unitPrice: nat)

  /** Amounts are in minor units. */
  datatype Revision = Revision(number: nat, lines: seq<LineItem>, subtotal: int, taxAndFees: nat, total: int)

  datatype Quotation = Quotation(application: nat, workOrder: nat, vendor: nat, status: QuotationStatus,
                                 currentRevision: nat, revisions: seq<Revision>,
                                 subtotal: int, taxAndFees: nat, total: int)

  datatype Award = Award(workOrder: nat, application: nat, vendor: nat)

  /** Documents are identified by their position. */
  datatype State = State(workOrders: seq<WorkOrder>, applications: seq<Application>,
                         quotations: seq<Quotation>, awards: seq<Award>)

  const EMPTY := State([], [], [], [])

  datatype Error = NotFound | NotAllowed | BusinessRule | Conflict

  datatype Outcome = Done | Failed(error: Error)

  datatype Reply = Reply(state: State, outcome: Outcome)

  // ------------------------------------------------------------------ amounts

  /** Rounding to the nearest integer, halves upwards. */
  function Round(x: real): int { (x + 0.5).Floor }

  function LineTotal(item: LineItem): int { Round(item.quantity * item.unitPrice as real) }

  function Subtotal(lines: seq<LineItem>): int
  {
    if lines == [] then 0 else Subtotal(lines[..|lines| - 1]) + LineTotal(lines[|lines| - 1])
  }

  // ------------------------------------------------------------------ applications

  predicate HasApplied(apps: seq<Application>, w: nat, vendor: nat)
  {
    exists i :: 0 <= i < |apps| && apps[i].workOrder == w && apps[i].vendor == vendor
  }

  /** `eligible`: the vendor is active, serves the category and sees the work order in its market. */
  function Apply(s: State, w: nat, vendor: nat, eligible: bool): Reply
  {
    if w >= |s.workOrders| then Reply(s, Failed(NotFound))
    else if !eligible then Reply(s, Failed(NotAllowed))
    else
      var order := s.workOrders[w];
      if !order.marketplace || order.status != Open || order.vendor.Some? then Reply(s, Failed(BusinessRule))
      else if HasApplied(s.applications, w, vendor) then Reply(s, Failed(Conflict))
      else Reply(s.(applications := s.applications + [Application(w, vendor, Submitted)]), Done)
  }

  /** Who loses when application `a` wins: the others for its work order that are neither withdrawn
      nor rejected, or only those still waiting. */
  predicate Loses(apps: seq<Application>, a: nat, i: nat, waitingOnly: bool)
    requires a < |apps| && i < |apps|
  {
    && i != a && apps[i].workOrder == apps[a].workOrder
    && (if waitingOnly then apps[i].status == Submitted || apps[i].status == UnderReview
        else apps[i].status != Withdrawn && apps[i].status != Rejected)
  }

  function Decided(apps: seq<Application>, a: nat, waitingOnly: bool): (r: seq<Application>)
    requires a < |apps|
    ensures |r| == |apps|
  {
    seq(|apps|, i requires 0 <= i < |apps| =>
      if i == a then apps[i].(status := Awarded)
      else if Loses(apps, a, i, waitingOnly) then apps[i].(status := Rejected)
      else apps[i])
  }

  /** The work order goes to the application's vendor. */
  function Assigned(s: State, a: nat, waitingOnly: bool): State
    requires a < |s.applications| && s.applications[a].workOrder < |s.workOrders|
  {
    var app := s.applications[a];
    s.(workOrders := s.workOrders[app.workOrder :=
                       s.workOrders[app.workOrder].(status := AssignedWork, vendor := Some(app.vendor))],
       applications := Decided(s.applications, a, waitingOnly))
  }

  /** The route admits `withdrawn` too, though the service's own type does not name it. */
  datatype Review = ToReview | ToReject | ToWithdraw | ToAward

  function ReviewApplication(s: State, a: nat, review: Review): Reply
  {
    if a >= |s.applications| || s.applications[a].workOrder >= |s.workOrders| then Reply(s, Failed(NotFound))
    else
      var app := s.applications[a];
      var order := s.workOrders[app.workOrder];
      if app.status == Awarded || app.status == Withdrawn then Reply(s, Failed(BusinessRule))
      else
        match review
        case ToAward =>
          if order.status != Open || order.vendor.Some? then Reply(s, Failed(Conflict))
          else Reply(Assigned(s, a, false), Done)
        case ToReview => Reply(s.(applications := s.applications[a := app.(status := UnderReview)]), Done)
        case ToReject => Reply(s.(applications := s.applications[a := app.(status := Rejected)]), Done)
        case ToWithdraw => Reply(s.(applications := s.applications[a := app.(status := Withdrawn)]), Done)
  }

  function Withdraw(s: State, a: nat, vendor: nat): Reply
  {
    if a >= |s.applications| || s.applications[a].vendor != vendor then Reply(s, Failed(NotFound))
    else if s.applications[a].status == Awarded || s.applications[a].status == Rejected
        then Reply(s, Failed(BusinessRule))
    else Reply(s.(applications := s.applications[a := s.applications[a].(status := Withdrawn)]), Done)
  }

  // ------------------------------------------------------------------ contract awards

  predicate HasAward(awards: seq<Award>, w: nat)
  {
    exists k :: 0 <= k < |awards| && awards[k].workOrder == w
  }

  /** The application's own status is not asked for. */
  function AwardContract(s: State, a: nat): Reply
  {
    if a >= |s.applications| || s.applications[a].workOrder >= |s.workOrders| then Reply(s, Failed(NotFound))
    else
      var app := s.applications[a];
      if s.workOrders[app.workOrder].status != Open then Reply(s, Failed(BusinessRule))
      else if HasAward(s.awards, app.workOrder) then Reply(s, Failed(Conflict))
      else Reply(Assigned(s, a, true).(awards := s.awards + [Award(app.workOrder, a, app.vendor)]), Done)
  }

  // ------------------------------------------------------------------ quotations

  function Quote(s: State, a: nat, vendor: nat, labor: nat, material: nat): Reply
  {
    if a >= |s.applications| || s.applications[a].vendor != vendor || s.applications[a].workOrder >= |s.workOrders|
    then Reply(s, Failed(NotFound))
    else
      Reply(s.(quotations := s.quotations +
                 [Quotation(a, s.applications[a].workOrder, vendor, Sent, 1, [],
                            labor + material, 0, labor + material)]), Done)
  }

  predicate MayBecome(now: QuotationStatus, next: QuotationStatus)
  {
    || (now == Sent && (next == InReview || next == Accepted || next == Declined))
    || (now == InReview && (next == Accepted || next == Declined))
    || (now == Draft && (next == Sent || next == Retracted))
  }

  /** Accepting a quotation awards its application first. */
  function SetQuotationStatus(s: State, q: nat, next: QuotationStatus): Reply
  {
    if q >= |s.quotations| || s.quotations[q].application >= |s.applications| then Reply(s, Failed(NotFound))
    else if !MayBecome(s.quotations[q].status, next) then Reply(s, Failed(BusinessRule))
    else
      var awarded := if next == Accepted then ReviewApplication(s, s.quotations[q].application, ToAward)
          else Reply(s, Done);
      if awarded.outcome.Failed? then awarded
      else
        var t := awarded.state;
        Reply(t.(quotations := s.quotations[q := s.quotations[q].(status := next)]), Done)
  }

  function Revise(s: State, q: nat, vendor: nat, lines: seq<LineItem>, taxAndFees: nat): Reply
  {
    if q >= |s.quotations| || s.quotations[q].vendor != vendor then Reply(s, Failed(NotAllowed))
    else
      var before := s.quotations[q];
      if before.status == Accepted || before.status == Declined || before.status == Retracted ||
          before.status == Expired
      then Reply(s, Failed(Conflict))
      else
        var number, subtotal := before.currentRevision + 1, Subtotal(lines);
        var revision := Revision(number, lines, subtotal, taxAndFees, subtotal + taxAndFees);
        Reply(s.(quotations := s.quotations[q := before.(status := Sent, currentRevision := number,
                                                       revisions := before.revisions + [revision], subtotal := subtotal,
                                                       taxAndFees := taxAndFees,
                                                       total := subtotal + taxAndFees)]), Done)
  }

  /** The read path awards the application of an accepted quotation that is still waiting. */
  function Repair(s: State, q: nat): Reply
  {
    if q >= |s.quotations| || s.quotations[q].status != Accepted then Reply(s, Done)
    else
      var a := s.quotations[q].application;
      if a < |s.applications| && (s.applications[a].status == Submitted || s.applications[a].status == UnderReview)
      then ReviewApplication(s, a, ToAward) else Reply(s, Done)
  }

  // ------------------------------------------------------------------ runs

  /** `AddWorkOrder` and `Progress` stand for the work-order service: orders start without a vendor,
      and none is reopened or reassigned. */
  datatype Op =
    | AddWorkOrder(marketplace: bool, status: WorkStatus)
    | Progress(workOrder: nat, status: WorkStatus)
    | ApplyOp(workOrder: nat, vendor: nat, eligible: bool)
    | ReviewOp(application: nat, review: Review)
    | WithdrawOp(application: nat, vendor: nat)
    | AwardOp(application: nat)
    | QuoteOp(application: nat, vendor: nat, labor: nat, material: nat)
    | QuotationOp(quotation: nat, next: QuotationStatus)
    | ReviseOp(quotation: nat, vendor: nat, lines: seq<LineItem>, taxAndFees: nat)
    | RepairOp(quotation: nat)

  function Step(s: State, op: Op): Reply
  {
    match op
    case AddWorkOrder(marketplace, status) =>
      Reply(s.(workOrders := s.workOrders + [WorkOrder(marketplace, status, None)]), Done)
    case Progress(w, status) =>
      if w < |s.workOrders| && status != Open
      then Reply(s.(workOrders := s.workOrders[w := s.workOrders[w].(status := status)]), Done)
      else Reply(s, Failed(NotAllowed))
    case ApplyOp(w, vendor, eligible) => Apply(s, w, vendor, eligible)
    case ReviewOp(a, review) => ReviewApplication(s, a, review)
    case WithdrawOp(a, vendor) => Withdraw(s, a, vendor)
    case AwardOp(a) => AwardContract(s, a)
    case QuoteOp(a, vendor, labor, material) => Quote(s, a, vendor, labor, material)
    case QuotationOp(q, next) => SetQuotationStatus(s, q, next)
    case ReviseOp(q, vendor, lines, tax) => Revise(s, q, vendor, lines, tax)
    case RepairOp(q) => Repair(s, q)
  }

  function After(ops: seq<Op>): State
  {
    if ops == [] then EMPTY else Step(After(ops[..|ops| - 1]), ops[|ops| - 1]).state
  }
}
