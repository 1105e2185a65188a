// The procurement services over their shared collections, changed in place. Each method is proved to do
// exactly what the step of `Procurement` says, and so keeps what every run keeps.
module ProcurementService {
  import opened Wrappers
  import opened Procurement
  import opened ProcurementRuns

  class Marketplace {
    var workOrders: seq<WorkOrder>
    var applications: seq<Application>
    var quotations: seq<Quotation>
    var awards: seq<Award>

    ghost function Contents(): State
      reads this
    {
      State(workOrders, applications, quotations, awards)
    }

    ghost predicate Valid()
      reads this
    {
      Inv(Contents())
    }

    constructor ()
      ensures Valid() && Contents() == EMPTY
    {
      workOrders, applications, quotations, awards := [], [], [], [];
    }

    // -------------------------------------------------------------- applications

    method FindApplication(w: nat, vendor: nat) returns (found: bool)
      ensures found == HasApplied(applications, w, vendor)
    {
      found := false;
      var i := 0;
      while i < |applications| && !found
        invariant 0 <= i <= |applications|
        invariant found ==> HasApplied(applications, w, vendor)
        invariant !found ==> forall k :: 0 <= k < i ==>
                      !(applications[k].workOrder == w && applications[k].vendor == vendor)
      {
        found := applications[i].workOrder == w && applications[i].vendor == vendor;
        i := i + 1;
      }
    }

    method SubmitApplication(w: nat, vendor: nat, eligible: bool) returns (outcome: Outcome)
      requires Valid()
      modifies this
      ensures Valid()
      ensures Reply(Contents(), outcome) == Apply(old(Contents()), w, vendor, eligible)
    {
      ApplyKeeps(Contents(), w, vendor, eligible);
      if w >= |workOrders| { return Failed(NotFound); }
      if !eligible { return Failed(NotAllowed); }
      var order := workOrders[w];
      if !order.marketplace || order.status != Open || order.vendor.Some? { return Failed(BusinessRule); }
      var existing := FindApplication(w, vendor);
      if existing { return Failed(Conflict); }
      applications := applications + [Application(w, vendor, Submitted)];
      return Done;
    }

    /** The bulk update of an award: the winner, and the others it beats. */
    method Decide(a: nat, waitingOnly: bool)
      requires a < |applications|
      modifies this`applications
      ensures applications == Decided(old(applications), a, waitingOnly)
    {
      var found := applications;
      var i := 0;
      while i < |found|
        invariant 0 <= i <= |found| && |applications| == |found|
        invariant forall k :: 0 <= k < i ==> applications[k] == Decided(found, a, waitingOnly)[k]
        invariant forall k :: i <= k < |found| ==> applications[k] == found[k]
      {
        if i == a {
          applications := applications[i := found[i].(status := Awarded)];
        } else if Loses(found, a, i, waitingOnly) {
          applications := applications[i := found[i].(status := Rejected)];
        }
        i := i + 1;
      }
    }

    method UpdateApplication(a: nat, review: Review) returns (outcome: Outcome)
      requires Valid()
      modifies this`workOrders, this`applications
      ensures Valid()
      ensures Reply(Contents(), outcome) == ReviewApplication(old(Contents()), a, review)
    {
      ReviewKeeps(Contents(), a, review);
      if a >= |applications| { return Failed(NotFound); }
      var app := applications[a];
      var order := workOrders[app.workOrder];
      if app.status == Awarded || app.status == Withdrawn { return Failed(BusinessRule); }
      match review {
        case ToAward =>
          if order.status != Open || order.vendor.Some? { return Failed(Conflict); }
          workOrders := workOrders[app.workOrder := order.(status := AssignedWork, vendor := Some(app.vendor))];
          Decide(a, false);
        case ToReview => applications := applications[a := app.(status := UnderReview)];
        case ToReject => applications := applications[a := app.(status := Rejected)];
        case ToWithdraw => applications := applications[a := app.(status := Withdrawn)];
      }
      return Done;
    }

    method WithdrawApplication(a: nat, vendor: nat) returns (outcome: Outcome)
      requires Valid()
      modifies this
      ensures Valid()
      ensures Reply(Contents(), outcome) == Withdraw(old(Contents()), a, vendor)
    {
      WithdrawKeeps(Contents(), a, vendor);
      if a >= |applications| || applications[a].vendor != vendor { return Failed(NotFound); }
      var app := applications[a];
      if app.status == Awarded || app.status == Rejected { return Failed(BusinessRule); }
      applications := applications[a := app.(status := Withdrawn)];
      return Done;
    }

    // -------------------------------------------------------------- contract awards

    method FindAward(w: nat) returns (found: bool)
      ensures found == HasAward(awards, w)
    {
      found := false;
      var k := 0;
      while k < |awards| && !found
        invariant 0 <= k <= |awards|
        invariant found ==> HasAward(awards, w)
        invariant !found ==> forall l :: 0 <= l < k ==> awards[l].workOrder != w
      {
        found := awards[k].workOrder == w;
        k := k + 1;
      }
    }

    method CreateAward(a: nat) returns (outcome: Outcome)
      requires Valid()
      modifies this
      ensures Valid()
      ensures Reply(Contents(), outcome) == AwardContract(old(Contents()), a)
    {
      AwardKeeps(Contents(), a);
      if a >= |applications| { return Failed(NotFound); }
      var app := applications[a];
      var order := workOrders[app.workOrder];
      if order.status != Open { return Failed(BusinessRule); }
      var existing := FindAward(app.workOrder);
      if existing { return Failed(Conflict); }
      awards := awards + [Award(app.workOrder, a, app.vendor)];
      Decide(a, true);
      workOrders := workOrders[app.workOrder := order.(status := AssignedWork, vendor := Some(app.vendor))];
      return Done;
    }

    // -------------------------------------------------------------- quotations

    method SubmitQuotation(a: nat, vendor: nat, labor: nat, material: nat) returns (outcome: Outcome)
      requires Valid()
      modifies this
      ensures Valid()
      ensures Reply(Contents(), outcome) == Quote(old(Contents()), a, vendor, labor, material)
    {
      QuoteKeeps(Contents(), a, vendor, labor, material);
      if a >= |applications| || applications[a].vendor != vendor { return Failed(NotFound); }
      var total := labor + material;
      quotations := quotations + [Quotation(a, applications[a].workOrder, vendor, Sent, 1, [], total, 0, total)];
      return Done;
    }

    method UpdateQuotation(q: nat, next: QuotationStatus) returns (outcome: Outcome)
      requires Valid()
      modifies this
      ensures Valid()
      ensures Reply(Contents(), outcome) == SetQuotationStatus(old(Contents()), q, next)
    {
      QuotationKeeps(Contents(), q, next);
      if q >= |quotations| { return Failed(NotFound); }
      if !MayBecome(quotations[q].status, next) { return Failed(BusinessRule); }
      if next == Accepted {
        outcome := UpdateApplication(quotations[q].application, ToAward);
        if outcome.Failed? { return; }
      }
      quotations := quotations[q := quotations[q].(status := next)];
      return Done;
    }

    method SumLines(lines: seq<LineItem>) returns (subtotal: int)
      ensures subtotal == Subtotal(lines)
    {
      subtotal := 0;
      var i := 0;
      while i < |lines|
        invariant 0 <= i <= |lines| && subtotal == Subtotal(lines[..i])
      {
        assert lines[..i + 1][..i] == lines[..i];
        subtotal := subtotal + LineTotal(lines[i]);
        i := i + 1;
      }
      assert lines[..i] == lines;
    }

    method CreateRevision(q: nat, vendor: nat, lines: seq<LineItem>, taxAndFees: nat) returns (outcome: Outcome)
      requires Valid()
      modifies this
      ensures Valid()
      ensures Reply(Contents(), outcome) == Revise(old(Contents()), q, vendor, lines, taxAndFees)
    {
      ReviseKeeps(Contents(), q, vendor, lines, taxAndFees);
      if q >= |quotations| || quotations[q].vendor != vendor { return Failed(NotAllowed); }
      var before := quotations[q];
      if before.status == Accepted || before.status == Declined || before.status == Retracted ||
          before.status == Expired {
        return Failed(Conflict);
      }
      var subtotal := SumLines(lines);
      var number := before.currentRevision + 1;
      var revision := Revision(number, lines, subtotal, taxAndFees, subtotal + taxAndFees);
      quotations := quotations[q := before.(status := Sent, currentRevision := number,
                                            revisions := before.revisions + [revision], subtotal := subtotal,
                                            taxAndFees := taxAndFees, total := subtotal + taxAndFees)];
      return Done;
    }
  }
}
