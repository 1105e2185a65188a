// The maintenance service: plans and occurrences changed in place, one method per operation. Each
// method is proved to do exactly what the operation of `Maintenance` says, failures included.
module MaintenanceService {
  import opened Wrappers
  import opened Recurrence
  import opened Maintenance
  import opened MaintenanceRuns

  class PMService {
    var plans: seq<Plan>
    var occurrences: seq<Occurrence>
    var nextWorkOrder: nat
    ghost var orphans: set<nat>

    ghost function Contents(): State
      reads this
    {
      State(plans, occurrences, nextWorkOrder, orphans)
    }

    ghost predicate Valid()
      reads this
    {
      Inv(Contents())
    }

    constructor ()
      ensures Valid() && Contents() == EMPTY
    {
      plans, occurrences, nextWorkOrder, orphans := [], [], 0, {};
    }

    // -------------------------------------------------------------- look-ups

    method SearchSchedule(p: nat, at: int) returns (found: Option<nat>)
      ensures found == FindBySchedule(occurrences, p, at)
    {
      var i := |occurrences|;
      assert occurrences[..i] == occurrences;
      while i > 0
        invariant 0 <= i <= |occurrences|
        invariant FindBySchedule(occurrences, p, at) == FindBySchedule(occurrences[..i], p, at)
      {
        i := i - 1;
        assert occurrences[..i + 1][..i] == occurrences[..i];
        if occurrences[i].plan == p && occurrences[i].at == at { return Some(i); }
      }
      return None;
    }

    method SearchEarliest(p: nat) returns (found: Option<nat>)
      ensures found == Earliest(occurrences, p)
    {
      found := None;
      var i := 0;
      while i < |occurrences|
        invariant 0 <= i <= |occurrences|
        invariant found == Earliest(occurrences[..i], p)
      {
        assert occurrences[..i + 1][..i] == occurrences[..i];
        if occurrences[i].plan == p && (found.None? || occurrences[found.value].at > occurrences[i].at) {
          found := Some(i);
        }
        i := i + 1;
      }
      assert occurrences[..i] == occurrences;
    }

    method PlanWith(p: nat, asset: nat, date: int) returns (taken: bool)
      ensures taken == DateTaken(plans, p, asset, date)
    {
      taken := false;
      var q := 0;
      while q < |plans| && !taken
        invariant 0 <= q <= |plans|
        invariant taken ==> DateTaken(plans, p, asset, date)
        invariant !taken ==> forall k :: 0 <= k < q ==>
                               !(k != p && plans[k].asset == asset && plans[k].occurrenceDate == date)
      {
        taken := q != p && plans[q].asset == asset && plans[q].occurrenceDate == date;
        q := q + 1;
      }
    }

    method FindDuplicate(d: Draft) returns (found: bool)
      ensures found == Duplicated(plans, d.asset, d.title, d.planned)
    {
      found := false;
      var q := 0;
      while q < |plans| && !found
        invariant 0 <= q <= |plans|
        invariant found ==> Duplicated(plans, d.asset, d.title, d.planned)
        invariant !found ==> forall k :: 0 <= k < q ==>
                               !(plans[k].asset == d.asset && plans[k].title == d.title &&
                                 plans[k].planned == d.planned && plans[k].status != CancelledPlan)
      {
        found := plans[q].asset == d.asset && plans[q].title == d.title &&
                 plans[q].planned == d.planned && plans[q].status != CancelledPlan;
        q := q + 1;
      }
    }

    // -------------------------------------------------------------- occurrences

    method StoreOccurrence(p: nat, at: int, approved: bool, useDefault: bool, ordered: bool) returns (outcome: Outcome)
      requires p < |plans|
      modifies this`occurrences, this`nextWorkOrder, this`orphans
      ensures Reply(Contents(), outcome) == CreateOccurrence(old(Contents()), p, at, approved, useDefault, ordered)
    {
      var existing := SearchSchedule(p, at);
      if existing.Some? { return Done; }
      var o := NewOccurrence(plans[p], p, at, approved, useDefault);
      occurrences := occurrences + [o];
      if approved {
        var i := |occurrences| - 1;
        if !ordered {
          orphans := orphans + {i};
          return Failed(WorkOrderFailed);
        }
        o := o.(workOrder := Some(nextWorkOrder), status := Generated);
        occurrences := occurrences[i := o];
        nextWorkOrder := nextWorkOrder + 1;
      }
      return Done;
    }

    method StoreOccurrences(p: nat, dates: seq<int>, manager: bool, ordered: bool) returns (outcome: Outcome)
      requires p < |plans|
      modifies this`occurrences, this`nextWorkOrder, this`orphans
      ensures Reply(Contents(), outcome) == CreateOccurrences(old(Contents()), p, dates, manager, true, ordered)
    {
      ghost var all := CreateOccurrences(Contents(), p, dates, manager, true, ordered);
      var index := 0;
      assert dates[0..] == dates;
      while index < |dates|
        invariant 0 <= index <= |dates|
        invariant all == CreateOccurrences(Contents(), p, dates[index..], manager, index == 0, ordered)
      {
        assert dates[index..][1..] == dates[index + 1..];
        outcome := StoreOccurrence(p, dates[index], manager && index == 0, index == 0, ordered);
        if outcome.Failed? { return; }
        index := index + 1;
      }
      return Done;
    }

    method PlanDates(d: Draft, now: int) returns (dates: seq<int>)
      ensures dates == DraftDates(d, now)
    {
      if d.recurrence.Some? {
        dates := GenerateOccurrenceDates(d.recurrence.value, now + HORIZON_DAYS * DAY);
        assert dates == Dates(d.recurrence.value, now + HORIZON_DAYS * DAY);
      } else {
        dates := [FirstDate(d)];
      }
    }

    method CreatePlan(d: Draft, manager: bool, now: int, ordered: bool) returns (outcome: Outcome)
      requires Valid()
      modifies this
      ensures Valid()
      ensures Reply(Contents(), outcome) == Create(old(Contents()), d, manager, now, ordered)
    {
      ghost var before := Contents();
      CreateKeeps(before, d, manager, now, ordered);
      var duplicate := FindDuplicate(d);
      if duplicate { return Failed(BusinessRule); }
      var taken := PlanWith(|plans|, d.asset, FirstDate(d));
      if taken { return Failed(DuplicateKey); }
      var p := |plans|;
      plans := plans + [NewPlan(d, manager)];
      var dates := PlanDates(d, now);
      outcome := StoreOccurrences(p, dates, manager, ordered);
    }

    /** Approves one occurrence: under its own work order or a fresh one, touching no other; and if the order
        fails, not at all. */
    method OrderFor(i: nat, ordered: bool) returns (outcome: Outcome)
      requires i < |occurrences|
      modifies this`occurrences, this`nextWorkOrder
      ensures |occurrences| == |old(occurrences)|
      ensures outcome == Done ==>
                && occurrences[i].approval == Approved && occurrences[i].status == Generated
                && occurrences[i].workOrder == if old(occurrences)[i].workOrder.Some? then old(occurrences)[i].workOrder
                                               else Some(old(nextWorkOrder))
      ensures forall j :: 0 <= j < |occurrences| && j != i ==> occurrences[j] == old(occurrences)[j]
      ensures outcome != Done ==> occurrences == old(occurrences) && nextWorkOrder == old(nextWorkOrder)
      ensures Reply(Contents(), outcome) == ApproveRecord(old(Contents()), i, ordered)
    {
      var o := occurrences[i];
      var workOrder := o.workOrder;
      if workOrder.None? {
        if !ordered { return Failed(WorkOrderFailed); }
        workOrder := Some(nextWorkOrder);
        nextWorkOrder := nextWorkOrder + 1;
      }
      occurrences := occurrences[i := o.(approval := Approved, workOrder := workOrder, status := Generated)];
      return Done;
    }

    method Approve(p: nat, ordered: bool) returns (outcome: Outcome)
      requires Valid()
      modifies this
      ensures Valid()
      ensures Reply(Contents(), outcome) == ApprovePlan(old(Contents()), p, ordered)
    {
      ApprovalKeeps(Contents(), 0, p, ordered);
      if p >= |plans| { return Failed(NotFound); }
      if plans[p].status != PendingPlan { return Failed(BusinessRule); }
      var first := SearchEarliest(p);
      if first.None? || occurrences[first.value].approval != Pending { return Failed(BusinessRule); }
      outcome := OrderFor(first.value, ordered);
    }

    method ApproveOne(i: nat, ordered: bool) returns (outcome: Outcome)
      requires Valid()
      modifies this
      ensures Valid()
      ensures Reply(Contents(), outcome) == ApproveOccurrence(old(Contents()), i, ordered)
    {
      ApprovalKeeps(Contents(), i, 0, ordered);
      if i >= |occurrences| { return Failed(NotFound); }
      if occurrences[i].approval != Pending { return Failed(BusinessRule); }
      outcome := OrderFor(i, ordered);
    }

    method Reject(p: nat) returns (outcome: Outcome)
      requires Valid()
      modifies this
      ensures Valid()
      ensures Reply(Contents(), outcome) == RejectPlan(old(Contents()), p)
    {
      RejectPlanKeeps(Contents(), p);
      if p >= |plans| { return Failed(NotFound); }
      if plans[p].status != PendingPlan { return Failed(BusinessRule); }
      var first := SearchEarliest(p);
      if first.Some? && occurrences[first.value].approval == Pending {
        var o := occurrences[first.value].(approval := Rejected);
        occurrences := occurrences[first.value := o];
      }
      plans := plans[p := plans[p].(status := RejectedPlan)];
      return Done;
    }

    // -------------------------------------------------------------- skipping

    method CancelOn(p: nat, date: int)
      modifies this`occurrences
      ensures Contents() == CancelScheduled(old(Contents()), p, date)
    {
      var i := SearchSchedule(p, date);
      if i.Some? && occurrences[i.value].status != Completed && occurrences[i.value].status != Cancelled {
        occurrences := occurrences[i.value := occurrences[i.value].(status := Cancelled)];
      }
    }

    method FirstAfter(c: Recurring, now: int, date: int) returns (next: Option<int>)
      ensures next == NextAfter(Dates(c, now + HORIZON_DAYS * DAY), date)
    {
      var dates := GenerateOccurrenceDates(c, now + HORIZON_DAYS * DAY);
      assert dates == Dates(c, now + HORIZON_DAYS * DAY);
      var k := 0;
      while k < |dates|
        invariant 0 <= k <= |dates|
        invariant NextAfter(dates, date) == NextAfter(dates[k..], date)
      {
        assert dates[k..][1..] == dates[k + 1..];
        if dates[k] > date { return Some(dates[k]); }
        k := k + 1;
      }
      return None;
    }

    method Skip(p: nat, now: int, ordered: bool) returns (outcome: Outcome)
      requires Valid()
      modifies this
      ensures Valid()
      ensures Reply(Contents(), outcome) == SkipPlan(old(Contents()), p, now, ordered)
    {
      SkipPlanKeeps(Contents(), p, now, ordered);
      if p >= |plans| { return Failed(NotFound); }
      var plan := plans[p];
      if !plan.active || plan.status != ApprovedPlan || plan.recurrence.None? { return Failed(BusinessRule); }
      CancelOn(p, plan.planned);
      var next := FirstAfter(plan.recurrence.value, now, plan.planned);
      if next.None? { return Failed(BusinessRule); }
      var taken := PlanWith(p, plan.asset, next.value);
      if taken { return Failed(DuplicateKey); }
      plans := plans[p := plan.(planned := next.value, occurrenceDate := next.value,
                                skipped := plan.skipped + [plan.planned])];
      outcome := StoreOccurrence(p, next.value, true, false, ordered);
    }

    method SkipOne(i: nat, nextDueAt: Option<int>) returns (outcome: Outcome)
      requires Valid()
      modifies this
      ensures Valid()
      ensures Reply(Contents(), outcome) == SkipOccurrence(old(Contents()), i, nextDueAt)
    {
      RestKeeps(Contents(), i, nextDueAt, None);
      if i >= |occurrences| { return Failed(NotFound); }
      var o := occurrences[i];
      if o.status == Completed || o.status == Cancelled { return Failed(BusinessRule); }
      var occupied := None;
      if nextDueAt.Some? { occupied := SearchSchedule(o.plan, nextDueAt.value); }
      occurrences := occurrences[i := o.(status := Cancelled)];
      if nextDueAt.Some? && occupied.None? {
        occurrences := occurrences + [Occurrence(o.plan, nextDueAt.value, Scheduled, Pending, None,
                                                 Assignment(o.assignment.current, [], o.assignment.current))];
      }
      return Done;
    }

    // -------------------------------------------------------------- archiving and assignments

    method ArchivePlan(p: nat) returns (outcome: Outcome)
      requires Valid()
      modifies this
      ensures Valid()
      ensures Reply(Contents(), outcome) == Archive(old(Contents()), p)
    {
      ArchivePlanKeeps(Contents(), p);
      if p >= |plans| { return Failed(NotFound); }
      var found := occurrences;
      ghost var done := ArchivedOccurrences(found, p);
      var i := 0;
      while i < |found|
        invariant 0 <= i <= |found| && |occurrences| == |found|
        invariant plans == old(plans) && nextWorkOrder == old(nextWorkOrder) && orphans == old(orphans)
        invariant forall k :: 0 <= k < i ==> occurrences[k] == done[k]
        invariant forall k :: i <= k < |found| ==> occurrences[k] == found[k]
      {
        if Archivable(found, p, found[i]) {
          occurrences := occurrences[i := found[i].(status := Cancelled)];
        }
        i := i + 1;
      }
      assert occurrences == done;
      plans := plans[p := plans[p].(status := CancelledPlan, active := false)];
      return Done;
    }

    method SetDefaultAssignee(p: nat, target: Option<Target>) returns (outcome: Outcome)
      requires Valid()
      modifies this
      ensures Valid()
      ensures Reply(Contents(), outcome) == AssignPlan(old(Contents()), p, target)
    {
      AssignPlanKeeps(Contents(), p, target);
      if p >= |plans| { return Failed(NotFound); }
      plans := plans[p := plans[p].(assignment := Reassign(plans[p].assignment, target))];
      return Done;
    }

    method SetAssignee(i: nat, target: Option<Target>) returns (outcome: Outcome)
      requires Valid()
      modifies this
      ensures Valid()
      ensures Reply(Contents(), outcome) == AssignOccurrence(old(Contents()), i, target)
    {
      RestKeeps(Contents(), i, None, target);
      if i >= |occurrences| { return Failed(NotFound); }
      occurrences := occurrences[i := occurrences[i].(assignment := Reassign(occurrences[i].assignment, target))];
      return Done;
    }
  }
}
