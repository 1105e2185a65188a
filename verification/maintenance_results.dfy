// The whole result of every maintenance operation, from its arguments and the documents it finds.
module MaintenanceResults {
  import opened Wrappers
  import opened Recurrence
  import opened Maintenance
  import opened MaintenanceInvariants
  import opened MaintenanceRuns
  import opened MaintenanceEffects

  // ------------------------------------------------------------------ create

  lemma SameDraftDates(d: Draft, now: int, first: int, dates: seq<int>)
    requires first == if d.recurrence.Some? then d.recurrence.value.start
             else if d.occurrenceDate.Some? then d.occurrenceDate.value else d.planned
    requires Increasing(dates) && forall t :: t in dates <==>
                 if d.recurrence.Some? then IsOccurrenceDate(d.recurrence.value, now + 90 * 86_400_000, t)
                 else t == first
    ensures dates == DraftDates(d, now)
  {
    forall t
      ensures t in dates <==> t in DraftDates(d, now)
    {
      if d.recurrence.Some? {
        InDates(d.recurrence.value, now + 90 * 86_400_000, t);
        IsDueMeetsRule(d.recurrence.value, now + 90 * 86_400_000, t);
      }
    }
    if d.recurrence.Some? { InDates(d.recurrence.value, now + 90 * 86_400_000, first); }
    IncreasingUnique(dates, DraftDates(d, now));
  }

  /** Why a plan is not created: one of the same asset, title and planned date that is not cancelled, or one of
      the same asset and first date. */
  lemma CreateRefusedIff(s: State, d: Draft, first: int)
    requires first == if d.recurrence.Some? then d.recurrence.value.start
             else if d.occurrenceDate.Some? then d.occurrenceDate.value else d.planned
    ensures CreateRefusal(s, d) ==
            if exists q :: 0 <= q < |s.plans| && s.plans[q].asset == d.asset && s.plans[q].title == d.title &&
                           s.plans[q].planned == d.planned && s.plans[q].status != CancelledPlan
            then Some(BusinessRule)
            else if exists q :: 0 <= q < |s.plans| && s.plans[q].asset == d.asset && s.plans[q].occurrenceDate == first
            then Some(DuplicateKey)
            else None
  {
  }

  /** An occurrence as creating a plan stores it: the first one has the default assignee and, from a manager,
      a work order if that can be created; the others are pending and unassigned. */
  predicate IsCreated(o: Occurrence, k: nat, p: nat, at: int, d: Draft, manager: bool, ordered: bool, workOrder: nat)
  {
    var start := Assignment(d.assignee, if d.assignee.None? then [] else
                                        [AssignmentChange(Assigned, None, d.assignee)], None);
    o == if k > 0 then Occurrence(p, at, Scheduled, Pending, None, Assignment(None, [], None))
         else if !manager then Occurrence(p, at, Scheduled, Pending, None, start)
         else if !ordered then Occurrence(p, at, Scheduled, Approved, None, start)
         else Occurrence(p, at, Generated, Approved, Some(workOrder), start)
  }

  lemma NewPlanIs(d: Draft, manager: bool, first: int)
    requires first == if d.recurrence.Some? then d.recurrence.value.start
             else if d.occurrenceDate.Some? then d.occurrenceDate.value else d.planned
    ensures NewPlan(d, manager) ==
            Plan(d.asset, d.title, d.recurrence, d.planned, first, if manager then ApprovedPlan else PendingPlan, true,
                 [], Assignment(d.assignee, if d.assignee.None? then [] else
                                            [AssignmentChange(Assigned, None, d.assignee)], None), manager)
  {
  }

  lemma CreatedAre(os: seq<Occurrence>, after: seq<Occurrence>, d: Draft, manager: bool, ordered: bool, p: nat,
                   dates: seq<int>, workOrder: nat)
    requires |dates| > 0
    requires after == os + [FirstCreated(p, dates[0], manager, ordered, workOrder, d.assignee)] +
                      (if manager && !ordered then [] else AllPending(p, dates[1..]))
    ensures |after| == |os| + (if manager && !ordered then 1 else |dates|) && after[..|os|] == os
    ensures forall k :: |os| <= k < |after| ==>
              IsCreated(after[k], k - |os|, p, dates[k - |os|], d, manager, ordered, workOrder)
  {
  }

  /** Creating a plan: refused without effect, or one plan and one occurrence for each of its dates in the next
      90 days. If a manager's first work order fails, the first occurrence is stored without one and the
      rest is not stored. */
  lemma CreateResult(s: State, d: Draft, manager: bool, now: int, ordered: bool, first: int, dates: seq<int>)
    requires Inv(s)
    requires first == if d.recurrence.Some? then d.recurrence.value.start
             else if d.occurrenceDate.Some? then d.occurrenceDate.value else d.planned
    requires Increasing(dates) && forall t :: t in dates <==>
                 if d.recurrence.Some? then IsOccurrenceDate(d.recurrence.value, now + 90 * 86_400_000, t)
                 else t == first
    ensures var r, n := Create(s, d, manager, now, ordered), |s.occurrences|;
            var failing := manager && !ordered && dates != [];
            if CreateRefusal(s, d).Some? then r == Reply(s, Failed(CreateRefusal(s, d).value))
            else
              && r.outcome == (if failing then Failed(WorkOrderFailed) else Done)
              && r.state.plans == s.plans + [NewPlan(d, manager)]
              && |r.state.occurrences| == n + (if failing then 1 else |dates|)
              && r.state.occurrences[..n] == s.occurrences
              && (forall k :: n <= k < |r.state.occurrences| ==>
                    IsCreated(r.state.occurrences[k], k - n, |s.plans|, dates[k - n], d, manager, ordered,
                              s.nextWorkOrder))
              && r.state.nextWorkOrder == s.nextWorkOrder + (if manager && ordered && dates != [] then 1 else 0)
              && r.state.orphans == s.orphans + (if failing then {n} else {})
  {
    SameDraftDates(d, now, first, dates);
    CreateExact(s, d, manager, now, ordered);
    CreateOrphans(s, d, manager, now, ordered);
    if CreateRefusal(s, d).None? && dates != [] {
      CreatedAre(s.occurrences, Create(s, d, manager, now, ordered).state.occurrences, d, manager, ordered, |s.plans|,
                 dates, s.nextWorkOrder);
    }
  }

  // ------------------------------------------------------------------ approve and reject

  /** Approving an occurrence: only a pending one, whatever its status, and only with a work order. */
  lemma ApproveResult(s: State, i: nat, ordered: bool)
    requires Inv(s)
    ensures var r := ApproveOccurrence(s, i, ordered);
            if i >= |s.occurrences| then r == Reply(s, Failed(NotFound))
            else if s.occurrences[i].approval != Pending then r == Reply(s, Failed(BusinessRule))
            else if !ordered then r == Reply(s, Failed(WorkOrderFailed))
            else
              var o := s.occurrences[i];
              r == Reply(State(s.plans,
                               s.occurrences[i := Occurrence(o.plan, o.at, Generated, Approved, Some(s.nextWorkOrder),
                                                             o.assignment)],
                               s.nextWorkOrder + 1, s.orphans), Done)
  {
    assert i < |s.occurrences| ==> Sound(s.occurrences[i], |s.plans|, s.nextWorkOrder);
  }

  /** The occurrence of a plan that comes first. */
  predicate IsEarliest(os: seq<Occurrence>, p: nat, e: nat)
  {
    e < |os| && os[e].plan == p && forall i :: 0 <= i < |os| && os[i].plan == p && i != e ==> os[e].at < os[i].at
  }

  lemma EarliestIs(os: seq<Occurrence>, p: nat)
    requires OneEachDate(os)
    ensures var e := Earliest(os, p);
            if e.Some? then IsEarliest(os, p, e.value) else forall i :: 0 <= i < |os| ==> os[i].plan != p
  {
  }

  /** Approving a plan: a pending plan whose earliest occurrence is pending, and then that occurrence. */
  lemma ApprovePlanResult(s: State, p: nat, ordered: bool)
    requires Inv(s)
    ensures var r := ApprovePlan(s, p, ordered);
            if p >= |s.plans| then r == Reply(s, Failed(NotFound))
            else if s.plans[p].status != PendingPlan then r == Reply(s, Failed(BusinessRule))
            else
              && ((forall i :: 0 <= i < |s.occurrences| ==> s.occurrences[i].plan != p) ==>
                    r == Reply(s, Failed(BusinessRule)))
              && (forall e :: IsEarliest(s.occurrences, p, e) ==> r == ApproveOccurrence(s, e, ordered))
  {
    EarliestIs(s.occurrences, p);
  }

  /** Rejecting a plan: a pending one, and with it its earliest occurrence if that is pending. */
  lemma RejectPlanResult(s: State, p: nat)
    requires Inv(s)
    ensures var r := RejectPlan(s, p);
            if p >= |s.plans| then r == Reply(s, Failed(NotFound))
            else if s.plans[p].status != PendingPlan then r == Reply(s, Failed(BusinessRule))
            else
              && r.outcome == Done && r.state.plans == s.plans[p := s.plans[p].(status := RejectedPlan)]
              && r.state.nextWorkOrder == s.nextWorkOrder && r.state.orphans == s.orphans
              && |r.state.occurrences| == |s.occurrences|
              && forall i :: 0 <= i < |s.occurrences| ==>
                   r.state.occurrences[i] ==
                   if IsEarliest(s.occurrences, p, i) && s.occurrences[i].approval == Pending
                   then s.occurrences[i].(approval := Rejected) else s.occurrences[i]
  {
    EarliestIs(s.occurrences, p);
  }

  // ------------------------------------------------------------------ skip

  /** The next due date, within the next 90 days. */
  ghost predicate IsNextDue(plan: Plan, now: int, next: Option<int>)
    requires plan.recurrence.Some?
  {
    match next
    case Some(t) =>
      LeastAfter(plan.recurrence.value, plan.planned, t) && DayOf(t) <= UtcDay(now + 90 * 86_400_000)
    case None =>
      forall t :: t > plan.planned && DayOf(t) <= UtcDay(now + 90 * 86_400_000) ==> !IsDue(plan.recurrence.value, t)
  }

  lemma NextDueIs(plan: Plan, now: int, next: Option<int>)
    requires plan.recurrence.Some? && IsNextDue(plan, now, next)
    ensures NextDate(plan, now) == next
  {
    NextIsLeast(plan.recurrence.value, now + 90 * 86_400_000, plan.planned);
  }

  /** The occurrences after what was due on the plan's date is cancelled. */
  predicate DueCancelled(s: State, p: nat, os: seq<Occurrence>)
    requires p < |s.plans|
  {
    && |os| == |s.occurrences|
    && forall i :: 0 <= i < |os| ==>
         os[i] == if s.occurrences[i].plan == p && s.occurrences[i].at == s.plans[p].planned
                  then s.occurrences[i].(status := Cancelled) else s.occurrences[i]
  }

  lemma DueCancelledIs(s: State, p: nat, os: seq<Occurrence>)
    requires Inv(s) && p < |s.plans| && DueCancelled(s, p, os)
    ensures CancelScheduled(s, p, s.plans[p].planned) == s.(occurrences := os)
  {
    var t := CancelScheduled(s, p, s.plans[p].planned);
    forall i | 0 <= i < |s.occurrences|
      ensures |t.occurrences| == |os| && t.occurrences[i] == os[i]
    {
      CancelExact(s, p, s.plans[p].planned, i);
    }
    assert t.occurrences == os;
  }

  /** A plan can be skipped only while it is live, approved and recurring. */
  lemma SkipRefusedIff(s: State, p: nat, now: int, ordered: bool)
    requires Inv(s)
    ensures var r := SkipPlan(s, p, now, ordered);
            if p >= |s.plans| then r == Reply(s, Failed(NotFound))
            else if !s.plans[p].active || s.plans[p].status != ApprovedPlan || s.plans[p].recurrence.None?
            then r == Reply(s, Failed(BusinessRule))
            else r.outcome.Done? <==>
                   && NextDate(s.plans[p], now).Some?
                   && (forall q :: 0 <= q < |s.plans| && q != p && s.plans[q].asset == s.plans[p].asset ==>
                         s.plans[q].occurrenceDate != NextDate(s.plans[p], now).value)
                   && (ordered || exists i :: 0 <= i < |s.occurrences| && s.occurrences[i].plan == p &&
                                              s.occurrences[i].at == NextDate(s.plans[p], now).value)
  {
    if Skippable(s, p) && NextDate(s.plans[p], now).Some? {
      var cancelled := CancelScheduled(s, p, s.plans[p].planned);
      SameFinding(s.occurrences, cancelled.occurrences, p, NextDate(s.plans[p], now).value);
    }
  }

  /** Then its occurrence on the due date is cancelled, and the plan moves to the next due date, if there is one
      within 90 days and no other plan of the asset has it. */
  lemma SkipPlanResult(s: State, p: nat, now: int, ordered: bool, next: Option<int>, os: seq<Occurrence>)
    requires Inv(s) && Skippable(s, p) && DueCancelled(s, p, os) && IsNextDue(s.plans[p], now, next)
    ensures var r, plan := SkipPlan(s, p, now, ordered), s.plans[p];
            if next.None? then r == Reply(s.(occurrences := os), Failed(BusinessRule))
            else if DateTaken(s.plans, p, plan.asset, next.value)
            then r == Reply(s.(occurrences := os), Failed(DuplicateKey))
            else
              var moved := plan.(planned := next.value, occurrenceDate := next.value,
                                 skipped := plan.skipped + [plan.planned]);
              r == CreateOccurrence(State(s.plans[p := moved], os, s.nextWorkOrder, s.orphans), p, next.value, true,
                                    false, ordered)
  {
    DueCancelledIs(s, p, os);
    NextDueIs(s.plans[p], now, next);
  }

  /** What is on a date already is kept. A new occurrence that is approved at once is stored and then gets
      its own work order, or stays without one. */
  lemma CreateOccurrenceResult(s: State, p: nat, at: int, approved: bool, useDefault: bool, ordered: bool)
    requires p < |s.plans|
    ensures var r := CreateOccurrence(s, p, at, approved, useDefault, ordered);
            var assignee := if useDefault then s.plans[p].assignment.current else None;
            var start := Assignment(assignee, if assignee.None? then [] else
                                              [AssignmentChange(Assigned, None, assignee)], None);
            if exists i :: 0 <= i < |s.occurrences| && s.occurrences[i].plan == p && s.occurrences[i].at == at
            then r == Reply(s, Done)
            else if !approved
            then r == Reply(State(s.plans, s.occurrences + [Occurrence(p, at, Scheduled, Pending, None, start)],
                                  s.nextWorkOrder, s.orphans), Done)
            else if !ordered
            then r == Reply(State(s.plans, s.occurrences + [Occurrence(p, at, Scheduled, Approved, None, start)],
                                  s.nextWorkOrder, s.orphans + {|s.occurrences|}), Failed(WorkOrderFailed))
            else
              var o := Occurrence(p, at, Generated, Approved, Some(s.nextWorkOrder), start);
              r == Reply(State(s.plans, s.occurrences + [o], s.nextWorkOrder + 1, s.orphans), Done)
  {
  }

  /** The occurrence-skip route: the occurrence is cancelled, and nothing else changes if no next date is
      given or the plan has an occurrence on it. Otherwise a new one is stored, scheduled, pending and
      without work order, with the skipped one's assignee and an empty history. */
  lemma SkipRouteResult(s: State, i: nat, nextDueAt: Option<int>)
    requires Inv(s)
    ensures var r := SkipOccurrence(s, i, nextDueAt);
            if i >= |s.occurrences| then r == Reply(s, Failed(NotFound))
            else
              var o := s.occurrences[i];
              if o.status == Cancelled then r == Reply(s, Failed(BusinessRule))
              else if nextDueAt.None? ||
                      exists j :: 0 <= j < |s.occurrences| && s.occurrences[j].plan == o.plan &&
                                  s.occurrences[j].at == nextDueAt.value
              then r == Reply(s.(occurrences := s.occurrences[i := o.(status := Cancelled)]), Done)
              else
                var next := Occurrence(o.plan, nextDueAt.value, Scheduled, Pending, None,
                                       Assignment(o.assignment.current, [], o.assignment.current));
                r == Reply(s.(occurrences := s.occurrences[i := o.(status := Cancelled)] + [next]), Done)
  {
    assert i < |s.occurrences| ==> Sound(s.occurrences[i], |s.plans|, s.nextWorkOrder);
  }

  /** The occurrence it creates can be approved, and gets the next work order. */
  lemma SkippedToCanBeApproved(s: State, i: nat, at: int)
    requires Inv(s) && i < |s.occurrences| && s.occurrences[i].status != Cancelled
    requires forall j :: 0 <= j < |s.occurrences| && s.occurrences[j].plan == s.occurrences[i].plan ==>
               s.occurrences[j].at != at
    ensures var t, n := SkipOccurrence(s, i, Some(at)).state, |s.occurrences|;
            var r := ApproveOccurrence(t, n, true);
            && r.outcome == Done && n < |r.state.occurrences|
            && r.state.occurrences[n] ==
               Occurrence(s.occurrences[i].plan, at, Generated, Approved, Some(s.nextWorkOrder),
                          Assignment(s.occurrences[i].assignment.current, [], s.occurrences[i].assignment.current))
  {
    SkipRouteResult(s, i, Some(at));
    RestKeeps(s, i, Some(at), None);
    ApproveResult(SkipOccurrence(s, i, Some(at)).state, |s.occurrences|, true);
  }

  // ------------------------------------------------------------------ archive and assign

  /** The occurrences of a plan before a date. */
  function Before(os: seq<Occurrence>, p: nat, at: int): set<nat>
  {
    set j | 0 <= j < |os| && os[j].plan == p && os[j].at < at :: j
  }

  lemma {:induction false} EarlierCounts(os: seq<Occurrence>, p: nat, at: int)
    ensures Earlier(os, p, at) == |Before(os, p, at)|
  {
    if os != [] {
      var last := |os| - 1;
      EarlierCounts(os[..last], p, at);
      var before := Before(os[..last], p, at);
      if os[last].plan == p && os[last].at < at {
        assert Before(os, p, at) == before + {last};
      } else {
        assert Before(os, p, at) == before;
      }
    }
  }

  /** Archiving: the plan is cancelled and no longer active, and its scheduled occurrences with fewer than a
      thousand earlier ones are cancelled. */
  lemma ArchiveResult(s: State, p: nat)
    requires Inv(s)
    ensures var r := Archive(s, p);
            if p >= |s.plans| then r == Reply(s, Failed(NotFound))
            else
              && r.outcome == Done && r.state.nextWorkOrder == s.nextWorkOrder && r.state.orphans == s.orphans
              && r.state.plans == s.plans[p := s.plans[p].(status := CancelledPlan, active := false)]
              && |r.state.occurrences| == |s.occurrences|
              && forall i :: 0 <= i < |s.occurrences| ==>
                   var o := s.occurrences[i];
                   r.state.occurrences[i] ==
                   if o.plan == p && o.status == Scheduled && |Before(s.occurrences, p, o.at)| < 1000
                   then o.(status := Cancelled) else o
  {
    forall i | 0 <= i < |s.occurrences|
      ensures Earlier(s.occurrences, p, s.occurrences[i].at) == |Before(s.occurrences, p, s.occurrences[i].at)|
      ensures Sound(s.occurrences[i], |s.plans|, s.nextWorkOrder)
    {
      EarlierCounts(s.occurrences, p, s.occurrences[i].at);
    }
  }

  /** An assignment after a target is set or cleared: one more entry that says what was done, except that
      clearing nothing leaves no trace. */
  predicate IsReassigned(a: Assignment, target: Option<Target>, b: Assignment)
  {
    && b.current == target && b.inherited == a.inherited
    && b.history == match (a.current, target)
                    case (None, None) => a.history
                    case (Some(_), None) => a.history + [AssignmentChange(Cleared, a.current, None)]
                    case (None, Some(_)) => a.history + [AssignmentChange(Assigned, None, target)]
                    case (Some(_), Some(_)) => a.history + [AssignmentChange(Action.Reassigned, a.current, target)]
  }

  /** Assigning a plan's default changes the plan alone, and assigning an occurrence that occurrence. */
  lemma AssignResult(s: State, i: nat, target: Option<Target>, b: Assignment)
    ensures var r := AssignPlan(s, i, target);
            if i >= |s.plans| then r == Reply(s, Failed(NotFound))
            else IsReassigned(s.plans[i].assignment, target, b) ==>
                   r == Reply(s.(plans := s.plans[i := s.plans[i].(assignment := b)]), Done)
    ensures var r := AssignOccurrence(s, i, target);
            if i >= |s.occurrences| then r == Reply(s, Failed(NotFound))
            else IsReassigned(s.occurrences[i].assignment, target, b) ==>
                   r == Reply(s.(occurrences := s.occurrences[i := s.occurrences[i].(assignment := b)]), Done)
  {
  }
}
