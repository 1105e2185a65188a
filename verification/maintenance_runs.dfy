// Runs of maintenance operations: the invariant of every reachable state, and which approved occurrences
// are without a work order.
module MaintenanceRuns {
  import opened Wrappers
  import opened Recurrence
  import opened Maintenance
  import opened MaintenanceInvariants

  // ------------------------------------------------------------------ due dates

  /** An instant at which the recurrence is due. */
  predicate IsDue(c: Config, t: int)
    requires c.interval >= 1
  {
    && t == DAY * DayOf(t) && RuleOf(c).first <= DayOf(t) && Matches(RuleOf(c), DayOf(t))
    && (c.end.Some? ==> DayOf(t) <= UtcDay(c.end.value))
  }

  /** `next` is the first due instant after `date`. */
  ghost predicate LeastAfter(c: Config, date: int, next: int)
    requires c.interval >= 1
  {
    IsDue(c, next) && date < next && forall t :: date < t < next ==> !IsDue(c, t)
  }

  lemma InDates(c: Config, horizon: int, t: int)
    requires c.interval >= 1
    ensures t in Dates(c, horizon) <==> IsDue(c, t) && DayOf(t) <= UtcDay(horizon)
    ensures Increasing(Dates(c, horizon))
  {
    var ds := OccurrenceDays(c, horizon);
    InDays(RuleOf(c), EndDay(c, horizon), DayOf(t));
    if t in Dates(c, horizon) {
      var i :| 0 <= i < |ds| && Dates(c, horizon)[i] == t;
      assert t == DAY * ds[i] && DayOf(t) == ds[i];
      assert DayOf(t) in ds;
    }
    if t == DAY * DayOf(t) && DayOf(t) in ds {
      var i :| 0 <= i < |ds| && ds[i] == DayOf(t);
      assert Dates(c, horizon)[i] == t;
    }
  }

  /** The same in the terms of the configuration: what the horizon leaves of it is what the plan generates. */
  lemma IsDueMeetsRule(c: Config, horizon: int, t: int)
    requires c.interval >= 1
    ensures IsDue(c, t) <==>
            t == DAY * DayOf(t) && MeetsRule(c, DayOf(t)) && (c.end.Some? ==> DayOf(t) <= UtcDay(c.end.value))
    ensures IsDue(c, t) && DayOf(t) <= UtcDay(horizon) <==> IsOccurrenceDate(c, horizon, t)
  {
    MeetsRuleMatches(c, DayOf(t));
  }

  lemma {:induction false} NextAfterLeast(dates: seq<int>, date: int, d: int)
    requires Increasing(dates) && d in dates && d > date
    ensures NextAfter(dates, date).Some? && NextAfter(dates, date).value <= d
  {
    assert dates == [dates[0]] + dates[1..];
    if dates[0] <= date {
      NextAfterLeast(dates[1..], date, d);
    }
  }

  /** The date a skip moves to is the first due one after the date it leaves, if that is within the
      horizon; otherwise there is none. */
  lemma NextIsLeast(c: Config, horizon: int, date: int)
    requires c.interval >= 1
    ensures var n := NextAfter(Dates(c, horizon), date);
            && (n.Some? ==> LeastAfter(c, date, n.value) && DayOf(n.value) <= UtcDay(horizon))
            && (n.None? ==> forall t :: t > date && DayOf(t) <= UtcDay(horizon) ==> !IsDue(c, t))
  {
    var dates := Dates(c, horizon);
    var n := NextAfter(dates, date);
    if n.Some? {
      InDates(c, horizon, n.value);
      forall t | date < t < n.value
        ensures !IsDue(c, t)
      {
        InDates(c, horizon, t);
        if IsDue(c, t) { NextAfterLeast(dates, date, t); }
      }
    } else {
      forall t | t > date && DayOf(t) <= UtcDay(horizon)
        ensures !IsDue(c, t)
      {
        InDates(c, horizon, t);
      }
    }
  }

  // ------------------------------------------------------------------ plans

  /** The due dates a plan has been through, and the one it is at. */
  function Chain(plan: Plan): seq<int> { plan.skipped + [plan.planned] }

  ghost predicate Steps(c: Config, chain: seq<int>)
    requires c.interval >= 1
  {
    forall i :: 1 <= i < |chain| ==> LeastAfter(c, chain[i - 1], chain[i])
  }

  ghost predicate PlanSound(plan: Plan)
  {
    && Recorded(plan.assignment)
    && (plan.active <==> plan.status != CancelledPlan)
    && (plan.status == ApprovedPlan <==> plan.byManager && plan.active)
    && (plan.skipped != [] ==> plan.byManager && plan.recurrence.Some?)
    && (plan.recurrence.Some? ==> Steps(plan.recurrence.value, Chain(plan)))
  }

  ghost predicate PlansInv(plans: seq<Plan>)
  {
    && (forall p :: 0 <= p < |plans| ==> PlanSound(plans[p]))
    && (forall p, q :: 0 <= p < q < |plans| && plans[p].asset == plans[q].asset ==>
          plans[p].occurrenceDate != plans[q].occurrenceDate)
  }

  ghost predicate Inv(s: State)
  {
    OccurrencesInv(s) && PlansInv(s.plans)
  }

  lemma NewPlanSound(d: Draft, manager: bool)
    ensures PlanSound(NewPlan(d, manager))
  {
    InitialIsRecorded(d.assignee);
  }

  /** The plan a successful skip leaves. */
  function Moved(plan: Plan, next: int): Plan
  {
    plan.(planned := next, occurrenceDate := next, skipped := plan.skipped + [plan.planned])
  }

  lemma MovedSound(plan: Plan, next: int)
    requires PlanSound(plan) && plan.byManager && plan.recurrence.Some?
    requires LeastAfter(plan.recurrence.value, plan.planned, next)
    ensures PlanSound(Moved(plan, next))
  {
    var before, after := Chain(plan), Chain(Moved(plan, next));
    assert after == before + [next];
  }

  lemma SetPlanKeeps(plans: seq<Plan>, p: nat, plan: Plan)
    requires PlansInv(plans) && p < |plans| && PlanSound(plan) && plan.asset == plans[p].asset
    requires plan.occurrenceDate == plans[p].occurrenceDate || !DateTaken(plans, p, plan.asset, plan.occurrenceDate)
    ensures PlansInv(plans[p := plan])
  {
  }

  lemma MorePlans(s: State, plan: Plan)
    requires OccurrencesInv(s)
    ensures OccurrencesInv(s.(plans := s.plans + [plan]))
  {
  }

  lemma OtherPlan(s: State, p: nat, plan: Plan)
    requires OccurrencesInv(s) && p < |s.plans|
    ensures OccurrencesInv(SetPlan(s, p, plan))
  {
  }

  lemma CreateKeeps(s: State, d: Draft, manager: bool, now: int, ordered: bool)
    requires Inv(s)
    ensures Inv(Create(s, d, manager, now, ordered).state)
  {
    if !Duplicated(s.plans, d.asset, d.title, d.planned) && !DateTaken(s.plans, |s.plans|, d.asset, FirstDate(d)) {
      NewPlanSound(d, manager);
      MorePlans(s, NewPlan(d, manager));
      CreateOccurrencesKeep(s.(plans := s.plans + [NewPlan(d, manager)]), |s.plans|, DraftDates(d, now), manager,
                            true, ordered);
    }
  }

  lemma SkipPlanKeeps(s: State, p: nat, now: int, ordered: bool)
    requires Inv(s)
    ensures Inv(SkipPlan(s, p, now, ordered).state)
  {
    if p < |s.plans| {
      var plan := s.plans[p];
      if plan.active && plan.status == ApprovedPlan && plan.recurrence.Some? {
        CancelScheduledKeeps(s, p, plan.planned);
        var cancelled, horizon := CancelScheduled(s, p, plan.planned), now + HORIZON_DAYS * DAY;
        var next := NextAfter(Dates(plan.recurrence.value, horizon), plan.planned);
        NextIsLeast(plan.recurrence.value, horizon, plan.planned);
        if next.Some? && !DateTaken(s.plans, p, plan.asset, next.value) {
          MovedSound(plan, next.value);
          SetPlanKeeps(s.plans, p, Moved(plan, next.value));
          OtherPlan(cancelled, p, Moved(plan, next.value));
          CreateOccurrenceKeeps(SetPlan(cancelled, p, Moved(plan, next.value)), p, next.value, true, false, ordered);
        }
      }
    }
  }

  lemma ApprovalKeeps(s: State, i: nat, p: nat, ordered: bool)
    requires Inv(s)
    ensures Inv(ApproveOccurrence(s, i, ordered).state)
    ensures Inv(ApprovePlan(s, p, ordered).state)
  {
    if i < |s.occurrences| && s.occurrences[i].approval == Pending {
      ApproveRecordKeeps(s, i, ordered);
    }
    var first := Earliest(s.occurrences, p);
    if first.Some? && s.occurrences[first.value].approval == Pending {
      ApproveRecordKeeps(s, first.value, ordered);
    }
  }

  lemma RejectPlanKeeps(s: State, p: nat)
    requires Inv(s)
    ensures Inv(RejectPlan(s, p).state)
  {
    if p < |s.plans| && s.plans[p].status == PendingPlan {
      RejectFirstKeeps(s, p);
      SetPlanKeeps(s.plans, p, s.plans[p].(status := RejectedPlan));
      OtherPlan(RejectFirst(s, p), p, s.plans[p].(status := RejectedPlan));
    }
  }

  lemma ArchivePlanKeeps(s: State, p: nat)
    requires Inv(s)
    ensures Inv(Archive(s, p).state)
  {
    ArchiveKeeps(s, p);
    if p < |s.plans| {
      SetPlanKeeps(s.plans, p, s.plans[p].(status := CancelledPlan, active := false));
    }
  }

  lemma AssignPlanKeeps(s: State, p: nat, target: Option<Target>)
    requires Inv(s)
    ensures Inv(AssignPlan(s, p, target).state)
  {
    if p < |s.plans| {
      var plan := s.plans[p].(assignment := Reassign(s.plans[p].assignment, target));
      ReassignIsRecorded(s.plans[p].assignment, target);
      SetPlanKeeps(s.plans, p, plan);
      OtherPlan(s, p, plan);
    }
  }

  lemma RestKeeps(s: State, i: nat, nextDueAt: Option<int>, target: Option<Target>)
    requires Inv(s)
    ensures Inv(SkipOccurrence(s, i, nextDueAt).state)
    ensures Inv(AssignOccurrence(s, i, target).state)
  {
    SkipOccurrenceKeeps(s, i, nextDueAt);
    AssignOccurrenceKeeps(s, i, target);
  }

  lemma StepKeeps(s: State, op: Op)
    requires Inv(s)
    ensures Inv(Step(s, op).state)
  {
    match op
    case CreateOp(d, manager, now, ordered) => CreateKeeps(s, d, manager, now, ordered);
    case ApproveOccurrenceOp(i, ordered) => ApprovalKeeps(s, i, 0, ordered);
    case ApprovePlanOp(p, ordered) => ApprovalKeeps(s, 0, p, ordered);
    case RejectPlanOp(p) => RejectPlanKeeps(s, p);
    case SkipPlanOp(p, now, ordered) => SkipPlanKeeps(s, p, now, ordered);
    case SkipOccurrenceOp(i, nextDueAt) => RestKeeps(s, i, nextDueAt, None);
    case ArchiveOp(p) => ArchivePlanKeeps(s, p);
    case AssignPlanOp(p, target) => AssignPlanKeeps(s, p, target);
    case AssignOccurrenceOp(i, target) => RestKeeps(s, i, None, target);
  }

  // ------------------------------------------------------------------ every run

  /** The documents after a run from the empty collections. */
  function After(ops: seq<Op>): State
  {
    if ops == [] then EMPTY else Step(After(ops[..|ops| - 1]), ops[|ops| - 1]).state
  }

  lemma {:induction false} RunKeeps(ops: seq<Op>)
    ensures Inv(After(ops))
  {
    if ops != [] {
      RunKeeps(ops[..|ops| - 1]);
      StepKeeps(After(ops[..|ops| - 1]), ops[|ops| - 1]);
    }
  }

  /** Over every run a plan is approved exactly while a manager's plan is not archived: approving the
      occurrences of a submitted plan leaves its own status as it was, so it can never be skipped. */
  lemma ApprovedPlanIff(ops: seq<Op>, p: nat)
    requires p < |After(ops).plans|
    ensures var plan := After(ops).plans[p];
            && (plan.status == ApprovedPlan <==> plan.byManager && plan.active)
            && (!plan.byManager ==> plan.skipped == [])
  {
    RunKeeps(ops);
    assert PlanSound(After(ops).plans[p]);
  }

  // ------------------------------------------------------------------ missing work orders

  /** The date a skip moves the plan to. */
  function NextDate(plan: Plan, now: int): Option<int>
    requires plan.recurrence.Some?
  {
    NextAfter(Dates(plan.recurrence.value, now + HORIZON_DAYS * DAY), plan.planned)
  }

  predicate Skippable(s: State, p: nat)
  {
    p < |s.plans| && s.plans[p].active && s.plans[p].status == ApprovedPlan && s.plans[p].recurrence.Some?
  }

  /** A skip reaches the creation of a new occurrence. */
  predicate SkipCreates(s: State, p: nat, now: int)
  {
    && Skippable(s, p) && NextDate(s.plans[p], now).Some?
    && !DateTaken(s.plans, p, s.plans[p].asset, NextDate(s.plans[p], now).value)
    && FindBySchedule(s.occurrences, p, NextDate(s.plans[p], now).value).None?
  }

  /** The operations that store an approved occurrence whose work order then fails: a manager's creation
      of a plan with a date, and a skip to a date without occurrence. */
  predicate LeavesUnordered(s: State, op: Op)
  {
    match op
    case CreateOp(d, manager, now, ordered) =>
      && !ordered && manager && DraftDates(d, now) != []
      && !Duplicated(s.plans, d.asset, d.title, d.planned) && !DateTaken(s.plans, |s.plans|, d.asset, FirstDate(d))
    case SkipPlanOp(p, now, ordered) => !ordered && SkipCreates(s, p, now)
    case _ => false
  }

  /** A plan has nothing on the given dates yet. */
  predicate NoneOn(os: seq<Occurrence>, p: nat, dates: seq<int>)
  {
    forall k :: 0 <= k < |dates| ==> FindBySchedule(os, p, dates[k]).None?
  }

  /** A new plan has none on its own dates, which rise. */
  lemma NewPlanHasNone(s: State, d: Draft, now: int)
    requires Inv(s)
    ensures NoneOn(s.occurrences, |s.plans|, DraftDates(d, now)) && Increasing(DraftDates(d, now))
  {
    if d.recurrence.Some? { InDates(d.recurrence.value, now + HORIZON_DAYS * DAY, 0); }
    forall k | 0 <= k < |DraftDates(d, now)|
      ensures FindBySchedule(s.occurrences, |s.plans|, DraftDates(d, now)[k]).None?
    {
      assert Inv(s);
    }
  }

  lemma {:induction false} NoNewOrphans(s: State, p: nat, dates: seq<int>, approveFirst: bool, first: bool,
                                        ordered: bool)
    requires p < |s.plans| && (ordered || !approveFirst || !first)
    ensures CreateOccurrences(s, p, dates, approveFirst, first, ordered).state.orphans == s.orphans
    decreases |dates|
  {
    if dates != [] {
      var r := CreateOccurrence(s, p, dates[0], approveFirst && first, first, ordered);
      if r.outcome.Done? { NoNewOrphans(r.state, p, dates[1..], approveFirst, false, ordered); }
    }
  }

  lemma CreateOrphans(s: State, d: Draft, manager: bool, now: int, ordered: bool)
    requires Inv(s)
    ensures Create(s, d, manager, now, ordered).state.orphans ==
            if LeavesUnordered(s, CreateOp(d, manager, now, ordered)) then s.orphans + {|s.occurrences|} else s.orphans
  {
    var t, p, dates := s.(plans := s.plans + [NewPlan(d, manager)]), |s.plans|, DraftDates(d, now);
    NewPlanHasNone(s, d, now);
    if ordered || !manager {
      NoNewOrphans(t, p, dates, manager, true, ordered);
    } else if dates != [] {
      assert FindBySchedule(s.occurrences, p, dates[0]).None?;
    }
  }

  lemma SkipOrphans(s: State, p: nat, now: int, ordered: bool)
    ensures SkipPlan(s, p, now, ordered).state.orphans ==
            if LeavesUnordered(s, SkipPlanOp(p, now, ordered)) then s.orphans + {|s.occurrences|} else s.orphans
  {
    if Skippable(s, p) && NextDate(s.plans[p], now).Some? {
      var cancelled := CancelScheduled(s, p, s.plans[p].planned);
      SameFinding(s.occurrences, cancelled.occurrences, p, NextDate(s.plans[p], now).value);
    }
  }

  lemma ApprovalOrphans(s: State, i: nat, p: nat, ordered: bool)
    ensures ApproveOccurrence(s, i, ordered).state.orphans == s.orphans
    ensures ApprovePlan(s, p, ordered).state.orphans == s.orphans && RejectPlan(s, p).state.orphans == s.orphans
  {
  }

  lemma RestOrphans(s: State, op: Op)
    requires op.SkipOccurrenceOp? || op.ArchiveOp? || op.AssignPlanOp? || op.AssignOccurrenceOp?
    ensures Step(s, op).state.orphans == s.orphans
  {
  }

  /** Each operation exactly: which ones add an approved occurrence without a work order, and which one
      that is. None ever gives such an occurrence its work order. */
  lemma StepOrphans(s: State, op: Op)
    requires Inv(s)
    ensures Step(s, op).state.orphans == if LeavesUnordered(s, op) then s.orphans + {|s.occurrences|} else s.orphans
    ensures |s.occurrences| !in s.orphans
  {
    match op
    case CreateOp(d, manager, now, ordered) => CreateOrphans(s, d, manager, now, ordered);
    case SkipPlanOp(p, now, ordered) => SkipOrphans(s, p, now, ordered);
    case ApproveOccurrenceOp(i, ordered) => ApprovalOrphans(s, i, 0, ordered);
    case ApprovePlanOp(p, ordered) => ApprovalOrphans(s, 0, p, ordered);
    case RejectPlanOp(p) => ApprovalOrphans(s, 0, p, true);
    case _ => RestOrphans(s, op);
  }

  /** Occurrence `i` was stored by an operation whose work order failed. */
  ghost predicate LeftUnordered(ops: seq<Op>, i: nat)
  {
    exists n :: 0 <= n < |ops| && LeavesUnordered(After(ops[..n]), ops[n]) && i == |After(ops[..n]).occurrences|
  }

  lemma LeftOneMore(ops: seq<Op>, last: Op, i: nat)
    ensures LeftUnordered(ops + [last], i) <==>
            LeftUnordered(ops, i) || (LeavesUnordered(After(ops), last) && i == |After(ops).occurrences|)
  {
    var all := ops + [last];
    assert all[..|ops|] == ops && all[|ops|] == last;
    forall n | 0 <= n < |ops|
      ensures all[..n] == ops[..n] && all[n] == ops[n]
    {
    }
  }

  ghost predicate OrphanWasLeft(ops: seq<Op>, i: nat)
  {
    i in After(ops).orphans <==> LeftUnordered(ops, i)
  }

  lemma OrphansOneMore(ops: seq<Op>, last: Op, i: nat)
    requires OrphanWasLeft(ops, i)
    ensures OrphanWasLeft(ops + [last], i)
  {
    assert (ops + [last])[..|ops|] == ops;
    RunKeeps(ops);
    StepOrphans(After(ops), last);
    LeftOneMore(ops, last, i);
  }

  lemma {:induction false} OrphansWereLeft(ops: seq<Op>, i: nat)
    ensures OrphanWasLeft(ops, i)
  {
    if ops != [] {
      var init, last := ops[..|ops| - 1], ops[|ops| - 1];
      OrphansWereLeft(init, i);
      OrphansOneMore(init, last, i);
      assert ops == init + [last];
    }
  }

  /** Over every run: no two occurrences of a plan share a date; an occurrence has a work order exactly
      when it is approved and was not stored by an operation whose work order failed; `generated` implies
      both; work orders are never shared; nothing is ever completed; and the assignment history of every
      occurrence leads to its assignee. */
  lemma EveryRun(ops: seq<Op>, i: nat, j: nat)
    requires i < |After(ops).occurrences| && j < |After(ops).occurrences|
    ensures var s := After(ops); var a, b := s.occurrences[i], s.occurrences[j];
            && (a.workOrder.Some? <==> a.approval == Approved && !LeftUnordered(ops, i))
            && (LeftUnordered(ops, i) ==> a.approval == Approved)
            && (a.status == Generated ==> a.approval == Approved && a.workOrder.Some?)
            && a.status != Completed
            && (i != j && a.plan == b.plan ==> a.at != b.at)
            && (i != j && a.workOrder.Some? ==> a.workOrder != b.workOrder)
            && Recorded(a.assignment)
  {
    RunKeeps(ops);
    OrphansWereLeft(ops, i);
  }

  predicate Ordered(op: Op)
  {
    match op
    case CreateOp(_, _, _, ordered) => ordered
    case ApproveOccurrenceOp(_, ordered) => ordered
    case ApprovePlanOp(_, ordered) => ordered
    case SkipPlanOp(_, _, ordered) => ordered
    case _ => true
  }

  /** As long as every work order can be created, approved means having a work order. */
  lemma {:induction false} ApprovedMeansOrdered(ops: seq<Op>)
    requires forall i :: 0 <= i < |ops| ==> Ordered(ops[i])
    ensures After(ops).orphans == {}
    ensures forall i :: 0 <= i < |After(ops).occurrences| ==>
              (After(ops).occurrences[i].approval == Approved <==> After(ops).occurrences[i].workOrder.Some?)
  {
    if ops != [] {
      ApprovedMeansOrdered(ops[..|ops| - 1]);
      RunKeeps(ops[..|ops| - 1]);
      StepOrphans(After(ops[..|ops| - 1]), ops[|ops| - 1]);
    }
    RunKeeps(ops);
  }

  /** A skip fails over its work order exactly when it reaches the creation of a new occurrence and the
      order fails; the plan has moved by then, and its new occurrence stays approved, without a work
      order and beyond any later approval. */
  lemma SkipLeavesUnorderedIff(s: State, p: nat, now: int, ordered: bool)
    requires Inv(s)
    ensures var r := SkipPlan(s, p, now, ordered); var i := |s.occurrences|;
            && (r.outcome == Failed(WorkOrderFailed) <==> !ordered && SkipCreates(s, p, now))
            && (r.outcome == Failed(WorkOrderFailed) ==>
                  && r.state.plans[p] == Moved(s.plans[p], NextDate(s.plans[p], now).value)
                  && |r.state.occurrences| == i + 1
                  && r.state.occurrences[i].approval == Approved && r.state.occurrences[i].workOrder.None?
                  && ApproveOccurrence(r.state, i, true) == Reply(r.state, Failed(BusinessRule)))
  {
    if Skippable(s, p) && NextDate(s.plans[p], now).Some? {
      var cancelled := CancelScheduled(s, p, s.plans[p].planned);
      SameFinding(s.occurrences, cancelled.occurrences, p, NextDate(s.plans[p], now).value);
    }
  }
}
