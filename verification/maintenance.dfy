// Preventive maintenance of one organization: plans, their occurrences, and what each operation of
// the service and of the occurrence-skip route does to them. Work-order creation is an outcome
// chosen by the environment (`ordered`): it either yields a fresh work order or fails.
module Maintenance {
  import opened Wrappers
  import opened Recurrence

  const HORIZON_DAYS := 90
  const ARCHIVE_LIMIT := 1000

  datatype PlanStatus = PendingPlan | ApprovedPlan | RejectedPlan | CancelledPlan
  datatype OccurrenceStatus = Scheduled | Generated | Completed | Cancelled
  datatype Approval = Pending | Approved | Rejected

  /** A recurrence as the schema lets it be stored. */
  type Recurring = c: Config | ValidConfig(c) witness Config(Daily, 1, 0, None, [], None)

  type Target = nat

  datatype Action = Assigned | Reassigned | Cleared

  datatype AssignmentChange = AssignmentChange(action: Action, previous: Option<Target>, target: Option<Target>)

  /** `inherited` is the assignment a document starts with and no history entry records. */
  datatype Assignment = Assignment(current: Option<Target>, history: seq<AssignmentChange>, inherited: Option<Target>)

  /** `byManager`: the creator could approve maintenance. `skipped`: the due dates skipped so far. */
  datatype Plan = Plan(asset: nat, title: string, recurrence: Option<Recurring>, planned: int, occurrenceDate: int,
                       status: PlanStatus, active: bool, skipped: seq<int>, assignment: Assignment, byManager: bool)

  datatype Occurrence = Occurrence(plan: nat, at: int, status: OccurrenceStatus, approval: Approval,
                                   workOrder: Option<nat>, assignment: Assignment)

  /** Documents are identified by their position. `orphans` are the occurrences stored as approved
      whose work order could not be created. */
  datatype State = State(plans: seq<Plan>, occurrences: seq<Occurrence>, nextWorkOrder: nat, orphans: set<nat>)

  const EMPTY := State([], [], 0, {})

  datatype Error = NotFound | BusinessRule | DuplicateKey | WorkOrderFailed

  datatype Outcome = Done | Failed(error: Error)

  /** Operations are not transactions: a failing one may have changed the documents already. */
  datatype Reply = Reply(state: State, outcome: Outcome)

  // ------------------------------------------------------------------ dates and look-ups

  function Dates(c: Config, horizon: int): seq<int>
    requires c.interval >= 1
  {
    seq(|OccurrenceDays(c, horizon)|, i requires 0 <= i < |OccurrenceDays(c, horizon)| =>
      DAY * OccurrenceDays(c, horizon)[i])
  }

  /** The occurrence of a plan on a date. */
  function FindBySchedule(os: seq<Occurrence>, p: nat, at: int): (r: Option<nat>)
    ensures r.Some? ==> r.value < |os| && os[r.value].plan == p && os[r.value].at == at
    ensures r.None? ==> forall i :: 0 <= i < |os| ==> !(os[i].plan == p && os[i].at == at)
  {
    if os == [] then None
    else
      var last := |os| - 1;
      if os[last].plan == p && os[last].at == at then Some(last) else FindBySchedule(os[..last], p, at)
  }

  /** The occurrence of a plan with the earliest date. */
  function Earliest(os: seq<Occurrence>, p: nat): (r: Option<nat>)
    ensures r.Some? ==> r.value < |os| && os[r.value].plan == p &&
                        forall i :: 0 <= i < |os| && os[i].plan == p ==> os[r.value].at <= os[i].at
    ensures r.None? ==> forall i :: 0 <= i < |os| ==> os[i].plan != p
  {
    if os == [] then None
    else
      var last := |os| - 1;
      var before := Earliest(os[..last], p);
      if os[last].plan != p || (before.Some? && os[before.value].at <= os[last].at) then before else Some(last)
  }

  /** How many occurrences of a plan come before a date. */
  function Earlier(os: seq<Occurrence>, p: nat, at: int): nat
  {
    if os == [] then 0
    else Earlier(os[..|os| - 1], p, at) +
         (if os[|os| - 1].plan == p && os[|os| - 1].at < at then 1 else 0)
  }

  function NextAfter(dates: seq<int>, date: int): (r: Option<int>)
    ensures r.Some? ==> r.value in dates && r.value > date
    ensures r.None? ==> forall d :: d in dates ==> d <= date
  {
    if dates == [] then None
    else if dates[0] > date then Some(dates[0])
    else
      assert dates == [dates[0]] + dates[1..];
      NextAfter(dates[1..], date)
  }

  /** The unique index on asset and occurrence date. */
  predicate DateTaken(plans: seq<Plan>, p: nat, asset: nat, date: int)
  {
    exists q :: 0 <= q < |plans| && q != p && plans[q].asset == asset && plans[q].occurrenceDate == date
  }

  /** A plan that is not cancelled, for the same asset, title and date. */
  predicate Duplicated(plans: seq<Plan>, asset: nat, title: string, planned: int)
  {
    exists q :: 0 <= q < |plans| && plans[q].asset == asset && plans[q].title == title &&
                plans[q].planned == planned && plans[q].status != CancelledPlan
  }

  // ------------------------------------------------------------------ assignments

  function InitialAssignment(target: Option<Target>): Assignment
  {
    Assignment(target, if target.Some? then [AssignmentChange(Assigned, None, target)] else [], None)
  }

  function Assign(a: Assignment, target: Target): Assignment
  {
    Assignment(Some(target),
               a.history +
               [AssignmentChange(if a.current.Some? then Reassigned else Assigned, a.current, Some(target))],
               a.inherited)
  }

  function Clear(a: Assignment): Assignment
  {
    if a.current.None? then a
    else Assignment(None, a.history + [AssignmentChange(Cleared, a.current, None)], a.inherited)
  }

  // ------------------------------------------------------------------ operations

  function AddOccurrence(s: State, o: Occurrence): State { s.(occurrences := s.occurrences + [o]) }

  function SetOccurrence(s: State, i: nat, o: Occurrence): State
    requires i < |s.occurrences|
  {
    s.(occurrences := s.occurrences[i := o])
  }

  function SetPlan(s: State, p: nat, plan: Plan): State
    requires p < |s.plans|
  {
    s.(plans := s.plans[p := plan])
  }

  function NewOccurrence(plan: Plan, p: nat, at: int, approved: bool, useDefault: bool): Occurrence
  {
    Occurrence(p, at, Scheduled, if approved then Approved else Pending, None,
               InitialAssignment(if useDefault then plan.assignment.current else None))
  }

  /** An existing occurrence is kept as it is. An approved one is stored before its work order is
      created, and stays without one if that fails. */
  function CreateOccurrence(s: State, p: nat, at: int, approved: bool, useDefault: bool, ordered: bool): (r: Reply)
    requires p < |s.plans|
    ensures r.state.plans == s.plans
  {
    var o := NewOccurrence(s.plans[p], p, at, approved, useDefault);
    if FindBySchedule(s.occurrences, p, at).Some? then Reply(s, Done)
    else if !approved then Reply(AddOccurrence(s, o), Done)
    else if !ordered then
      Reply(AddOccurrence(s, o).(orphans := s.orphans + {|s.occurrences|}), Failed(WorkOrderFailed))
    else
      Reply(AddOccurrence(s, o.(workOrder := Some(s.nextWorkOrder), status := Generated))
            .(nextWorkOrder := s.nextWorkOrder + 1), Done)
  }

  /** One occurrence for each date; the first one of all may be approved at once. */
  function CreateOccurrences(s: State, p: nat, dates: seq<int>, approveFirst: bool, first: bool, ordered: bool): Reply
    requires p < |s.plans|
    decreases |dates|
  {
    if dates == [] then Reply(s, Done)
    else
      var r := CreateOccurrence(s, p, dates[0], approveFirst && first, first, ordered);
      if r.outcome.Failed? then r
      else CreateOccurrences(r.state, p, dates[1..], approveFirst, false, ordered)
  }

  datatype Draft = Draft(asset: nat, title: string, recurrence: Option<Recurring>, planned: int,
                         occurrenceDate: Option<int>, assignee: Option<Target>)

  function FirstDate(d: Draft): int
  {
    if d.recurrence.Some? then d.recurrence.value.start
    else if d.occurrenceDate.Some? then d.occurrenceDate.value
    else d.planned
  }

  function NewPlan(d: Draft, manager: bool): Plan
  {
    Plan(d.asset, d.title, d.recurrence, d.planned, FirstDate(d), if manager then ApprovedPlan else PendingPlan,
         true, [], InitialAssignment(d.assignee), manager)
  }

  function DraftDates(d: Draft, now: int): seq<int>
  {
    if d.recurrence.Some? then Dates(d.recurrence.value, now + HORIZON_DAYS * DAY) else [FirstDate(d)]
  }

  function Create(s: State, d: Draft, manager: bool, now: int, ordered: bool): Reply
  {
    if Duplicated(s.plans, d.asset, d.title, d.planned) then Reply(s, Failed(BusinessRule))
    else if DateTaken(s.plans, |s.plans|, d.asset, FirstDate(d)) then Reply(s, Failed(DuplicateKey))
    else CreateOccurrences(s.(plans := s.plans + [NewPlan(d, manager)]), |s.plans|, DraftDates(d, now), manager,
                           true, ordered)
  }

  /** The work order is created first; nothing is stored when that fails. */
  function ApproveRecord(s: State, i: nat, ordered: bool): Reply
    requires i < |s.occurrences|
  {
    var o := s.occurrences[i];
    if o.workOrder.Some? then Reply(SetOccurrence(s, i, o.(approval := Approved, status := Generated)), Done)
    else if !ordered then Reply(s, Failed(WorkOrderFailed))
    else
      Reply(SetOccurrence(s, i, o.(approval := Approved, status := Generated, workOrder := Some(s.nextWorkOrder)))
            .(nextWorkOrder := s.nextWorkOrder + 1), Done)
  }

  /** Whatever the occurrence's status: a cancelled one that is still pending can be approved. */
  function ApproveOccurrence(s: State, i: nat, ordered: bool): Reply
  {
    if i >= |s.occurrences| then Reply(s, Failed(NotFound))
    else if s.occurrences[i].approval != Pending then Reply(s, Failed(BusinessRule))
    else ApproveRecord(s, i, ordered)
  }

  /** Looks at the earliest occurrence only, and leaves the plan's own status as it is. */
  function ApprovePlan(s: State, p: nat, ordered: bool): Reply
  {
    if p >= |s.plans| then Reply(s, Failed(NotFound))
    else if s.plans[p].status != PendingPlan then Reply(s, Failed(BusinessRule))
    else
      var first := Earliest(s.occurrences, p);
      if first.None? || s.occurrences[first.value].approval != Pending then Reply(s, Failed(BusinessRule))
      else ApproveRecord(s, first.value, ordered)
  }

  function RejectFirst(s: State, p: nat): (r: State)
    ensures r.plans == s.plans
  {
    var first := Earliest(s.occurrences, p);
    if first.None? || s.occurrences[first.value].approval != Pending then s
    else SetOccurrence(s, first.value, s.occurrences[first.value].(approval := Rejected))
  }

  function RejectPlan(s: State, p: nat): Reply
  {
    if p >= |s.plans| then Reply(s, Failed(NotFound))
    else if s.plans[p].status != PendingPlan then Reply(s, Failed(BusinessRule))
    else Reply(SetPlan(RejectFirst(s, p), p, s.plans[p].(status := RejectedPlan)), Done)
  }

  function CancelScheduled(s: State, p: nat, date: int): (r: State)
    ensures r.plans == s.plans
  {
    var i := FindBySchedule(s.occurrences, p, date);
    if i.None? || s.occurrences[i.value].status in [Completed, Cancelled] then s
    else SetOccurrence(s, i.value, s.occurrences[i.value].(status := Cancelled))
  }

  /** The occurrence on the due date is cancelled before it is known whether there is a next date. */
  function SkipPlan(s: State, p: nat, now: int, ordered: bool): Reply
  {
    if p >= |s.plans| then Reply(s, Failed(NotFound))
    else
      var plan := s.plans[p];
      if !plan.active || plan.status != ApprovedPlan || plan.recurrence.None? then Reply(s, Failed(BusinessRule))
      else
        var cancelled := CancelScheduled(s, p, plan.planned);
        var next := NextAfter(Dates(plan.recurrence.value, now + HORIZON_DAYS * DAY), plan.planned);
        if next.None? then Reply(cancelled, Failed(BusinessRule))
        else if DateTaken(s.plans, p, plan.asset, next.value) then Reply(cancelled, Failed(DuplicateKey))
        else
          var moved := plan.(planned := next.value, occurrenceDate := next.value,
                             skipped := plan.skipped + [plan.planned]);
          CreateOccurrence(SetPlan(cancelled, p, moved), p, next.value, true, false, ordered)
  }

  /** The occurrence-skip route: the next occurrence takes over the assignment but not its history. */
  function SkipOccurrence(s: State, i: nat, nextDueAt: Option<int>): Reply
  {
    if i >= |s.occurrences| then Reply(s, Failed(NotFound))
    else
      var o := s.occurrences[i];
      if o.status in [Completed, Cancelled] then Reply(s, Failed(BusinessRule))
      else
        var cancelled := SetOccurrence(s, i, o.(status := Cancelled));
        if nextDueAt.None? || FindBySchedule(s.occurrences, o.plan, nextDueAt.value).Some? then Reply(cancelled, Done)
        else
          var next := Occurrence(o.plan, nextDueAt.value, Scheduled, Pending, None,
                                 Assignment(o.assignment.current, [], o.assignment.current));
          Reply(AddOccurrence(cancelled, next), Done)
  }

  /** Archiving reaches a plan's first thousand occurrences by date. */
  predicate Archivable(os: seq<Occurrence>, p: nat, o: Occurrence)
  {
    && o.plan == p && Earlier(os, p, o.at) < ARCHIVE_LIMIT
    && o.status !in [Generated, Completed, Cancelled]
  }

  function ArchivedOccurrences(os: seq<Occurrence>, p: nat): (r: seq<Occurrence>)
    ensures |r| == |os|
    ensures forall i :: 0 <= i < |os| ==>
              r[i] == if Archivable(os, p, os[i]) then os[i].(status := Cancelled) else os[i]
  {
    seq(|os|, i requires 0 <= i < |os| => if Archivable(os, p, os[i]) then os[i].(status := Cancelled) else os[i])
  }

  function Archive(s: State, p: nat): Reply
  {
    if p >= |s.plans| then Reply(s, Failed(NotFound))
    else
      Reply(s.(occurrences := ArchivedOccurrences(s.occurrences, p),
               plans := s.plans[p := s.plans[p].(status := CancelledPlan, active := false)]), Done)
  }

  /** Assigning (or, without a target, clearing) a plan's default or an occurrence's own assignee. */
  function Reassign(a: Assignment, target: Option<Target>): Assignment
  {
    if target.Some? then Assign(a, target.value) else Clear(a)
  }

  function AssignPlan(s: State, p: nat, target: Option<Target>): Reply
  {
    if p >= |s.plans| then Reply(s, Failed(NotFound))
    else Reply(SetPlan(s, p, s.plans[p].(assignment := Reassign(s.plans[p].assignment, target))), Done)
  }

  function AssignOccurrence(s: State, i: nat, target: Option<Target>): Reply
  {
    if i >= |s.occurrences| then Reply(s, Failed(NotFound))
    else Reply(SetOccurrence(s, i, s.occurrences[i].(assignment := Reassign(s.occurrences[i].assignment, target))),
               Done)
  }

  // ------------------------------------------------------------------ runs

  datatype Op =
    | CreateOp(draft: Draft, manager: bool, now: int, ordered: bool)
    | ApproveOccurrenceOp(occurrence: nat, ordered: bool)
    | ApprovePlanOp(plan: nat, ordered: bool)
    | RejectPlanOp(plan: nat)
    | SkipPlanOp(plan: nat, now: int, ordered: bool)
    | SkipOccurrenceOp(occurrence: nat, nextDueAt: Option<int>)
    | ArchiveOp(plan: nat)
    | AssignPlanOp(plan: nat, target: Option<Target>)
    | AssignOccurrenceOp(occurrence: nat, target: Option<Target>)

  function Step(s: State, op: Op): Reply
  {
    match op
    case CreateOp(d, manager, now, ordered) => Create(s, d, manager, now, ordered)
    case ApproveOccurrenceOp(i, ordered) => ApproveOccurrence(s, i, ordered)
    case ApprovePlanOp(p, ordered) => ApprovePlan(s, p, ordered)
    case RejectPlanOp(p) => RejectPlan(s, p)
    case SkipPlanOp(p, now, ordered) => SkipPlan(s, p, now, ordered)
    case SkipOccurrenceOp(i, nextDueAt) => SkipOccurrence(s, i, nextDueAt)
    case ArchiveOp(p) => Archive(s, p)
    case AssignPlanOp(p, target) => AssignPlan(s, p, target)
    case AssignOccurrenceOp(i, target) => AssignOccurrence(s, i, target)
  }
}
