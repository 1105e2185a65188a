// What maintenance operations do: which occurrences each of them decides, what creating a plan stores,
// and how far archiving reaches.
module MaintenanceEffects {
  import opened Wrappers
  import opened Recurrence
  import opened Maintenance
  import opened MaintenanceInvariants
  import opened MaintenanceRuns

  // ------------------------------------------------------------------ what a step may change

  /** Dates and decisions are final: an occurrence keeps its plan and date, a decided approval and a
      work order never change again, and a cancelled one comes back only by being approved. */
  predicate Continues(a: Occurrence, b: Occurrence)
  {
    && b.plan == a.plan && b.at == a.at
    && (a.approval != Pending ==> b.approval == a.approval)
    && (a.workOrder.Some? ==> b.workOrder == a.workOrder)
    && (a.status == Cancelled && b.status != Cancelled ==>
        a.approval == Pending && b.approval == Approved && b.status == Generated)
    && (a.status == Generated ==> b.status in [Generated, Cancelled])
    && a.assignment.history <= b.assignment.history
  }

  predicate Grows(a: seq<Occurrence>, b: seq<Occurrence>)
  {
    |a| <= |b| && forall i :: 0 <= i < |a| ==> Continues(a[i], b[i])
  }

  lemma GrowsOn(a: seq<Occurrence>, b: seq<Occurrence>, c: seq<Occurrence>)
    requires Grows(a, b) && Grows(b, c)
    ensures Grows(a, c)
  {
    forall i | 0 <= i < |a|
      ensures Continues(a[i], c[i])
    {
      assert Continues(a[i], b[i]) && Continues(b[i], c[i]);
    }
  }

  lemma SetGrows(s: State, i: nat, o: Occurrence)
    requires i < |s.occurrences| && Continues(s.occurrences[i], o)
    ensures Grows(s.occurrences, SetOccurrence(s, i, o).occurrences)
  {
  }

  lemma CancelGrows(s: State, p: nat, date: int)
    ensures Grows(s.occurrences, CancelScheduled(s, p, date).occurrences)
  {
    var i := FindBySchedule(s.occurrences, p, date);
    if i.Some? { SetGrows(s, i.value, s.occurrences[i.value].(status := Cancelled)); }
  }

  lemma CreateOneGrows(s: State, p: nat, at: int, approved: bool, useDefault: bool, ordered: bool)
    requires p < |s.plans|
    ensures Grows(s.occurrences, CreateOccurrence(s, p, at, approved, useDefault, ordered).state.occurrences)
  {
  }

  lemma {:induction false} CreateGrows(s: State, p: nat, dates: seq<int>, approveFirst: bool, first: bool,
                                       ordered: bool)
    requires p < |s.plans|
    ensures Grows(s.occurrences, CreateOccurrences(s, p, dates, approveFirst, first, ordered).state.occurrences)
    decreases |dates|
  {
    if dates != [] {
      var r := CreateOccurrence(s, p, dates[0], approveFirst && first, first, ordered);
      if r.outcome.Done? {
        CreateGrows(r.state, p, dates[1..], approveFirst, false, ordered);
        GrowsOn(s.occurrences, r.state.occurrences,
                CreateOccurrences(r.state, p, dates[1..], approveFirst, false, ordered).state.occurrences);
      }
    }
  }

  lemma SkipGrows(s: State, p: nat, now: int, ordered: bool)
    requires Inv(s)
    ensures Grows(s.occurrences, SkipPlan(s, p, now, ordered).state.occurrences)
  {
    if p < |s.plans| {
      var plan, cancelled := s.plans[p], CancelScheduled(s, p, s.plans[p].planned);
      CancelGrows(s, p, plan.planned);
      if plan.recurrence.Some? && SkipPlan(s, p, now, ordered).state.plans != s.plans {
        var next := NextAfter(Dates(plan.recurrence.value, now + HORIZON_DAYS * DAY), plan.planned);
        var t := SetPlan(cancelled, p, Moved(plan, next.value));
        CreateOneGrows(t, p, next.value, true, false, ordered);
        GrowsOn(s.occurrences, cancelled.occurrences,
                CreateOccurrence(t, p, next.value, true, false, ordered).state.occurrences);
      }
    }
  }

  lemma ApproveRecordGrows(s: State, i: nat, ordered: bool)
    requires i < |s.occurrences| && s.occurrences[i].approval == Pending
    ensures Grows(s.occurrences, ApproveRecord(s, i, ordered).state.occurrences)
  {
  }

  lemma ApprovalGrows(s: State, i: nat, p: nat, ordered: bool)
    ensures Grows(s.occurrences, ApproveOccurrence(s, i, ordered).state.occurrences)
    ensures Grows(s.occurrences, ApprovePlan(s, p, ordered).state.occurrences)
  {
    if i < |s.occurrences| && s.occurrences[i].approval == Pending { ApproveRecordGrows(s, i, ordered); }
    var first := Earliest(s.occurrences, p);
    if first.Some? && s.occurrences[first.value].approval == Pending { ApproveRecordGrows(s, first.value, ordered); }
  }

  lemma RejectGrows(s: State, p: nat)
    ensures Grows(s.occurrences, RejectPlan(s, p).state.occurrences)
  {
  }

  lemma ArchiveGrows(s: State, p: nat)
    ensures Grows(s.occurrences, Archive(s, p).state.occurrences)
  {
  }

  lemma RestGrows(s: State, i: nat, nextDueAt: Option<int>, target: Option<Target>)
    ensures Grows(s.occurrences, SkipOccurrence(s, i, nextDueAt).state.occurrences)
    ensures Grows(s.occurrences, AssignOccurrence(s, i, target).state.occurrences)
  {
  }

  lemma StepGrows(s: State, op: Op)
    requires Inv(s)
    ensures Grows(s.occurrences, Step(s, op).state.occurrences)
  {
    match op
    case CreateOp(d, manager, now, ordered) =>
      CreateGrows(s.(plans := s.plans + [NewPlan(d, manager)]), |s.plans|, DraftDates(d, now), manager, true, ordered);
    case ApproveOccurrenceOp(i, ordered) => ApprovalGrows(s, i, 0, ordered);
    case ApprovePlanOp(p, ordered) => ApprovalGrows(s, 0, p, ordered);
    case RejectPlanOp(p) => RejectGrows(s, p);
    case SkipPlanOp(p, now, ordered) => SkipGrows(s, p, now, ordered);
    case SkipOccurrenceOp(i, nextDueAt) => RestGrows(s, i, nextDueAt, None);
    case ArchiveOp(p) => ArchiveGrows(s, p);
    case AssignPlanOp(p, target) =>
    case AssignOccurrenceOp(i, target) => RestGrows(s, i, None, target);
  }

  /** So over any continuation of a run. */
  lemma {:induction false} RunGrows(ops: seq<Op>, later: seq<Op>)
    ensures Grows(After(ops).occurrences, After(ops + later).occurrences)
  {
    if later == [] {
      assert ops + later == ops;
    } else {
      var sofar := ops + later[..|later| - 1];
      assert (ops + later)[..|ops + later| - 1] == sofar;
      RunGrows(ops, later[..|later| - 1]);
      RunKeeps(sofar);
      StepGrows(After(sofar), later[|later| - 1]);
      GrowsOn(After(ops).occurrences, After(sofar).occurrences, After(ops + later).occurrences);
    }
  }

  // ------------------------------------------------------------------ what a step decides

  /** An approval that reaches occurrence `i`: its own, or its plan's if it is the plan's earliest. */
  predicate Approves(s: State, op: Op, i: nat)
    requires i < |s.occurrences|
  {
    && s.occurrences[i].approval == Pending
    && match op
       case ApproveOccurrenceOp(occurrence, ordered) => ordered && occurrence == i
       case ApprovePlanOp(p, ordered) =>
         ordered && p < |s.plans| && s.plans[p].status == PendingPlan && Earliest(s.occurrences, p) == Some(i)
       case _ => false
  }

  predicate Rejects(s: State, op: Op, i: nat)
    requires i < |s.occurrences|
  {
    && s.occurrences[i].approval == Pending && op.RejectPlanOp?
    && op.plan < |s.plans| && s.plans[op.plan].status == PendingPlan && Earliest(s.occurrences, op.plan) == Some(i)
  }

  predicate Cancels(s: State, op: Op, i: nat)
    requires i < |s.occurrences|
  {
    match op
    case SkipOccurrenceOp(occurrence, _) => occurrence == i
    case ArchiveOp(p) => p < |s.plans| && Archivable(s.occurrences, p, s.occurrences[i])
    case SkipPlanOp(p, _, _) =>
      && Skippable(s, p) && s.occurrences[i].plan == p && s.occurrences[i].at == s.plans[p].planned
    case _ => false
  }

  function Reassigned(op: Op, i: nat, a: Assignment): Assignment
  {
    if op.AssignOccurrenceOp? && op.occurrence == i then Reassign(a, op.target) else a
  }

  /** The occurrence `i` after an operation. */
  function DecidedAs(s: State, op: Op, i: nat): Occurrence
    requires i < |s.occurrences|
  {
    var o := s.occurrences[i];
    o.(approval := if Approves(s, op, i) then Approved else if Rejects(s, op, i) then Rejected else o.approval,
       status := if Approves(s, op, i) then Generated else if Cancels(s, op, i) then Cancelled else o.status,
       workOrder := if Approves(s, op, i) then Some(s.nextWorkOrder) else o.workOrder,
       assignment := Reassigned(op, i, o.assignment))
  }

  lemma CreateDecides(s: State, d: Draft, manager: bool, now: int, ordered: bool, i: nat)
    requires Inv(s) && i < |s.occurrences|
    ensures var t := Create(s, d, manager, now, ordered).state;
            i < |t.occurrences| && t.occurrences[i] == s.occurrences[i]
  {
    CreateExact(s, d, manager, now, ordered);
  }

  /** A skip cancels first and then only adds. */
  lemma SkipExtends(s: State, p: nat, now: int, ordered: bool)
    ensures var t := SkipPlan(s, p, now, ordered).state;
            if Skippable(s, p) then CancelScheduled(s, p, s.plans[p].planned).occurrences <= t.occurrences else t == s
  {
  }

  lemma SkipDecides(s: State, p: nat, now: int, ordered: bool, i: nat, t: State)
    requires Inv(s) && i < |s.occurrences| && t == SkipPlan(s, p, now, ordered).state
    ensures i < |t.occurrences| && t.occurrences[i] == DecidedAs(s, SkipPlanOp(p, now, ordered), i)
  {
    SkipExtends(s, p, now, ordered);
    if Skippable(s, p) { CancelExact(s, p, s.plans[p].planned, i); }
  }

  lemma ApprovalDecides(s: State, op: Op, i: nat)
    requires Inv(s) && i < |s.occurrences| && (op.ApproveOccurrenceOp? || op.ApprovePlanOp?)
    ensures var t := Step(s, op).state; i < |t.occurrences| && t.occurrences[i] == DecidedAs(s, op, i)
  {
    assert forall j :: 0 <= j < |s.occurrences| ==> Sound(s.occurrences[j], |s.plans|, s.nextWorkOrder);
  }

  lemma OtherDecides(s: State, op: Op, i: nat)
    requires Inv(s) && i < |s.occurrences|
    requires op.RejectPlanOp? || op.SkipOccurrenceOp? || op.ArchiveOp? || op.AssignPlanOp? || op.AssignOccurrenceOp?
    ensures var t := Step(s, op).state; i < |t.occurrences| && t.occurrences[i] == DecidedAs(s, op, i)
  {
    assert Sound(s.occurrences[i], |s.plans|, s.nextWorkOrder);
  }

  /** Every operation and every occurrence: it is approved, with a work order of its own, exactly by an
      approval that reaches it while it is pending, whatever its status and its plan's; rejected exactly by
      its plan's rejection if it is the earliest and pending; cancelled exactly by its own skip, a skip of
      its plan on its date, or archiving that reaches it; reassigned exactly by assigning; and otherwise
      left as it was. */
  lemma StepDecides(s: State, op: Op, i: nat)
    requires Inv(s) && i < |s.occurrences|
    ensures var t := Step(s, op).state; i < |t.occurrences| && t.occurrences[i] == DecidedAs(s, op, i)
    ensures forall j :: 0 <= j < |s.occurrences| ==> s.occurrences[j].workOrder != Some(s.nextWorkOrder)
  {
    match op
    case CreateOp(d, manager, now, ordered) => CreateDecides(s, d, manager, now, ordered, i);
    case SkipPlanOp(p, now, ordered) => SkipDecides(s, p, now, ordered, i, Step(s, op).state);
    case ApproveOccurrenceOp(_, _) => ApprovalDecides(s, op, i);
    case ApprovePlanOp(_, _) => ApprovalDecides(s, op, i);
    case _ => OtherDecides(s, op, i);
  }

  // ------------------------------------------------------------------ create and archive

  lemma NoneOnRest(os: seq<Occurrence>, p: nat, dates: seq<int>, o: Occurrence)
    requires NoneOn(os, p, dates) && Increasing(dates) && |dates| > 0 && o.at == dates[0]
    ensures NoneOn(os + [o], p, dates[1..]) && Increasing(dates[1..])
  {
    forall k | 0 <= k < |dates[1..]|
      ensures FindBySchedule(os + [o], p, dates[1..][k]).None?
    {
      assert FindBySchedule(os, p, dates[k + 1]).None?;
      assert (os + [o])[..|os|] == os;
    }
  }

  /** Pending and unassigned occurrences, one for each date. */
  function AllPending(p: nat, dates: seq<int>): (r: seq<Occurrence>)
    ensures |r| == |dates|
    ensures forall k :: 0 <= k < |dates| ==>
              r[k] == Occurrence(p, dates[k], Scheduled, Pending, None, Assignment(None, [], None))
  {
    seq(|dates|, k requires 0 <= k < |dates| =>
      Occurrence(p, dates[k], Scheduled, Pending, None, Assignment(None, [], None)))
  }

  lemma PendingSplit(os: seq<Occurrence>, p: nat, dates: seq<int>, o: Occurrence)
    requires |dates| > 0 && o == Occurrence(p, dates[0], Scheduled, Pending, None, Assignment(None, [], None))
    ensures os + AllPending(p, dates) == os + [o] + AllPending(p, dates[1..])
  {
    assert AllPending(p, dates) == [o] + AllPending(p, dates[1..]);
  }

  lemma {:induction false} CreatedPending(s: State, p: nat, dates: seq<int>, approveFirst: bool, ordered: bool)
    requires p < |s.plans| && Increasing(dates) && NoneOn(s.occurrences, p, dates)
    ensures CreateOccurrences(s, p, dates, approveFirst, false, ordered) ==
            Reply(s.(occurrences := s.occurrences + AllPending(p, dates)), Done)
    decreases |dates|
  {
    if dates == [] {
      assert s.occurrences + AllPending(p, []) == s.occurrences;
    } else {
      var o := NewOccurrence(s.plans[p], p, dates[0], false, false);
      var t := AddOccurrence(s, o);
      assert CreateOccurrence(s, p, dates[0], false, false, ordered) == Reply(t, Done);
      PendingSplit(s.occurrences, p, dates, o);
      NoneOnRest(s.occurrences, p, dates, o);
      CreatedPending(t, p, dates[1..], approveFirst, ordered);
    }
  }

  /** The first occurrence of a new plan carries the default assignee and is approved and ordered at once
      if a manager creates it; if its order fails it stays approved without one. */
  function FirstCreated(p: nat, at: int, manager: bool, ordered: bool, workOrder: nat,
                        assignee: Option<Target>): Occurrence
  {
    Occurrence(p, at, if manager && ordered then Generated else Scheduled, if manager then Approved else Pending,
               if manager && ordered then Some(workOrder) else None, InitialAssignment(assignee))
  }

  lemma CreatedExactly(s: State, p: nat, dates: seq<int>, manager: bool, ordered: bool)
    requires p < |s.plans| && Increasing(dates) && NoneOn(s.occurrences, p, dates) && |dates| > 0
    ensures var r := CreateOccurrences(s, p, dates, manager, true, ordered); var failing := manager && !ordered;
            && r.state.plans == s.plans
            && r.state.nextWorkOrder == s.nextWorkOrder + (if manager && ordered then 1 else 0)
            && r.outcome == (if failing then Failed(WorkOrderFailed) else Done)
            && r.state.occurrences ==
               s.occurrences +
               [FirstCreated(p, dates[0], manager, ordered, s.nextWorkOrder, s.plans[p].assignment.current)] +
               (if failing then [] else AllPending(p, dates[1..]))
  {
    var first := CreateOccurrence(s, p, dates[0], manager, true, ordered);
    assert FindBySchedule(s.occurrences, p, dates[0]).None?;
    FirstStored(s, p, dates[0], manager, ordered, first);
    if first.outcome == Done {
      NoneOnRest(s.occurrences, p, dates, first.state.occurrences[|s.occurrences|]);
      CreatedPending(first.state, p, dates[1..], manager, ordered);
    }
  }

  lemma FirstStored(s: State, p: nat, at: int, manager: bool, ordered: bool, r: Reply)
    requires p < |s.plans| && FindBySchedule(s.occurrences, p, at).None?
    requires r == CreateOccurrence(s, p, at, manager, true, ordered)
    ensures r.outcome == (if manager && !ordered then Failed(WorkOrderFailed) else Done) && r.state.plans == s.plans
    ensures r.state.nextWorkOrder == s.nextWorkOrder + (if manager && ordered then 1 else 0)
    ensures r.state.occurrences ==
            s.occurrences + [FirstCreated(p, at, manager, ordered, s.nextWorkOrder, s.plans[p].assignment.current)]
  {
  }

  /** Why a plan is not created at all. */
  function CreateRefusal(s: State, d: Draft): Option<Error>
  {
    if Duplicated(s.plans, d.asset, d.title, d.planned) then Some(BusinessRule)
    else if DateTaken(s.plans, |s.plans|, d.asset, FirstDate(d)) then Some(DuplicateKey)
    else None
  }

  /** Creating a plan: refused without effect, or one more plan with exactly one occurrence for each of its
      dates, in order, the others pending and unassigned. If a manager's first order fails, the plan and
      that one occurrence stay. A recurring plan without a date in the horizon has no occurrence at all. */
  lemma CreateExact(s: State, d: Draft, manager: bool, now: int, ordered: bool)
    requires Inv(s)
    ensures var r := Create(s, d, manager, now, ordered); var p, dates := |s.plans|, DraftDates(d, now);
            var failing := manager && !ordered;
            if CreateRefusal(s, d).Some? then r == Reply(s, Failed(CreateRefusal(s, d).value))
            else if dates == [] then r == Reply(s.(plans := s.plans + [NewPlan(d, manager)]), Done)
            else
              && r.outcome == (if failing then Failed(WorkOrderFailed) else Done)
              && r.state.plans == s.plans + [NewPlan(d, manager)]
              && r.state.nextWorkOrder == s.nextWorkOrder + (if manager && ordered then 1 else 0)
              && r.state.occurrences ==
                 s.occurrences + [FirstCreated(p, dates[0], manager, ordered, s.nextWorkOrder, d.assignee)] +
                 (if failing then [] else AllPending(p, dates[1..]))
  {
    NewPlanHasNone(s, d, now);
    if CreateRefusal(s, d).None? && DraftDates(d, now) != [] {
      CreatedExactly(s.(plans := s.plans + [NewPlan(d, manager)]), |s.plans|, DraftDates(d, now), manager, ordered);
    }
  }

  function CountOf(os: seq<Occurrence>, p: nat): nat
  {
    if os == [] then 0 else CountOf(os[..|os| - 1], p) + (if os[|os| - 1].plan == p then 1 else 0)
  }

  lemma {:induction false} EarlierIsFewer(os: seq<Occurrence>, p: nat, at: int)
    ensures Earlier(os, p, at) <= CountOf(os, p)
    ensures (exists i :: 0 <= i < |os| && os[i].plan == p && os[i].at == at) ==> Earlier(os, p, at) < CountOf(os, p)
  {
    if os != [] {
      EarlierIsFewer(os[..|os| - 1], p, at);
      if i :| 0 <= i < |os| && os[i].plan == p && os[i].at == at {
        assert i < |os| - 1 ==> os[..|os| - 1][i] == os[i];
      }
    }
  }

  /** Archiving cancels the scheduled occurrences of a plan that has at most a thousand, and no other
      plan's; of a plan that has more, exactly those with a thousand earlier ones stay scheduled. */
  lemma ArchiveExact(s: State, p: nat, i: nat)
    requires Inv(s) && p < |s.plans| && i < |s.occurrences|
    ensures var a, b := s.occurrences[i], Archive(s, p).state.occurrences[i];
            && b == a.(status := b.status)
            && (a.plan != p ==> b == a)
            && (a.plan == p ==> (b.status == Scheduled <==>
                a.status == Scheduled && Earlier(s.occurrences, p, a.at) >= ARCHIVE_LIMIT))
            && (a.plan == p && CountOf(s.occurrences, p) <= ARCHIVE_LIMIT ==> b.status != Scheduled)
  {
    EarlierIsFewer(s.occurrences, p, s.occurrences[i].at);
  }

  // A plan that has more than a thousand: daily from 1 January 1970, created 1000 days later.

  const OLD_DAILY: Draft := Draft(0, "Filter", Some(Config(Daily, 1, 0, None, [], None)), 0, None, None)

  const ARCHIVED_OLD := [CreateOp(OLD_DAILY, false, 1000 * DAY, true), ArchiveOp(0)]

  predicate Ascending(os: seq<Occurrence>, p: nat)
  {
    && (forall i :: 0 <= i < |os| ==> os[i].plan == p)
    && (forall i, j :: 0 <= i < j < |os| ==> os[i].at < os[j].at)
  }

  lemma {:induction false} AllEarlier(os: seq<Occurrence>, p: nat, at: int)
    requires Ascending(os, p) && forall i :: 0 <= i < |os| ==> os[i].at < at
    ensures Earlier(os, p, at) == |os|
  {
    if os != [] { AllEarlier(os[..|os| - 1], p, at); }
  }

  lemma {:induction false} EarlierRanks(os: seq<Occurrence>, p: nat, k: nat)
    requires Ascending(os, p) && k < |os|
    ensures Earlier(os, p, os[k].at) == k
  {
    var init := os[..|os| - 1];
    if k < |init| { EarlierRanks(init, p, k); } else { AllEarlier(init, p, os[k].at); }
  }

  lemma OldDailyDates()
    ensures var dates := DraftDates(OLD_DAILY, 1000 * DAY);
            |dates| == 1091 && forall k :: 0 <= k < 1091 ==> dates[k] == DAY * k
  {
    var c: Config := OLD_DAILY.recurrence.value;
    var horizon := 1000 * DAY + HORIZON_DAYS * DAY;
    assert horizon == DAY * 1090 && DayOf(horizon) == 1090 && DayOf(0) == 0;
    ModernDay(horizon);
    ModernDay(0);
    assert EndDay(c, horizon) == 1090 && RuleOf(c).first == 0;
    DailyClosedForm(RuleOf(c), 1090);
    assert (1090 - 0) / 1 + 1 == 1091;
  }

  /** Such a plan is archived, and its occurrence with a thousand earlier ones stays scheduled. */
  lemma ArchivingStopsAtThousand()
    ensures var s := After(ARCHIVED_OLD);
            && |s.plans| == 1 && s.plans[0].status == CancelledPlan && !s.plans[0].active
            && |s.occurrences| == 1091 && s.occurrences[0].status == Cancelled
            && s.occurrences[1000].status == Scheduled && s.occurrences[1000].at == DAY * 1000
  {
    var first := ARCHIVED_OLD[..1];
    assert first == [ARCHIVED_OLD[0]] && first[..0] == [] && After(first) == Step(EMPTY, ARCHIVED_OLD[0]).state;
    var s := After(first);
    RunKeeps([]);
    RunKeeps(first);
    CreateExact(EMPTY, OLD_DAILY, false, 1000 * DAY, true);
    OldDailyDates();
    OldDailyCreated(s);
    assert After(ARCHIVED_OLD) == Archive(s, 0).state;
    ArchiveExact(s, 0, 0);
    ArchiveExact(s, 0, 1000);
    EarlierRanks(s.occurrences, 0, 0);
    EarlierRanks(s.occurrences, 0, 1000);
  }

  lemma OldDailyCreated(s: State)
    requires s == Create(EMPTY, OLD_DAILY, false, 1000 * DAY, true).state && Inv(s) && Inv(EMPTY)
    ensures |s.plans| == 1 && |s.occurrences| == 1091 && Ascending(s.occurrences, 0)
    ensures forall k :: 0 <= k < 1091 ==> s.occurrences[k].at == DAY * k && s.occurrences[k].status == Scheduled
  {
    CreateExact(EMPTY, OLD_DAILY, false, 1000 * DAY, true);
    OldDailyDates();
    var dates := DraftDates(OLD_DAILY, 1000 * DAY);
    var rest := AllPending(0, dates[1..]);
    assert s.occurrences == [FirstCreated(0, dates[0], false, true, 0, None)] + rest;
    forall k | 0 < k < 1091
      ensures s.occurrences[k].at == DAY * k && s.occurrences[k].status == Scheduled && s.occurrences[k].plan == 0
    {
      assert s.occurrences[k] == rest[k - 1];
    }
  }

  // ------------------------------------------------------------------ approving and rejecting

  /** Approving a plan reaches its earliest occurrence alone and leaves the plan as it was; so it cannot
      be approved a second time, whatever later occurrences are pending. */
  lemma PlanApprovalReachesEarliest(s: State, p: nat)
    requires Inv(s) && p < |s.plans| && ApprovePlan(s, p, true).outcome == Done
    ensures var t := ApprovePlan(s, p, true).state; var e := Earliest(s.occurrences, p);
            && t.plans == s.plans && e.Some? && e.value < |t.occurrences|
            && t.occurrences[e.value].status == Generated
            && (forall i :: 0 <= i < |s.occurrences| && i != e.value ==> t.occurrences[i] == s.occurrences[i])
            && (forall i :: 0 <= i < |s.occurrences| && s.occurrences[i].plan == p ==>
                s.occurrences[e.value].at <= s.occurrences[i].at)
            && ApprovePlan(t, p, true) == Reply(t, Failed(BusinessRule))
  {
    var t, e := ApprovePlan(s, p, true).state, Earliest(s.occurrences, p).value;
    EarliestStays(s, t, p, e);
  }

  lemma EarliestStays(s: State, t: State, p: nat, e: nat)
    requires Inv(s) && Earliest(s.occurrences, p) == Some(e) && |t.occurrences| == |s.occurrences|
    requires forall i :: 0 <= i < |s.occurrences| ==>
               t.occurrences[i].plan == s.occurrences[i].plan && t.occurrences[i].at == s.occurrences[i].at
    ensures Earliest(t.occurrences, p) == Some(e)
  {
    assert t.occurrences[e].plan == p;
    var f := Earliest(t.occurrences, p).value;
    assert s.occurrences[f].at == s.occurrences[e].at && s.occurrences[f].plan == p;
    assert OneEachDate(s.occurrences);
  }

  /** A plan can still be rejected after its first occurrence was approved: the work order stays. */
  lemma RejectionKeepsApprovedWork(s: State, p: nat)
    requires Inv(s) && p < |s.plans| && ApprovePlan(s, p, true).outcome == Done
    ensures var t := ApprovePlan(s, p, true).state;
            && RejectPlan(t, p).outcome == Done && RejectPlan(t, p).state.occurrences == t.occurrences
            && RejectPlan(t, p).state.plans[p].status == RejectedPlan
  {
    EarliestStays(s, ApprovePlan(s, p, true).state, p, Earliest(s.occurrences, p).value);
  }
}
