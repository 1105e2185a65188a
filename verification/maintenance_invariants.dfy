// What every run of maintenance operations keeps.
module MaintenanceInvariants {
  import opened Wrappers
  import opened Maintenance

  // ------------------------------------------------------------------ assignments

  /** The assignment a history leads to, when each entry continues where the one before it ended. */
  function Followed(inherited: Option<Target>, history: seq<AssignmentChange>): Option<Option<Target>>
  {
    if history == [] then Some(inherited)
    else
      var before, last := Followed(inherited, history[..|history| - 1]), history[|history| - 1];
      if before != Some(last.previous) then None
      else match last.action
           case Assigned => if last.previous.None? && last.target.Some? then Some(last.target) else None
           case Reassigned => if last.previous.Some? && last.target.Some? then Some(last.target) else None
           case Cleared => if last.previous.Some? && last.target.None? then Some(None) else None
  }

  predicate Recorded(a: Assignment)
  {
    Followed(a.inherited, a.history) == Some(a.current)
  }

  lemma InitialIsRecorded(target: Option<Target>)
    ensures Recorded(InitialAssignment(target))
  {
    var a := InitialAssignment(target);
    assert Followed(None, []) == Some(None);
    if target.Some? {
      assert a.history[..0] == [];
    }
  }

  /** The history always leads to the current assignment: entries are assigned, reassigned and cleared
      in an order that makes sense, and none is missing. */
  lemma ReassignIsRecorded(a: Assignment, target: Option<Target>)
    requires Recorded(a)
    ensures Recorded(Reassign(a, target)) && Reassign(a, target).current == target
  {
    var b := Reassign(a, target);
    if |b.history| > |a.history| {
      assert b.history[..|b.history| - 1] == a.history;
    }
  }

  // ------------------------------------------------------------------ occurrences

  /** Approved with a work order, or neither; generated only if approved. */
  predicate Sound(o: Occurrence, plans: nat, nextWorkOrder: nat)
  {
    && o.plan < plans
    && (o.workOrder.Some? ==> o.approval == Approved && o.workOrder.value < nextWorkOrder)
    && (o.status == Generated ==> o.approval == Approved && o.workOrder.Some?)
    && o.status != Completed
    && Recorded(o.assignment)
  }

  predicate OneEachDate(os: seq<Occurrence>)
  {
    forall i, j :: 0 <= i < j < |os| && os[i].plan == os[j].plan ==> os[i].at != os[j].at
  }

  predicate DistinctWorkOrders(os: seq<Occurrence>)
  {
    forall i, j :: 0 <= i < j < |os| && os[i].workOrder.Some? ==> os[i].workOrder != os[j].workOrder
  }

  predicate AllSound(s: State)
  {
    forall i :: 0 <= i < |s.occurrences| ==> Sound(s.occurrences[i], |s.plans|, s.nextWorkOrder)
  }

  /** The approved occurrences without a work order are the ones whose creation failed. */
  predicate OrphansExact(s: State)
  {
    && (forall i :: 0 <= i < |s.occurrences| ==>
          (i in s.orphans <==> s.occurrences[i].approval == Approved && s.occurrences[i].workOrder.None?))
    && (forall i :: i in s.orphans ==> i < |s.occurrences|)
  }

  predicate OccurrencesInv(s: State)
  {
    AllSound(s) && OneEachDate(s.occurrences) && DistinctWorkOrders(s.occurrences) && OrphansExact(s)
  }

  lemma AddKeepsDistinct(os: seq<Occurrence>, o: Occurrence)
    requires OneEachDate(os) && DistinctWorkOrders(os)
    requires FindBySchedule(os, o.plan, o.at).None?
    requires forall i :: 0 <= i < |os| && os[i].workOrder.Some? ==> os[i].workOrder != o.workOrder
    ensures OneEachDate(os + [o]) && DistinctWorkOrders(os + [o])
  {
  }

  lemma AddKeepsOrphans(s: State, o: Occurrence, after: State)
    requires OrphansExact(s) && after.occurrences == s.occurrences + [o]
    requires after.orphans == if o.approval == Approved && o.workOrder.None? then s.orphans + {|s.occurrences|}
             else s.orphans
    ensures OrphansExact(after)
  {
  }

  lemma AddKeeps(s: State, o: Occurrence, n: nat, after: State)
    requires OccurrencesInv(s) && s.nextWorkOrder <= n && Sound(o, |s.plans|, n)
    requires FindBySchedule(s.occurrences, o.plan, o.at).None?
    requires o.workOrder.Some? ==> o.workOrder.value >= s.nextWorkOrder
    requires after == AddOccurrence(s, o).(nextWorkOrder := n, orphans := after.orphans)
    requires after.orphans == if o.approval == Approved && o.workOrder.None? then s.orphans + {|s.occurrences|}
             else s.orphans
    ensures OccurrencesInv(after)
  {
    AddKeepsDistinct(s.occurrences, o);
    AddKeepsOrphans(s, o, after);
  }

  lemma SetKeeps(s: State, i: nat, o: Occurrence, n: nat, after: State)
    requires OccurrencesInv(s) && i < |s.occurrences| && s.nextWorkOrder <= n && Sound(o, |s.plans|, n)
    requires o.plan == s.occurrences[i].plan && o.at == s.occurrences[i].at
    requires o.workOrder == s.occurrences[i].workOrder || (o.workOrder.Some? && o.workOrder.value >= s.nextWorkOrder)
    requires (o.approval == Approved && o.workOrder.None?) <==> i in s.orphans
    requires after == SetOccurrence(s, i, o).(nextWorkOrder := n)
    ensures OccurrencesInv(after)
  {
  }

  lemma CreateOccurrenceKeeps(s: State, p: nat, at: int, approved: bool, useDefault: bool, ordered: bool)
    requires OccurrencesInv(s) && p < |s.plans|
    ensures OccurrencesInv(CreateOccurrence(s, p, at, approved, useDefault, ordered).state)
  {
    var o := NewOccurrence(s.plans[p], p, at, approved, useDefault);
    InitialIsRecorded(if useDefault then s.plans[p].assignment.current else None);
    var after := CreateOccurrence(s, p, at, approved, useDefault, ordered).state;
    if FindBySchedule(s.occurrences, p, at).None? {
      if approved && ordered {
        AddKeeps(s, o.(workOrder := Some(s.nextWorkOrder), status := Generated), s.nextWorkOrder + 1, after);
      } else {
        AddKeeps(s, o, s.nextWorkOrder, after);
      }
    }
  }

  lemma {:induction false} CreateOccurrencesKeep(s: State, p: nat, dates: seq<int>, approveFirst: bool, first: bool,
                                                 ordered: bool)
    requires OccurrencesInv(s) && p < |s.plans|
    ensures var r := CreateOccurrences(s, p, dates, approveFirst, first, ordered);
            OccurrencesInv(r.state) && r.state.plans == s.plans
    decreases |dates|
  {
    if dates != [] {
      CreateOccurrenceKeeps(s, p, dates[0], approveFirst && first, first, ordered);
      var r := CreateOccurrence(s, p, dates[0], approveFirst && first, first, ordered);
      if r.outcome.Done? {
        CreateOccurrencesKeep(r.state, p, dates[1..], approveFirst, false, ordered);
      }
    }
  }

  lemma ApproveRecordKeeps(s: State, i: nat, ordered: bool)
    requires OccurrencesInv(s) && i < |s.occurrences| && s.occurrences[i].approval == Pending
    ensures OccurrencesInv(ApproveRecord(s, i, ordered).state)
    ensures ApproveRecord(s, i, ordered).state.plans == s.plans
  {
    var o := s.occurrences[i];
    if ordered {
      SetKeeps(s, i, o.(approval := Approved, status := Generated, workOrder := Some(s.nextWorkOrder)),
               s.nextWorkOrder + 1, ApproveRecord(s, i, ordered).state);
    }
  }

  lemma RejectFirstKeeps(s: State, p: nat)
    requires OccurrencesInv(s)
    ensures OccurrencesInv(RejectFirst(s, p))
  {
    var first := Earliest(s.occurrences, p);
    if first.Some? && s.occurrences[first.value].approval == Pending {
      SetKeeps(s, first.value, s.occurrences[first.value].(approval := Rejected), s.nextWorkOrder, RejectFirst(s, p));
    }
  }

  lemma CancelScheduledKeeps(s: State, p: nat, date: int)
    requires OccurrencesInv(s)
    ensures OccurrencesInv(CancelScheduled(s, p, date))
  {
    var i := FindBySchedule(s.occurrences, p, date);
    if i.Some? {
      SetKeeps(s, i.value, s.occurrences[i.value].(status := Cancelled), s.nextWorkOrder,
               SetOccurrence(s, i.value, s.occurrences[i.value].(status := Cancelled)));
    }
  }

  lemma StillFree(os: seq<Occurrence>, i: nat, o: Occurrence, p: nat, at: int)
    requires i < |os| && o.plan == os[i].plan && o.at == os[i].at && FindBySchedule(os, p, at).None?
    ensures FindBySchedule(os[i := o], p, at).None?
  {
  }

  /** The next occurrence inherits the assignee without a history. */
  lemma AddNextKeeps(s: State, o: Occurrence, at: int, next: Occurrence)
    requires OccurrencesInv(s) && o.plan < |s.plans| && FindBySchedule(s.occurrences, o.plan, at).None?
    requires next == Occurrence(o.plan, at, Scheduled, Pending, None,
                                Assignment(o.assignment.current, [], o.assignment.current))
    ensures OccurrencesInv(AddOccurrence(s, next))
  {
    assert Recorded(next.assignment);
    AddKeeps(s, next, s.nextWorkOrder, AddOccurrence(s, next));
  }

  lemma SkipOccurrenceKeeps(s: State, i: nat, nextDueAt: Option<int>)
    requires OccurrencesInv(s)
    ensures OccurrencesInv(SkipOccurrence(s, i, nextDueAt).state)
  {
    if i < |s.occurrences| {
      var o := s.occurrences[i];
      var cancelled := SetOccurrence(s, i, o.(status := Cancelled));
      SetKeeps(s, i, o.(status := Cancelled), s.nextWorkOrder, cancelled);
      if nextDueAt.Some? && FindBySchedule(s.occurrences, o.plan, nextDueAt.value).None? {
        StillFree(s.occurrences, i, o.(status := Cancelled), o.plan, nextDueAt.value);
        AddNextKeeps(cancelled, o, nextDueAt.value,
                     Occurrence(o.plan, nextDueAt.value, Scheduled, Pending, None,
                                Assignment(o.assignment.current, [], o.assignment.current)));
      }
    }
  }

  lemma ArchiveKeeps(s: State, p: nat)
    requires OccurrencesInv(s)
    ensures OccurrencesInv(Archive(s, p).state)
  {
    if p < |s.plans| {
      var os, after := s.occurrences, ArchivedOccurrences(s.occurrences, p);
      forall i | 0 <= i < |os|
        ensures after[i] == os[i].(status := after[i].status) && after[i].status in [os[i].status, Cancelled]
      {
      }
      ArchiveRestores(s, Archive(s, p).state);
    }
  }

  /** Only statuses change, and only to cancelled. */
  lemma ArchiveRestores(s: State, after: State)
    requires OccurrencesInv(s) && |after.plans| == |s.plans|
    requires after.nextWorkOrder == s.nextWorkOrder && after.orphans == s.orphans
    requires |after.occurrences| == |s.occurrences|
    requires forall i :: 0 <= i < |s.occurrences| ==>
               && after.occurrences[i] == s.occurrences[i].(status := after.occurrences[i].status)
               && after.occurrences[i].status in [s.occurrences[i].status, Cancelled]
    ensures OccurrencesInv(after)
  {
  }

  lemma AssignOccurrenceKeeps(s: State, i: nat, target: Option<Target>)
    requires OccurrencesInv(s)
    ensures OccurrencesInv(AssignOccurrence(s, i, target).state)
  {
    if i < |s.occurrences| {
      var o := s.occurrences[i];
      ReassignIsRecorded(o.assignment, target);
      SetKeeps(s, i, o.(assignment := Reassign(o.assignment, target)), s.nextWorkOrder,
               AssignOccurrence(s, i, target).state);
    }
  }

  lemma CancelExact(s: State, p: nat, date: int, i: nat)
    requires OccurrencesInv(s) && i < |s.occurrences|
    ensures var t := CancelScheduled(s, p, date); var o := s.occurrences[i];
            && |t.occurrences| == |s.occurrences| && t.nextWorkOrder == s.nextWorkOrder
            && t.occurrences[i] == (if o.plan == p && o.at == date then o.(status := Cancelled) else o)
  {
    var found := FindBySchedule(s.occurrences, p, date);
    assert Sound(s.occurrences[i], |s.plans|, s.nextWorkOrder);
    if found.Some? { assert Sound(s.occurrences[found.value], |s.plans|, s.nextWorkOrder); }
  }

  lemma {:induction false} SameFinding(a: seq<Occurrence>, b: seq<Occurrence>, p: nat, at: int)
    requires |a| == |b| && forall j :: 0 <= j < |a| ==> a[j].plan == b[j].plan && a[j].at == b[j].at
    ensures FindBySchedule(a, p, at) == FindBySchedule(b, p, at)
  {
    if a != [] { SameFinding(a[..|a| - 1], b[..|b| - 1], p, at); }
  }
}
