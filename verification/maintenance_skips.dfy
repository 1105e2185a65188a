// Skipping: what a skip of an occurrence or of a plan changes, also when it fails, and the sequence of due
// dates that a plan goes through.
module MaintenanceSkips {
  import opened Wrappers
  import opened Recurrence
  import opened Maintenance
  import opened MaintenanceInvariants
  import opened MaintenanceRuns

  // ------------------------------------------------------------------ one skip

  /** The skip route cancels its occurrence and leaves one on the next date, new only if there was none. */
  lemma SkipLeavesNext(s: State, i: nat, at: int)
    requires Inv(s) && i < |s.occurrences|
    ensures var r := SkipOccurrence(s, i, Some(at)); var p := s.occurrences[i].plan;
            && (r.outcome == Done <==> s.occurrences[i].status != Cancelled)
            && (r.outcome == Done ==>
                  && r.state.occurrences[i].status == Cancelled
                  && FindBySchedule(r.state.occurrences, p, at).Some?
                  && |r.state.occurrences| ==
                     |s.occurrences| + (if FindBySchedule(s.occurrences, p, at).Some? then 0 else 1))
            && (r.outcome != Done ==> r.state == s)
  {
    var r, p := SkipOccurrence(s, i, Some(at)), s.occurrences[i].plan;
    assert Sound(s.occurrences[i], |s.plans|, s.nextWorkOrder);
    if r.outcome == Done {
      var found := FindBySchedule(s.occurrences, p, at);
      var there := if found.Some? then found.value else |s.occurrences|;
      assert r.state.occurrences[there].plan == p && r.state.occurrences[there].at == at;
    }
  }

  /** Nothing to cancel on the due date: no occurrence, or a cancelled one. */
  predicate NothingDue(s: State, p: nat)
    requires p < |s.plans|
  {
    var due := FindBySchedule(s.occurrences, p, s.plans[p].planned);
    due.None? || s.occurrences[due.value].status == Cancelled
  }

  /** A failed skip leaves the documents as they were exactly when the plan cannot be skipped, or when it
      has nowhere to go, for want of a next date or because that date is taken, and nothing was due. */
  lemma FailedSkipChangesNothingIff(s: State, p: nat, now: int, ordered: bool)
    requires Inv(s) && SkipPlan(s, p, now, ordered).outcome.Failed?
    ensures SkipPlan(s, p, now, ordered).state == s <==>
            || !Skippable(s, p)
            || (NothingDue(s, p) &&
                (NextDate(s.plans[p], now).None? ||
                 DateTaken(s.plans, p, s.plans[p].asset, NextDate(s.plans[p], now).value)))
  {
    if Skippable(s, p) {
      var plan, next := s.plans[p], NextDate(s.plans[p], now);
      var due := FindBySchedule(s.occurrences, p, plan.planned);
      if due.Some? {
        CancelExact(s, p, plan.planned, due.value);
        assert Sound(s.occurrences[due.value], |s.plans|, s.nextWorkOrder);
      }
      if next.Some? { assert |Moved(plan, next.value).skipped| > |plan.skipped|; }
    }
  }

  /** When a skip moves the plan, and where to. */
  lemma SkipMovesIff(s: State, p: nat, now: int, ordered: bool, next: int)
    requires Inv(s) && p < |s.plans|
    ensures var a, b := s.plans[p], SkipPlan(s, p, now, ordered).state.plans[p];
            b != a && b.planned == next <==>
            && a.active && a.status == ApprovedPlan && a.recurrence.Some?
            && LeastAfter(a.recurrence.value, a.planned, next) && DayOf(next) <= UtcDay(now + HORIZON_DAYS * DAY)
            && !DateTaken(s.plans, p, a.asset, next) && b == Moved(a, next)
  {
    var a := s.plans[p];
    if a.recurrence.Some? {
      NextIsLeast(a.recurrence.value, now + HORIZON_DAYS * DAY, a.planned);
    }
    assert |Moved(a, next).skipped| > |a.skipped|;
  }

  /** What a successful skip does to the occurrences: the one on the date it leaves is cancelled, the next
      date has one, new only if there was none, then approved with its own work order and nobody
      assigned; no other changes. */
  lemma SkipExact(s: State, p: nat, now: int, i: nat)
    requires Inv(s) && p < |s.plans| && SkipPlan(s, p, now, true).outcome == Done && i < |s.occurrences|
    ensures var t := SkipPlan(s, p, now, true).state; var next := t.plans[p].planned; var o := s.occurrences[i];
            var before := FindBySchedule(s.occurrences, p, next);
            && t.plans[p] == Moved(s.plans[p], next)
            && |t.occurrences| == |s.occurrences| + (if before.Some? then 0 else 1)
            && t.occurrences[i] == (if o.plan == p && o.at == s.plans[p].planned then o.(status := Cancelled) else o)
            && (before.None? ==> t.occurrences[|s.occurrences|] ==
                                 Occurrence(p, next, Generated, Approved, Some(s.nextWorkOrder),
                                            Assignment(None, [], None)))
  {
    var plan := s.plans[p];
    var cancelled := CancelScheduled(s, p, plan.planned);
    CancelExact(s, p, plan.planned, i);
    var next := SkipPlan(s, p, now, true).state.plans[p].planned;
    assert forall j :: 0 <= j < |s.occurrences| ==>
             cancelled.occurrences[j].plan == s.occurrences[j].plan &&
                 cancelled.occurrences[j].at == s.occurrences[j].at;
    SameFinding(s.occurrences, cancelled.occurrences, p, next);
  }

  lemma {:induction false} ScanSilent(r: Rule, from: int, last: int, further: int)
    requires r.interval >= 1 && last <= further && forall d :: last < d <= further && from <= d ==> !Matches(r, d)
    ensures Scan(r, from, further) == Scan(r, from, last)
    decreases further - last
  {
    if last < further { ScanSilent(r, from, last, further - 1); }
  }

  /** Between two consecutive due dates the scan finds nothing. */
  lemma NextInScan(c: Config, date: int, next: int)
    requires c.interval >= 1 && IsDue(c, date) && LeastAfter(c, date, next)
    ensures Days(RuleOf(c), DayOf(next)) == Days(RuleOf(c), DayOf(date)) + [DayOf(next)]
  {
    var r, a, b := RuleOf(c), DayOf(date), DayOf(next);
    forall d | a < d <= b - 1 && r.first <= d
      ensures !Matches(r, d)
    {
      assert DayOf(DAY * d) == d && date < DAY * d < next;
      assert !IsDue(c, DAY * d);
    }
    ScanSilent(r, r.first, a, b - 1);
  }

  lemma OneMore(ds: seq<int>, chain: seq<int>, ds': seq<int>, chain': seq<int>)
    requires 1 <= |chain| <= |ds| + 1 && forall k :: |ds| - (|chain| - 1) <= k < |ds| ==>
                 DAY * ds[k] == chain[1 + k - (|ds| - (|chain| - 1))]
    requires |chain'| == |chain| + 1 && chain'[..|chain|] == chain
    requires ds' == ds + [DayOf(chain'[|chain|])] && chain'[|chain|] == DAY * DayOf(chain'[|chain|])
    ensures forall k :: |ds'| - (|chain'| - 1) <= k < |ds'| ==> DAY * ds'[k] == chain'[1 + k - (|ds'| - (|chain'| - 1))]
  {
    forall k | |ds'| - (|chain'| - 1) <= k < |ds'|
      ensures DAY * ds'[k] == chain'[1 + k - (|ds'| - (|chain'| - 1))]
    {
      if k < |ds| {
        assert ds'[k] == ds[k];
        assert chain'[1 + k - (|ds| - (|chain| - 1))] == chain[1 + k - (|ds| - (|chain| - 1))];
      }
    }
  }

  /** From its second entry on, a chain of due dates consists, read as days, of the last dates of the scan
      up to its own last one. */
  predicate EndsTheScan(c: Config, chain: seq<int>)
    requires c.interval >= 1 && |chain| >= 1
  {
    var ds, n := Days(RuleOf(c), DayOf(chain[|chain| - 1])), |chain| - 1;
    n <= |ds| && forall k :: |ds| - n <= k < |ds| ==> DAY * ds[k] == chain[1 + k - (|ds| - n)]
  }

  lemma {:induction false} ChainEndsTheScan(c: Config, chain: seq<int>)
    requires c.interval >= 1 && Steps(c, chain) && |chain| >= 2
    ensures EndsTheScan(c, chain)
  {
    var last := |chain| - 1;
    assert LeastAfter(c, chain[last - 1], chain[last]);
    var r := RuleOf(c);
    if last == 1 {
      var day := DayOf(chain[1]);
      assert Scan(r, r.first, day) == Scan(r, r.first, day - 1) + [day];
    } else {
      var before := chain[..last];
      forall i | 1 <= i < |before|
        ensures LeastAfter(c, before[i - 1], before[i])
      {
        assert LeastAfter(c, chain[i - 1], chain[i]);
      }
      assert LeastAfter(c, chain[last - 2], chain[last - 1]);
      ChainEndsTheScan(c, before);
      NextInScan(c, chain[last - 1], chain[last]);
      OneMore(Days(r, DayOf(before[last - 1])), before, Days(r, DayOf(chain[last])), chain);
    }
  }

  /** Over every run: from the first skip on, a plan has gone through consecutive recurrence dates, the
      last ones of the scan up to its present due date, without gap. */
  lemma SkippedDatesAreConsecutive(ops: seq<Op>, p: nat)
    requires p < |After(ops).plans| && After(ops).plans[p].skipped != []
    ensures var plan := After(ops).plans[p];
            plan.recurrence.Some? && EndsTheScan(plan.recurrence.value, Chain(plan))
  {
    RunKeeps(ops);
    var plan := After(ops).plans[p];
    assert PlanSound(plan);
    ChainEndsTheScan(plan.recurrence.value, Chain(plan));
  }

  lemma {:induction false} StepsIncrease(c: Config, chain: seq<int>, i: nat, j: nat)
    requires c.interval >= 1 && Steps(c, chain) && i < j < |chain|
    ensures chain[i] < chain[j]
    decreases j
  {
    assert LeastAfter(c, chain[j - 1], chain[j]);
    if i < j - 1 { StepsIncrease(c, chain, i, j - 1); }
  }

  /** Over every run a plan never skips a date twice, and with an end date it can be skipped at most
      as often as its recurrence has dates. */
  lemma SkipsNeverRepeatAndEnd(ops: seq<Op>, p: nat, i: nat, j: nat)
    requires p < |After(ops).plans| && i < j < |Chain(After(ops).plans[p])|
    ensures var plan := After(ops).plans[p];
            && Chain(plan)[i] < Chain(plan)[j]
            && plan.recurrence.Some?
            && (plan.recurrence.value.end.Some? ==>
                  |plan.skipped| <= |Days(RuleOf(plan.recurrence.value), UtcDay(plan.recurrence.value.end.value))|)
  {
    RunKeeps(ops);
    var plan := After(ops).plans[p];
    assert PlanSound(plan);
    var c, chain := plan.recurrence.value, Chain(plan);
    StepsIncrease(c, chain, i, j);
    if c.end.Some? {
      ChainEndsTheScan(c, chain);
      assert LeastAfter(c, chain[|chain| - 2], chain[|chain| - 1]);
      ScanPrefix(RuleOf(c), RuleOf(c).first, DayOf(plan.planned), UtcDay(c.end.value));
    }
  }
}
