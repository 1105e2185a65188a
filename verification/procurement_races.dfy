// Every interleaving of procurement calls: the winner of a work order is unique, any number of its reviews
// amount to one of them, and an award is taken back exactly by a stale write.
module ProcurementRaces {
  import opened Wrappers
  import opened Procurement
  import PR = ProcurementRuns
  import opened ProcurementConcurrency

  // ------------------------------------------------------------------ every interleaving

  const START := System(EMPTY, [], [])

  /** The documents and calls after any events, from any start. */
  function RunFrom(start: System, events: seq<Event>): System
  {
    if events == [] then start
    else Next(RunFrom(start, events[..|events| - 1]), events[|events| - 1])
  }

  function Run(events: seq<Event>): System { RunFrom(START, events) }

  lemma {:induction false} RunKeeps(events: seq<Event>)
    ensures SysInv(Run(events))
  {
    if events != [] {
      RunKeeps(events[..|events| - 1]);
      NextKeeps(Run(events[..|events| - 1]), events[|events| - 1]);
    }
  }

  /** In every interleaving of any number of calls: a work order has at most one awarded application, at most
      one accepted quotation and at most one contract, and all are of the vendor it is assigned to. */
  lemma OneWinnerConcurrently(events: seq<Event>, i: nat, j: nat, q: nat, r: nat)
    requires var s := Run(events).db;
             && i < |s.applications| && j < |s.applications| && q < |s.quotations| && r < |s.quotations|
    ensures var s := Run(events).db;
            && (s.applications[i].status == Awarded ==> OrderFor(s, i))
            && (s.quotations[q].status == Accepted ==> OrderFor(s, s.quotations[q].application))
            && (i != j && s.applications[i].workOrder == s.applications[j].workOrder ==>
                  !(s.applications[i].status == s.applications[j].status == Awarded))
            && (q != r && s.quotations[q].workOrder == s.quotations[r].workOrder ==>
                  !(s.quotations[q].status == s.quotations[r].status == Accepted))
            && (forall k, l :: 0 <= k < l < |s.awards| ==> s.awards[k].workOrder != s.awards[l].workOrder)
            && (forall k :: 0 <= k < |s.awards| ==> OrderFor(s, s.awards[k].application))
  {
    RunKeeps(events);
    var sys := Run(events);
    if sys.db.quotations[q].status == Accepted { AcceptedFor(sys, q, r); }
  }

  lemma AcceptedFor(sys: System, q: nat, r: nat)
    requires SysInv(sys) && q < |sys.db.quotations| && r < |sys.db.quotations| &&
             sys.db.quotations[q].status == Accepted
    ensures OrderFor(sys.db, sys.db.quotations[q].application)
    ensures q != r && sys.db.quotations[r].status == Accepted ==>
              sys.db.quotations[q].workOrder != sys.db.quotations[r].workOrder
  {
    var k :| 0 <= k < |sys.processes| && AcceptedBy(sys, q, k);
    assert ProcessInv(sys, sys.processes[k]);
    if q != r && sys.db.quotations[r].status == Accepted {
      var l :| 0 <= l < |sys.processes| && AcceptedBy(sys, r, l);
      assert ProcessInv(sys, sys.processes[l]);
      assert k != l;
      assert OrderOf(sys.db, sys.processes[k].call) != OrderOf(sys.db, sys.processes[l].call);
    }
  }

  // ------------------------------------------------------------------ taking an award back

  /** The write of a withdrawal or review of application `a` whose check came before the award. */
  predicate StaleWrite(sys: System, e: Event, a: nat)
  {
    && e.Go? && e.process < |sys.processes| && !sys.processes[e.process].stopped && sys.processes[e.process].done == 0
    && sys.processes[e.process].call.StatusCall? && sys.processes[e.process].call.application == a
  }

  /** The work order of `a` is assigned, and its award, if it was a review, is marked. */
  predicate Settled(sys: System, a: nat)
  {
    && Loaded(sys.db, a) && OrderFor(sys.db, a)
    && forall k :: 0 <= k < |sys.processes| && HasSaved(sys.processes[k]) && sys.processes[k].call.AwardCall? &&
                   OrderOf(sys.db, sys.processes[k].call) == Some(sys.db.applications[a].workOrder) ==>
         sys.processes[k].done >= 3
  }

  lemma AwardedIsSettled(sys: System, a: nat)
    requires SysInv(sys) && a < |sys.db.applications| && sys.db.applications[a].status == Awarded
    ensures Settled(sys, a)
  {
    forall k | 0 <= k < |sys.processes| && HasSaved(sys.processes[k]) && sys.processes[k].call.AwardCall? &&
               OrderOf(sys.db, sys.processes[k].call) == Some(sys.db.applications[a].workOrder)
      ensures sys.processes[k].done >= 3
    {
      assert ProcessInv(sys, sys.processes[k]);
    }
  }

  lemma SettledStatus(sys: System, k: nat, a: nat, t: System)
    requires SysInv(sys) && Settled(sys, a) && Ready(sys, k) && t == GoOn(sys, k)
    requires sys.processes[k].call.StatusCall? || sys.processes[k].call.QuotationCall?
    ensures Settled(t, a)
    ensures StaleWrite(sys, Go(k), a) ==> t.db.applications[a].status != Awarded
    ensures !StaleWrite(sys, Go(k), a) ==> t.db.applications[a].status == sys.db.applications[a].status
  {
  }

  lemma SettledAward(sys: System, k: nat, a: nat, t: System)
    requires SysInv(sys) && Settled(sys, a) && Ready(sys, k) && t == GoOn(sys, k) && sys.processes[k].call.AwardCall?
    ensures Settled(t, a) && t.db.applications[a].status == sys.db.applications[a].status
  {
    var p := sys.processes[k];
    assert ProcessInv(sys, p);
    if OrderOf(sys.db, p.call) == Some(sys.db.applications[a].workOrder) && HasSaved(p) {
      assert p.done >= 3;
    }
  }

  lemma SettledContract(sys: System, k: nat, a: nat, t: System)
    requires SysInv(sys) && Settled(sys, a) && Ready(sys, k) && t == GoOn(sys, k) && sys.processes[k].call.ContractCall?
    ensures Settled(t, a) && t.db.applications[a].status == sys.db.applications[a].status
  {
    assert ProcessInv(sys, sys.processes[k]);
  }

  lemma SettledGo(sys: System, k: nat, a: nat, t: System)
    requires SysInv(sys) && Settled(sys, a) && Ready(sys, k) && t == GoOn(sys, k)
    ensures Settled(t, a)
    ensures StaleWrite(sys, Go(k), a) ==> t.db.applications[a].status != Awarded
    ensures !StaleWrite(sys, Go(k), a) ==> t.db.applications[a].status == sys.db.applications[a].status
  {
    match sys.processes[k].call
    case AwardCall(_, _) => SettledAward(sys, k, a, t);
    case ContractCall(_) => SettledContract(sys, k, a, t);
    case _ => SettledStatus(sys, k, a, t);
  }

  /** After an award, an event takes it back exactly if it is such a stale write, and none gives it back. */
  lemma SettledStep(sys: System, e: Event, a: nat)
    requires SysInv(sys) && Settled(sys, a)
    ensures var t := Next(sys, e);
            && Settled(t, a)
            && (StaleWrite(sys, e, a) ==> t.db.applications[a].status != Awarded)
            && (!StaleWrite(sys, e, a) ==> t.db.applications[a].status == sys.db.applications[a].status)
  {
    var t := Next(sys, e);
    if e.Go? {
      if Ready(sys, e.process) { SettledGo(sys, e.process, a, t); }
    } else if e.Start? {
      assert forall l :: 0 <= l < |sys.processes| ==> t.processes[l] == sys.processes[l];
    } else {
      NewDocumentsOnwards(sys, e, t);
    }
  }

  ghost predicate TakenBackSince(events: seq<Event>, later: seq<Event>, a: nat)
  {
    exists n :: 0 <= n < |later| && StaleWrite(Run(events + later[..n]), later[n], a)
  }

  lemma TakenBackOneMore(events: seq<Event>, later: seq<Event>, last: Event, a: nat)
    ensures TakenBackSince(events, later + [last], a) <==>
            TakenBackSince(events, later, a) || StaleWrite(Run(events + later), last, a)
  {
    var all := later + [last];
    assert all[..|later|] == later && all[|later|] == last;
    forall n | 0 <= n < |later|
      ensures all[..n] == later[..n] && all[n] == later[n]
    {
    }
  }

  ghost predicate AwardedAsSaid(events: seq<Event>, later: seq<Event>, a: nat)
  {
    && Settled(Run(events + later), a)
    && (Run(events + later).db.applications[a].status == Awarded <==> !TakenBackSince(events, later, a))
  }

  lemma RunOneMore(events: seq<Event>, last: Event)
    ensures Run(events + [last]) == Next(Run(events), last)
  {
    assert (events + [last])[..|events|] == events;
  }

  lemma AwardedOneMore(events: seq<Event>, later: seq<Event>, last: Event, a: nat)
    requires AwardedAsSaid(events, later, a)
    ensures AwardedAsSaid(events, later + [last], a)
  {
    var sofar := events + later;
    assert events + (later + [last]) == sofar + [last];
    RunKeeps(sofar);
    SettledStep(Run(sofar), last, a);
    RunOneMore(sofar, last);
    TakenBackOneMore(events, later, last, a);
  }

  lemma JustAwarded(events: seq<Event>, a: nat)
    requires a < |Run(events).db.applications| && Run(events).db.applications[a].status == Awarded
    ensures AwardedAsSaid(events, [], a)
  {
    assert events + [] == events;
    RunKeeps(events);
    AwardedIsSettled(Run(events), a);
  }

  /** Over every interleaving: once awarded, an application is still awarded if and only if no withdrawal or
      review of it that checked before the award has written since; its work order stays assigned to its
      vendor in either case. */
  lemma {:induction false} AwardTakenBackIff(events: seq<Event>, later: seq<Event>, a: nat)
    requires a < |Run(events).db.applications| && Run(events).db.applications[a].status == Awarded
    ensures AwardedAsSaid(events, later, a)
  {
    if later == [] {
      JustAwarded(events, a);
    } else {
      var init, last := later[..|later| - 1], later[|later| - 1];
      AwardTakenBackIff(events, init, a);
      AwardedOneMore(events, init, last, a);
      assert later == init + [last];
    }
  }

  // ------------------------------------------------------------------ reviews of one work order

  /** Only awarding reviews of work order `w`. */
  predicate ReviewsOf(s: State, w: nat, events: seq<Event>)
  {
    forall n :: 0 <= n < |events| ==>
      events[n].Go? ||
      (events[n].Start? && events[n].call.AwardCall? && events[n].call.accepting.None? &&
       Loaded(s, events[n].call.application) && s.applications[events[n].call.application].workOrder == w)
  }

  /** How far the winner's award of application `a` has come. */
  function Stage(s: State, a: nat, done: nat): State
    requires Loaded(s, a)
  {
    if done == 0 then s
    else if done == 1 then SaveOrder(s, a)
    else if done == 2 then RejectOthers(SaveOrder(s, a), a)
    else WriteStatus(RejectOthers(SaveOrder(s, a), a), a, Awarded)
  }

  /** Nobody has saved yet, or process `k` is the only one that has. */
  predicate OneAhead(s: State, w: nat, version: nat, sys: System, winner: Option<nat>)
  {
    && |sys.versions| == |s.workOrders| && w < |s.workOrders|
    && (forall j :: 0 <= j < |sys.processes| ==>
          && sys.processes[j].call.AwardCall? && sys.processes[j].call.accepting.None?
          && Loaded(s, sys.processes[j].call.application)
          && s.applications[sys.processes[j].call.application].workOrder == w
          && (Some(j) != winner ==> sys.processes[j].done == 0)
          && (sys.processes[j].stopped && winner.None? ==> !Allowed(s, sys.processes[j].call))
          && (!sys.processes[j].stopped ==> Allowed(s, sys.processes[j].call))
          && (!sys.processes[j].stopped && Some(j) != winner ==> sys.processes[j].version == version))
    && (if winner.None? then sys.db == s && sys.versions[w] == version
        else
          && winner.value < |sys.processes|
          && var p := sys.processes[winner.value];
             && !p.stopped && 1 <= p.done <= 3 && Allowed(s, p.call) && sys.versions[w] == version + 1
             && sys.db == Stage(s, p.call.application, p.done))
  }

  lemma StageShape(s: State, a: nat, done: nat)
    requires Loaded(s, a) && done <= 3
    ensures var t := Stage(s, a, done);
            && |t.workOrders| == |s.workOrders| && |t.applications| == |s.applications|
            && (forall i :: 0 <= i < |s.applications| ==> t.applications[i].workOrder == s.applications[i].workOrder)
            && (done > 0 ==> t.workOrders[s.applications[a].workOrder].status != Open)
  {
  }

  lemma StartAhead(s: State, w: nat, version: nat, sys: System, winner: Option<nat>, call: Call, t: System)
    requires OneAhead(s, w, version, sys, winner) && t == Begun(sys, call)
    requires call.AwardCall? && call.accepting.None? && Loaded(s, call.application)
    requires s.applications[call.application].workOrder == w
    ensures OneAhead(s, w, version, t, winner)
  {
    if winner.Some? {
      var p := sys.processes[winner.value];
      StageShape(s, p.call.application, p.done);
    }
    assert forall j :: 0 <= j < |sys.processes| ==> t.processes[j] == sys.processes[j];
  }

  lemma FirstGoes(s: State, w: nat, version: nat, sys: System, k: nat, t: System)
    requires OneAhead(s, w, version, sys, None) && Ready(sys, k) && t == GoOn(sys, k)
    ensures OneAhead(s, w, version, t, Some(k))
  {
    assert forall j :: 0 <= j < |sys.processes| && j != k ==> t.processes[j] == sys.processes[j];
  }

  lemma NextGoes(s: State, w: nat, version: nat, sys: System, winner: nat, k: nat, t: System)
    requires OneAhead(s, w, version, sys, Some(winner)) && Ready(sys, k) && t == GoOn(sys, k)
    ensures OneAhead(s, w, version, t, Some(winner))
  {
    var q := sys.processes[winner];
    StageShape(s, q.call.application, q.done);
    assert forall j :: 0 <= j < |sys.processes| && j != k ==> t.processes[j] == sys.processes[j];
  }

  lemma {:induction false} ReviewsAhead(s: State, w: nat, versions: seq<nat>, events: seq<Event>)
    returns (winner: Option<nat>)
    requires w < |s.workOrders| == |versions| && ReviewsOf(s, w, events)
    ensures OneAhead(s, w, versions[w], RunFrom(System(s, versions, []), events), winner)
  {
    if events == [] {
      winner := None;
    } else {
      var init, last := events[..|events| - 1], events[|events| - 1];
      assert events[|events| - 1] == last;
      winner := ReviewsAhead(s, w, versions, init);
      var sys := RunFrom(System(s, versions, []), init);
      if last.Start? {
        StartAhead(s, w, versions[w], sys, winner, last.call, Next(sys, last));
      } else if Ready(sys, last.process) {
        if winner.None? {
          FirstGoes(s, w, versions[w], sys, last.process, Next(sys, last));
          winner := Some(last.process);
        } else {
          NextGoes(s, w, versions[w], sys, winner.value, last.process, Next(sys, last));
        }
      }
    }
  }

  /** Every started review has come to its end. */
  predicate AllOver(sys: System)
  {
    forall j :: 0 <= j < |sys.processes| ==> sys.processes[j].stopped || sys.processes[j].done >= 3
  }

  /** Any number of awarding reviews of one work order, in any order of their steps: when all are over, the
      documents are those of exactly one of them executed alone, the others having written nothing; or, if
      no check could pass, nothing has changed. */
  lemma ReviewsOfOneOrder(s: State, w: nat, versions: seq<nat>, events: seq<Event>) returns (winner: Option<nat>)
    requires PR.Inv(s) && w < |s.workOrders| == |versions| && ReviewsOf(s, w, events)
    requires AllOver(RunFrom(System(s, versions, []), events))
    ensures var sys := RunFrom(System(s, versions, []), events);
            && (winner.None? ==> sys.db == s && forall j :: 0 <= j < |sys.processes| ==>
                !Allowed(s, sys.processes[j].call))
            && (winner.Some? ==>
                  && winner.value < |sys.processes| && sys.processes[winner.value].call.AwardCall?
                  && Loaded(s, sys.processes[winner.value].call.application)
                  && var r := ReviewApplication(s, sys.processes[winner.value].call.application, ToAward);
                     r.outcome == Done && sys.db == r.state)
            && (forall j :: 0 <= j < |sys.processes| && Some(j) != winner ==>
                  sys.processes[j].stopped && sys.processes[j].done == 0)
            && PR.Inv(sys.db)
  {
    var sys := RunFrom(System(s, versions, []), events);
    winner := ReviewsAhead(s, w, versions, events);
    if winner.Some? {
      var a := sys.processes[winner.value].call.application;
      WritesAreTheAward(s, a);
      PR.ReviewKeeps(s, a, ToAward);
    }
  }

  // ------------------------------------------------------------------ an award taken back

  const STALE_WITHDRAWAL: seq<Event> :=
    [Ordered(true, Open), Applied(0, 7), Start(AwardCall(0, None)), Start(StatusCall(0, Withdrawn)),
     Go(0), Go(0), Go(0), Go(1)]

  /** The documents and calls of that run: `done` writes of the review, and whether the withdrawal wrote. */
  function StaleAt(done: nat, status: ApplicationStatus, written: nat): System
  {
    System(State([if done > 0 then WorkOrder(true, AssignedWork, Some(7)) else WorkOrder(true, Open, None)],
                 [Application(0, 7, status)], [], []),
           [if done > 0 then 1 else 0],
           [Process(AwardCall(0, None), 0, done, false), Process(StatusCall(0, Withdrawn), 0, written, false)])
  }

  /** The systems that the events lead through. */
  predicate Follows(systems: seq<System>, events: seq<Event>, n: nat)
    requires n < |events| && |systems| == |events| + 1
  {
    systems[n + 1] == Next(systems[n], events[n])
  }

  lemma {:induction false} TraceRuns(systems: seq<System>, events: seq<Event>)
    requires |systems| == |events| + 1 && systems[0] == START
    requires forall n :: 0 <= n < |events| ==> Follows(systems, events, n)
    ensures Run(events) == systems[|events|]
  {
    if events != [] {
      var last := |events| - 1;
      var ss, es := systems[..last + 1], events[..last];
      forall n | 0 <= n < last
        ensures Follows(ss, es, n)
      {
        assert Follows(systems, events, n);
      }
      TraceRuns(ss, es);
      assert Follows(systems, events, last);
    }
  }

  function Ordering(): System { System(State([WorkOrder(true, Open, None)], [], [], []), [0], []) }

  function Applying(processes: seq<Process>): System
  {
    System(State([WorkOrder(true, Open, None)], [Application(0, 7, Submitted)], [], []), [0], processes)
  }

  lemma StaleStarts()
    ensures Next(START, Ordered(true, Open)) == Ordering()
    ensures Next(Ordering(), Applied(0, 7)) == Applying([])
    ensures Next(Applying([]), Start(AwardCall(0, None))) == Applying([Process(AwardCall(0, None), 0, 0, false)])
    ensures Next(Applying([Process(AwardCall(0, None), 0, 0, false)]), Start(StatusCall(0, Withdrawn))) ==
            StaleAt(0, Submitted, 0)
  {
  }

  lemma StaleWrites()
    ensures Next(StaleAt(0, Submitted, 0), Go(0)) == StaleAt(1, Submitted, 0)
    ensures Next(StaleAt(1, Submitted, 0), Go(0)) == StaleAt(2, Submitted, 0)
    ensures Next(StaleAt(2, Submitted, 0), Go(0)) == StaleAt(3, Awarded, 0)
    ensures Next(StaleAt(3, Awarded, 0), Go(1)) == StaleAt(3, Withdrawn, 1)
  {
    assert RejectOthers(StaleAt(1, Submitted, 0).db, 0).applications == [Application(0, 7, Submitted)];
  }

  /** A vendor withdraws while its application is being awarded: checked before, written after. The work
      order stays assigned to it. */
  lemma WithdrawalTakesAwardBack()
    ensures Run(STALE_WITHDRAWAL[..7]) == StaleAt(3, Awarded, 0)
    ensures Run(STALE_WITHDRAWAL) == StaleAt(3, Withdrawn, 1)
  {
    var one := [Process(AwardCall(0, None), 0, 0, false)];
    var systems := [START, Ordering(), Applying([]), Applying(one), StaleAt(0, Submitted, 0), StaleAt(1, Submitted, 0),
                    StaleAt(2, Submitted, 0), StaleAt(3, Awarded, 0), StaleAt(3, Withdrawn, 1)];
    StaleStarts();
    StaleWrites();
    StaleFollows(systems);
    TraceRuns(systems, STALE_WITHDRAWAL);
    var ss, es := systems[..8], STALE_WITHDRAWAL[..7];
    forall n | 0 <= n < 7
      ensures Follows(ss, es, n)
    {
      assert Follows(systems, STALE_WITHDRAWAL, n);
    }
    TraceRuns(ss, es);
  }

  lemma StaleFollows(systems: seq<System>)
    requires systems == [START, Ordering(), Applying([]), Applying([Process(AwardCall(0, None), 0, 0, false)]),
                         StaleAt(0, Submitted, 0), StaleAt(1, Submitted, 0), StaleAt(2, Submitted, 0),
                         StaleAt(3, Awarded, 0), StaleAt(3, Withdrawn, 1)]
    ensures |systems| == |STALE_WITHDRAWAL| + 1
    ensures forall n :: 0 <= n < |STALE_WITHDRAWAL| ==> Follows(systems, STALE_WITHDRAWAL, n)
  {
    StaleStarts();
    StaleWrites();
  }

  // ------------------------------------------------------------------ a call on its own

  /** A call with all of its steps and nothing in between. */
  function Alone(sys: System, call: Call): System
  {
    var k := |sys.processes|;
    Next(Next(Next(Next(Next(sys, Start(call)), Go(k)), Go(k)), Go(k)), Go(k))
  }

  /** What the service does in one piece; of a revision only that the quotation is sent again. */
  function InOnePiece(s: State, call: Call): State
  {
    match call
    case AwardCall(a, None) => ReviewApplication(s, a, ToAward).state
    case AwardCall(a, Some(q)) =>
      if q < |s.quotations| && s.quotations[q].application == a then SetQuotationStatus(s, q, Accepted).state else s
    case StatusCall(a, UnderReview) => ReviewApplication(s, a, ToReview).state
    case StatusCall(a, Rejected) => ReviewApplication(s, a, ToReject).state
    case StatusCall(a, Withdrawn) =>
      if a < |s.applications| && s.applications[a].status != Rejected
      then Withdraw(s, a, s.applications[a].vendor).state else ReviewApplication(s, a, ToWithdraw).state
    case StatusCall(_, _) => s
    case ContractCall(a) => AwardContract(s, a).state
    case QuotationCall(q, Sent) =>
      if q < |s.quotations| && s.quotations[q].status in {Draft, Sent, InReview}
      then s.(quotations := s.quotations[q := s.quotations[q].(status := Sent)]) else s
    case QuotationCall(_, Accepted) => s
    case QuotationCall(q, next) => SetQuotationStatus(s, q, next).state
  }

  lemma StoppedAlone(sys: System, call: Call)
    requires SysInv(sys) && !Allowed(sys.db, call)
    ensures Alone(sys, call).db == sys.db
  {
  }

  lemma AwardAlone(sys: System, call: Call)
    requires SysInv(sys) && Allowed(sys.db, call) && call.AwardCall?
    ensures Alone(sys, call).db == InOnePiece(sys.db, call)
  {
    var k, a := |sys.processes|, call.application;
    var begun := Next(sys, Start(call));
    var saved := Next(begun, Go(k));
    assert saved.db == SaveOrder(sys.db, a);
    var rejected := Next(saved, Go(k));
    assert rejected.db == RejectOthers(saved.db, a);
    var awarded := Next(rejected, Go(k));
    assert awarded.db == WriteStatus(rejected.db, a, Awarded);
    WritesAreTheAward(sys.db, a);
  }

  lemma OthersAlone(sys: System, call: Call)
    requires SysInv(sys) && Allowed(sys.db, call) && !call.AwardCall?
    ensures Alone(sys, call).db == InOnePiece(sys.db, call)
  {
  }

  /** A call that nothing interferes with does what the service does in one piece. */
  lemma AloneIsInOnePiece(sys: System, call: Call)
    requires SysInv(sys)
    ensures Alone(sys, call).db == InOnePiece(sys.db, call)
  {
    if !Allowed(sys.db, call) { StoppedAlone(sys, call); }
    else if call.AwardCall? { AwardAlone(sys, call); }
    else { OthersAlone(sys, call); }
  }
}
