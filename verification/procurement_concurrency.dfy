// Concurrent calls of the procurement services. A call checks what it loaded and then makes its writes one
// by one; the writes of any number of calls come in any order. The work order is saved only in the version
// that was loaded, every other document is written unconditionally, and a contract is one transaction.
// This module proves what every step keeps; `ProcurementRaces` draws the conclusions.
module ProcurementConcurrency {
  import opened Wrappers
  import opened Procurement

  // ------------------------------------------------------------------ calls

  /** `AwardCall` is an awarding review, alone or on the way to accepting a quotation; `StatusCall` a
      withdrawal or any other review; `QuotationCall` any other change of a quotation's status, by a
      revision too. */
  datatype Call =
    | AwardCall(application: nat, accepting: Option<nat>)
    | StatusCall(application: nat, status: ApplicationStatus)
    | ContractCall(application: nat)
    | QuotationCall(quotation: nat, next: QuotationStatus)

  predicate Loaded(s: State, a: nat)
  {
    a < |s.applications| && s.applications[a].workOrder < |s.workOrders|
  }

  /** What a call checks on the documents it loads. */
  predicate Allowed(s: State, call: Call)
  {
    match call
    case AwardCall(a, accepting) =>
      && Loaded(s, a) && ReviewApplication(s, a, ToAward).outcome == Done
      && (accepting.Some? ==>
            && accepting.value < |s.quotations| && s.quotations[accepting.value].application == a
            && MayBecome(s.quotations[accepting.value].status, Accepted))
    case StatusCall(a, status) =>
      && Loaded(s, a)
      && (if status == Withdrawn then s.applications[a].status != Awarded
          else (status == UnderReview || status == Rejected) &&
               s.applications[a].status != Awarded && s.applications[a].status != Withdrawn)
    case ContractCall(a) =>
      && Loaded(s, a) && AwardContract(s, a).outcome == Done
    case QuotationCall(q, next) =>
      && q < |s.quotations|
      && (if next == Sent then s.quotations[q].status in [Draft, Sent, InReview]
          else next != Accepted && MayBecome(s.quotations[q].status, next))
  }

  /** A call under way: the version of the work order it loaded, and how many of its writes are done. */
  datatype Process = Process(call: Call, version: nat, done: nat, stopped: bool)

  /** `versions` counts the saves of each work order. */
  datatype System = System(db: State, versions: seq<nat>, processes: seq<Process>)

  /** `Progressed`, `Ordered`, `Applied` and `Quoted` stand for the work-order service and the calls that
      only store a new document. */
  datatype Event =
    | Start(call: Call)
    | Go(process: nat)
    | Ordered(marketplace: bool, status: WorkStatus)
    | Progressed(workOrder: nat, status: WorkStatus, saved: bool)
    | Applied(workOrder: nat, vendor: nat)
    | Quoted(quotation: Quotation)

  // ------------------------------------------------------------------ writes

  function SaveOrder(s: State, a: nat): State
    requires Loaded(s, a)
  {
    var app := s.applications[a];
    s.(workOrders := s.workOrders[app.workOrder :=
                       s.workOrders[app.workOrder].(status := AssignedWork, vendor := Some(app.vendor))])
  }

  function RejectOthers(s: State, a: nat): State
    requires a < |s.applications|
  {
    s.(applications := seq(|s.applications|, i requires 0 <= i < |s.applications| =>
         if Loses(s.applications, a, i, false) then s.applications[i].(status := Rejected) else s.applications[i]))
  }

  function WriteStatus(s: State, a: nat, status: ApplicationStatus): State
    requires a < |s.applications|
  {
    s.(applications := s.applications[a := s.applications[a].(status := status)])
  }

  function WriteQuotation(s: State, q: nat, next: QuotationStatus): State
    requires q < |s.quotations|
  {
    s.(quotations := s.quotations[q := s.quotations[q].(status := next)])
  }

  /** In sequence an awarding review's writes are the award. */
  lemma WritesAreTheAward(s: State, a: nat)
    requires Loaded(s, a) && ReviewApplication(s, a, ToAward).outcome == Done
    ensures ReviewApplication(s, a, ToAward).state == WriteStatus(RejectOthers(SaveOrder(s, a), a), a, Awarded)
  {
    assert WriteStatus(RejectOthers(SaveOrder(s, a), a), a, Awarded).applications == Assigned(s, a, false).applications;
  }

  // ------------------------------------------------------------------ steps

  /** The work order of a call that assigns one. */
  function OrderOf(s: State, call: Call): Option<nat>
  {
    if (call.AwardCall? || call.ContractCall?) && Loaded(s, call.application)
    then Some(s.applications[call.application].workOrder) else None
  }

  /** Calls refer to documents that exist, and none but an award writes awarded or accepted. */
  predicate Fits(s: State, p: Process)
  {
    match p.call
    case AwardCall(a, accepting) =>
      && Loaded(s, a)
      && (accepting.Some? ==>
            accepting.value < |s.quotations| && s.quotations[accepting.value].application == a)
    case StatusCall(a, status) => Loaded(s, a) && status != Awarded
    case ContractCall(a) => Loaded(s, a)
    case QuotationCall(q, next) => q < |s.quotations| && next != Accepted
  }

  /** Every work order has a version, and every call under way its documents. */
  predicate Sized(sys: System)
  {
    && |sys.versions| == |sys.db.workOrders|
    && forall k :: 0 <= k < |sys.processes| && !sys.processes[k].stopped ==> Fits(sys.db, sys.processes[k])
  }

  predicate Ready(sys: System, k: nat)
  {
    && |sys.versions| == |sys.db.workOrders|
    && k < |sys.processes| && !sys.processes[k].stopped && Fits(sys.db, sys.processes[k])
  }

  function WithProcess(sys: System, k: nat, p: Process): System
    requires k < |sys.processes|
  {
    sys.(processes := sys.processes[k := p])
  }

  /** The save of the loaded version failed, or the unique index on contracts refused. */
  predicate Overtaken(sys: System, p: Process)
    requires |sys.versions| == |sys.db.workOrders|
  {
    var w := OrderOf(sys.db, p.call);
    w.Some? && (sys.versions[w.value] != p.version || (p.call.ContractCall? && HasAward(sys.db.awards, w.value)))
  }

  function Bumped(sys: System, w: nat): seq<nat>
    requires w < |sys.versions|
  {
    sys.versions[w := sys.versions[w] + 1]
  }

  /** An awarding review's next write. */
  function GoAward(sys: System, k: nat): System
    requires Ready(sys, k) && sys.processes[k].call.AwardCall?
  {
    var p := sys.processes[k];
    var a, w := p.call.application, sys.db.applications[p.call.application].workOrder;
    var next := WithProcess(sys, k, p.(done := p.done + 1));
    if p.done == 0 then
      if Overtaken(sys, p) then WithProcess(sys, k, p.(stopped := true))
      else next.(db := SaveOrder(sys.db, a), versions := Bumped(sys, w))
    else if p.done == 1 then next.(db := RejectOthers(sys.db, a))
    else if p.done == 2 then next.(db := WriteStatus(sys.db, a, Awarded))
    else if p.done == 3 && p.call.accepting.Some?
        then next.(db := WriteQuotation(sys.db, p.call.accepting.value, Accepted))
    else sys
  }

  /** A contract's transaction. */
  function GoContract(sys: System, k: nat): System
    requires Ready(sys, k) && sys.processes[k].call.ContractCall?
  {
    var p := sys.processes[k];
    var a, app := p.call.application, sys.db.applications[p.call.application];
    if p.done > 0 then sys
    else if Overtaken(sys, p) then WithProcess(sys, k, p.(stopped := true))
    else
      WithProcess(sys, k, p.(done := 1))
      .(db := Assigned(sys.db, a, true).(awards := sys.db.awards + [Award(app.workOrder, a, app.vendor)]),
        versions := Bumped(sys, app.workOrder))
  }

  function GoOn(sys: System, k: nat): System
    requires Ready(sys, k)
  {
    var p := sys.processes[k];
    match p.call
    case AwardCall(_, _) => GoAward(sys, k)
    case ContractCall(_) => GoContract(sys, k)
    case StatusCall(a, status) =>
      if p.done > 0 then sys else WithProcess(sys, k, p.(done := 1)).(db := WriteStatus(sys.db, a, status))
    case QuotationCall(q, next) =>
      if p.done > 0 then sys else WithProcess(sys, k, p.(done := 1)).(db := WriteQuotation(sys.db, q, next))
  }

  function Begun(sys: System, call: Call): System
  {
    var w := OrderOf(sys.db, call);
    var version := if w.Some? && w.value < |sys.versions| then sys.versions[w.value] else 0;
    sys.(processes := sys.processes + [Process(call, version, 0, !Allowed(sys.db, call))])
  }

  function Next(sys: System, e: Event): System
  {
    match e
    case Start(call) => Begun(sys, call)
    case Go(k) => if Ready(sys, k) then GoOn(sys, k) else sys
    case Ordered(marketplace, status) =>
      sys.(db := sys.db.(workOrders := sys.db.workOrders + [WorkOrder(marketplace, status, None)]),
           versions := sys.versions + [0])
    case Progressed(w, status, saved) =>
      if w >= |sys.db.workOrders| || w >= |sys.versions| || status == Open then sys
      else sys.(db := sys.db.(workOrders := sys.db.workOrders[w := sys.db.workOrders[w].(status := status)]),
                versions := if saved then Bumped(sys, w) else sys.versions)
    case Applied(w, vendor) =>
      if w >= |sys.db.workOrders| || HasApplied(sys.db.applications, w, vendor) then sys
      else sys.(db := sys.db.(applications := sys.db.applications + [Application(w, vendor, Submitted)]))
    case Quoted(quotation) =>
      if quotation.application >= |sys.db.applications| || quotation.status != Sent then sys
      else sys.(db := sys.db.(quotations := sys.db.quotations + [Stored(sys.db, quotation)]))
  }

  // ------------------------------------------------------------------ the invariant

  predicate OrderFor(s: State, a: nat)
  {
    && Loaded(s, a)
    && s.workOrders[s.applications[a].workOrder].status != Open
    && s.workOrders[s.applications[a].workOrder].vendor == Some(s.applications[a].vendor)
  }

  /** One application for each vendor and work order; assigned work orders are closed; an awarded
      application's vendor is the assigned one. */
  predicate DocumentsInv(s: State)
  {
    && (forall i :: 0 <= i < |s.applications| ==> s.applications[i].workOrder < |s.workOrders|)
    && (forall i, j :: 0 <= i < j < |s.applications| && s.applications[i].workOrder == s.applications[j].workOrder ==>
          s.applications[i].vendor != s.applications[j].vendor)
    && (forall w :: 0 <= w < |s.workOrders| && s.workOrders[w].vendor.Some? ==> s.workOrders[w].status != Open)
    && (forall i :: 0 <= i < |s.applications| && s.applications[i].status == Awarded ==> OrderFor(s, i))
    && (forall q :: 0 <= q < |s.quotations| ==>
          && s.quotations[q].application < |s.applications|
          && s.quotations[q].workOrder == s.applications[s.quotations[q].application].workOrder
          && s.quotations[q].vendor == s.applications[s.quotations[q].application].vendor)
    && (forall k :: 0 <= k < |s.awards| ==>
          && OrderFor(s, s.awards[k].application)
          && s.awards[k].workOrder == s.applications[s.awards[k].application].workOrder
          && s.awards[k].vendor == s.applications[s.awards[k].application].vendor)
    && (forall k, l :: 0 <= k < l < |s.awards| ==> s.awards[k].workOrder != s.awards[l].workOrder)
  }

  /** The call has assigned the work order. */
  predicate HasSaved(p: Process) { !p.stopped && (p.call.AwardCall? || p.call.ContractCall?) && p.done > 0 }

  /** A call that could still save finds the work order unassigned; one that did save has it assigned. */
  predicate ProcessInv(sys: System, p: Process)
    requires Sized(sys)
  {
    !p.stopped && (p.call.AwardCall? || p.call.ContractCall?) ==>
      var a := p.call.application;
      && Loaded(sys.db, a)
      && var w := sys.db.applications[a].workOrder;
         && p.version <= sys.versions[w]
         && (p.done == 0 && p.version == sys.versions[w] ==> sys.db.workOrders[w].vendor.None?)
         && (p.done > 0 ==> OrderFor(sys.db, a))
         && (p.call.AwardCall? && p.done in [1, 2] ==>
               forall i :: 0 <= i < |sys.db.applications| && sys.db.applications[i].workOrder == w ==>
                 sys.db.applications[i].status != Awarded)
  }

  predicate ProcessesInv(sys: System)
    requires Sized(sys)
  {
    && (forall k :: 0 <= k < |sys.processes| ==> ProcessInv(sys, sys.processes[k]))
    && (forall k, l :: 0 <= k < l < |sys.processes| && HasSaved(sys.processes[k]) && HasSaved(sys.processes[l]) ==>
          OrderOf(sys.db, sys.processes[k].call) != OrderOf(sys.db, sys.processes[l].call))
  }

  /** An accepted quotation was accepted by a finished review that saved its work order. */
  predicate AcceptedBy(sys: System, q: nat, k: nat)
    requires q < |sys.db.quotations| && k < |sys.processes|
  {
    && HasSaved(sys.processes[k]) && sys.processes[k].done == 4
    && sys.processes[k].call == AwardCall(sys.db.quotations[q].application, Some(q))
  }

  ghost predicate AcceptedInv(sys: System)
  {
    forall q :: 0 <= q < |sys.db.quotations| && sys.db.quotations[q].status == Accepted ==>
      exists k :: 0 <= k < |sys.processes| && AcceptedBy(sys, q, k)
  }

  ghost predicate SysInv(sys: System)
  {
    Sized(sys) && DocumentsInv(sys.db) && ProcessesInv(sys) && AcceptedInv(sys)
  }

  // ------------------------------------------------------------------ what a step leaves alone

  /** Documents keep their identity, an assigned work order stays assigned to its vendor and closed, and a
      work order is assigned only by a save that moves its version. */
  predicate Onwards(sys: System, t: System)
  {
    && |sys.versions| == |sys.db.workOrders| <= |t.db.workOrders| == |t.versions|
    && |sys.db.applications| <= |t.db.applications| && |sys.db.quotations| <= |t.db.quotations|
    && (forall i :: 0 <= i < |sys.db.applications| ==>
          t.db.applications[i] == sys.db.applications[i].(status := t.db.applications[i].status))
    && (forall q :: 0 <= q < |sys.db.quotations| ==>
          t.db.quotations[q].application == sys.db.quotations[q].application)
    && (forall w :: 0 <= w < |sys.db.workOrders| ==>
          && sys.versions[w] <= t.versions[w]
          && (sys.versions[w] == t.versions[w] || sys.db.workOrders[w].vendor.Some? ==>
                t.db.workOrders[w].vendor == sys.db.workOrders[w].vendor)
          && (sys.db.workOrders[w].status != Open ==> t.db.workOrders[w].status != Open))
  }

  /** No application of the work order is newly awarded. */
  predicate NoneAwardedNewly(sys: System, t: System, w: nat)
  {
    forall i :: 0 <= i < |t.db.applications| ==>
      t.db.applications[i].workOrder == w && t.db.applications[i].status == Awarded ==>
        i < |sys.db.applications| && sys.db.applications[i].status == Awarded
  }

  lemma FitsOnwards(sys: System, t: System, p: Process)
    requires Onwards(sys, t) && Fits(sys.db, p)
    ensures Fits(t.db, p)
  {
  }

  lemma ProcessOnwards(sys: System, t: System, p: Process)
    requires Sized(sys) && Sized(t) && Onwards(sys, t) && ProcessInv(sys, p)
    requires (p.call.AwardCall? || p.call.ContractCall?) && !p.stopped ==>
               Loaded(sys.db, p.call.application) &&
               NoneAwardedNewly(sys, t, sys.db.applications[p.call.application].workOrder)
    ensures ProcessInv(t, p)
  {
  }

  /** The processes that did not make the step. */
  predicate OthersSame(sys: System, t: System, k: nat)
  {
    && |t.processes| == |sys.processes|
    && forall l :: 0 <= l < |sys.processes| && l != k ==> t.processes[l] == sys.processes[l]
  }

  lemma AcceptedOnwards(sys: System, t: System, k: nat)
    requires AcceptedInv(sys) && Onwards(sys, t) && OthersSame(sys, t, k) && k < |sys.processes|
    requires HasSaved(sys.processes[k]) && sys.processes[k].done == 4 ==> t.processes[k] == sys.processes[k]
    requires forall q :: 0 <= q < |t.db.quotations| && t.db.quotations[q].status == Accepted ==>
               (q < |sys.db.quotations| && sys.db.quotations[q].status == Accepted) ||
               AcceptedBy(t, q, k)
    ensures AcceptedInv(t)
  {
    forall q | 0 <= q < |t.db.quotations| && t.db.quotations[q].status == Accepted
      ensures exists l :: 0 <= l < |t.processes| && AcceptedBy(t, q, l)
    {
      if q < |sys.db.quotations| && sys.db.quotations[q].status == Accepted {
        var l :| 0 <= l < |sys.processes| && AcceptedBy(sys, q, l);
        assert AcceptedBy(t, q, l);
      }
    }
  }

  /** One process moves on: the call stays, and it may stop. */
  predicate Moved(sys: System, t: System, k: nat)
  {
    && k < |sys.processes| && !sys.processes[k].stopped && OthersSame(sys, t, k)
    && t.processes[k].call == sys.processes[k].call && t.processes[k].version == sys.processes[k].version
  }

  lemma SizedOnwards(sys: System, t: System, k: nat)
    requires Sized(sys) && Onwards(sys, t) && Moved(sys, t, k)
    ensures Sized(t)
  {
    forall l | 0 <= l < |t.processes| && !t.processes[l].stopped
      ensures Fits(t.db, t.processes[l])
    {
      FitsOnwards(sys, t, sys.processes[l]);
    }
  }

  lemma SameOrder(sys: System, t: System, p: Process)
    requires Sized(sys) && Onwards(sys, t) && !p.stopped && Fits(sys.db, p)
    ensures OrderOf(t.db, p.call) == OrderOf(sys.db, p.call)
  {
  }

  /** No other process has saved the work order of process `k`. */
  predicate SoleSaver(sys: System, k: nat)
    requires k < |sys.processes|
  {
    forall l :: 0 <= l < |sys.processes| && l != k && HasSaved(sys.processes[l]) ==>
      OrderOf(sys.db, sys.processes[l].call) != OrderOf(sys.db, sys.processes[k].call)
  }

  lemma ProcessesOnwards(sys: System, t: System, k: nat)
    requires Sized(sys) && ProcessesInv(sys) && Onwards(sys, t) && Moved(sys, t, k) && Sized(t)
    requires ProcessInv(t, t.processes[k])
    requires forall l :: 0 <= l < |sys.processes| && l != k ==> ProcessInv(t, sys.processes[l])
    requires HasSaved(t.processes[k]) ==> SoleSaver(sys, k)
    ensures ProcessesInv(t)
  {
    forall l | 0 <= l < |sys.processes| && HasSaved(sys.processes[l])
      ensures OrderOf(t.db, sys.processes[l].call) == OrderOf(sys.db, sys.processes[l].call)
    {
      SameOrder(sys, t, sys.processes[l]);
    }
    SameOrder(sys, t, sys.processes[k]);
  }

  lemma OthersOnwards(sys: System, t: System, k: nat)
    requires Sized(sys) && ProcessesInv(sys) && Sized(t) && Onwards(sys, t)
    requires forall l :: 0 <= l < |sys.processes| && l != k && !sys.processes[l].stopped ==>
               var w := OrderOf(sys.db, sys.processes[l].call);
               w.Some? ==> NoneAwardedNewly(sys, t, w.value)
    ensures forall l :: 0 <= l < |sys.processes| && l != k ==> ProcessInv(t, sys.processes[l])
  {
    forall l | 0 <= l < |sys.processes| && l != k
      ensures ProcessInv(t, sys.processes[l])
    {
      ProcessOnwards(sys, t, sys.processes[l]);
    }
  }

  // ------------------------------------------------------------------ status writes

  lemma StatusDocuments(s: State, a: nat, status: ApplicationStatus)
    requires DocumentsInv(s) && a < |s.applications| && (status == Awarded ==> OrderFor(s, a))
    ensures DocumentsInv(WriteStatus(s, a, status))
  {
  }

  lemma QuotationDocuments(s: State, q: nat, next: QuotationStatus)
    requires DocumentsInv(s) && q < |s.quotations|
    ensures DocumentsInv(WriteQuotation(s, q, next))
  {
  }

  lemma StatusOnwards(sys: System, k: nat, t: System)
    requires Sized(sys) && k < |sys.processes| && !sys.processes[k].stopped
    requires sys.processes[k].call.StatusCall? || sys.processes[k].call.QuotationCall?
    requires t == GoOn(sys, k)
    ensures Onwards(sys, t) && Moved(sys, t, k) && Sized(t)
    ensures forall w: nat :: NoneAwardedNewly(sys, t, w)
  {
    assert Fits(sys.db, sys.processes[k]);
    SizedOnwards(sys, t, k);
  }

  lemma StatusKeeps(sys: System, k: nat, t: System)
    requires SysInv(sys) && k < |sys.processes| && !sys.processes[k].stopped
    requires sys.processes[k].call.StatusCall? || sys.processes[k].call.QuotationCall?
    requires t == GoOn(sys, k)
    ensures SysInv(t)
  {
    assert Fits(sys.db, sys.processes[k]);
    StatusOnwards(sys, k, t);
    OthersOnwards(sys, t, k);
    ProcessesOnwards(sys, t, k);
    AcceptedOnwards(sys, t, k);
    if sys.processes[k].call.StatusCall? {
      StatusDocuments(sys.db, sys.processes[k].call.application, sys.processes[k].call.status);
    } else {
      QuotationDocuments(sys.db, sys.processes[k].call.quotation, sys.processes[k].call.next);
    }
  }

  // ------------------------------------------------------------------ awarding writes

  lemma SaveDocuments(s: State, a: nat)
    requires DocumentsInv(s) && Loaded(s, a) && s.workOrders[s.applications[a].workOrder].vendor.None?
    ensures DocumentsInv(SaveOrder(s, a))
    ensures forall i :: 0 <= i < |s.applications| && s.applications[i].workOrder == s.applications[a].workOrder ==>
              s.applications[i].status != Awarded
  {
  }

  lemma RejectDocuments(s: State, a: nat)
    requires DocumentsInv(s) && a < |s.applications|
    ensures DocumentsInv(RejectOthers(s, a))
  {
  }

  /** Nobody else has saved a work order that is unassigned. */
  lemma UnassignedUnsaved(sys: System, k: nat)
    requires Sized(sys) && ProcessesInv(sys) && k < |sys.processes| && !sys.processes[k].stopped
    requires OrderOf(sys.db, sys.processes[k].call).Some?
    requires sys.db.workOrders[OrderOf(sys.db, sys.processes[k].call).value].vendor.None?
    ensures SoleSaver(sys, k)
  {
    forall l | 0 <= l < |sys.processes| && l != k && HasSaved(sys.processes[l])
      ensures OrderOf(sys.db, sys.processes[l].call) != OrderOf(sys.db, sys.processes[k].call)
    {
      assert ProcessInv(sys, sys.processes[l]);
    }
  }

  lemma SaveKeeps(sys: System, k: nat, t: System)
    requires SysInv(sys) && k < |sys.processes| && !sys.processes[k].stopped && sys.processes[k].call.AwardCall?
    requires sys.processes[k].done == 0 && t == GoAward(sys, k)
    ensures SysInv(t)
  {
    var p := sys.processes[k];
    assert Fits(sys.db, p) && ProcessInv(sys, p);
    if Overtaken(sys, p) {
      StopKeeps(sys, k, t);
    } else {
      SaveDocuments(sys.db, p.call.application);
      SizedOnwards(sys, t, k);
      UnassignedUnsaved(sys, k);
      OthersOnwards(sys, t, k);
      ProcessesOnwards(sys, t, k);
      AcceptedOnwards(sys, t, k);
    }
  }

  lemma StopKeeps(sys: System, k: nat, t: System)
    requires SysInv(sys) && k < |sys.processes| && !sys.processes[k].stopped && sys.processes[k].done == 0
    requires t == WithProcess(sys, k, sys.processes[k].(stopped := true))
    ensures SysInv(t)
  {
    SizedOnwards(sys, t, k);
    OthersOnwards(sys, t, k);
    ProcessesOnwards(sys, t, k);
    AcceptedOnwards(sys, t, k);
  }

  lemma RejectKeeps(sys: System, k: nat, t: System)
    requires SysInv(sys) && k < |sys.processes| && !sys.processes[k].stopped && sys.processes[k].call.AwardCall?
    requires sys.processes[k].done == 1 && t == GoAward(sys, k)
    ensures SysInv(t)
  {
    var p := sys.processes[k];
    assert Fits(sys.db, p) && ProcessInv(sys, p) && HasSaved(p);
    RejectDocuments(sys.db, p.call.application);
    SizedOnwards(sys, t, k);
    OthersOnwards(sys, t, k);
    ProcessesOnwards(sys, t, k);
    AcceptedOnwards(sys, t, k);
  }

  lemma MarkKeeps(sys: System, k: nat, t: System)
    requires SysInv(sys) && k < |sys.processes| && !sys.processes[k].stopped && sys.processes[k].call.AwardCall?
    requires sys.processes[k].done == 2 && t == GoAward(sys, k)
    ensures SysInv(t)
  {
    var p := sys.processes[k];
    assert Fits(sys.db, p) && ProcessInv(sys, p) && HasSaved(p);
    StatusDocuments(sys.db, p.call.application, Awarded);
    SizedOnwards(sys, t, k);
    MarkOthers(sys, k, t);
    ProcessesOnwards(sys, t, k);
    AcceptedOnwards(sys, t, k);
  }

  /** The mark concerns no other process: none has saved this work order and not marked yet. */
  lemma MarkOthers(sys: System, k: nat, t: System)
    requires SysInv(sys) && k < |sys.processes| && !sys.processes[k].stopped && sys.processes[k].call.AwardCall?
    requires sys.processes[k].done == 2 && t == GoAward(sys, k) && Sized(t) && Onwards(sys, t)
    ensures forall l :: 0 <= l < |sys.processes| && l != k ==> ProcessInv(t, sys.processes[l])
  {
    var w := OrderOf(sys.db, sys.processes[k].call);
    assert Fits(sys.db, sys.processes[k]) && HasSaved(sys.processes[k]);
    forall l | 0 <= l < |sys.processes| && l != k
      ensures ProcessInv(t, sys.processes[l])
    {
      var p := sys.processes[l];
      if !HasSaved(p) {
        UnsavedOnwards(sys, t, p);
      } else {
        assert OrderOf(sys.db, p.call) != w;
        ProcessOnwards(sys, t, p);
      }
    }
  }

  lemma UnsavedOnwards(sys: System, t: System, p: Process)
    requires Sized(sys) && Sized(t) && Onwards(sys, t) && ProcessInv(sys, p) && !HasSaved(p)
    ensures ProcessInv(t, p)
  {
  }

  lemma AcceptKeeps(sys: System, k: nat, t: System)
    requires SysInv(sys) && k < |sys.processes| && !sys.processes[k].stopped && sys.processes[k].call.AwardCall?
    requires sys.processes[k].done >= 3 && t == GoAward(sys, k)
    ensures SysInv(t)
  {
    var p := sys.processes[k];
    if p.done == 3 && p.call.accepting.Some? {
      assert Fits(sys.db, p) && ProcessInv(sys, p) && HasSaved(p);
      QuotationDocuments(sys.db, p.call.accepting.value, Accepted);
      SizedOnwards(sys, t, k);
      OthersOnwards(sys, t, k);
      ProcessesOnwards(sys, t, k);
      AcceptedOnwards(sys, t, k);
    }
  }

  // ------------------------------------------------------------------ contracts and new documents

  lemma ContractDocuments(s: State, a: nat, t: State)
    requires DocumentsInv(s) && Loaded(s, a) && s.workOrders[s.applications[a].workOrder].vendor.None?
    requires t == Assigned(s, a, true)
                  .(awards := s.awards + [Award(s.applications[a].workOrder, a, s.applications[a].vendor)])
    ensures DocumentsInv(t)
  {
    assert forall k :: 0 <= k < |s.awards| ==> s.awards[k].workOrder != s.applications[a].workOrder;
  }

  lemma ContractKeeps(sys: System, k: nat, t: System)
    requires SysInv(sys) && k < |sys.processes| && !sys.processes[k].stopped && sys.processes[k].call.ContractCall?
    requires t == GoContract(sys, k)
    ensures SysInv(t)
  {
    var p := sys.processes[k];
    assert Fits(sys.db, p) && ProcessInv(sys, p);
    if p.done == 0 && Overtaken(sys, p) {
      StopKeeps(sys, k, t);
    } else if p.done == 0 {
      ContractDocuments(sys.db, p.call.application, t.db);
      SizedOnwards(sys, t, k);
      UnassignedUnsaved(sys, k);
      ContractOthers(sys, k, t);
      ProcessesOnwards(sys, t, k);
      AcceptedOnwards(sys, t, k);
    }
  }

  lemma ContractOthers(sys: System, k: nat, t: System)
    requires SysInv(sys) && k < |sys.processes| && !sys.processes[k].stopped && sys.processes[k].call.ContractCall?
    requires SoleSaver(sys, k) && t == GoContract(sys, k) && Sized(t) && Onwards(sys, t)
    ensures forall l :: 0 <= l < |sys.processes| && l != k ==> ProcessInv(t, sys.processes[l])
  {
    assert Fits(sys.db, sys.processes[k]);
    forall l | 0 <= l < |sys.processes| && l != k
      ensures ProcessInv(t, sys.processes[l])
    {
      var p := sys.processes[l];
      if !HasSaved(p) {
        UnsavedOnwards(sys, t, p);
      } else {
        assert OrderOf(sys.db, p.call) != OrderOf(sys.db, sys.processes[k].call);
        ProcessOnwards(sys, t, p);
      }
    }
  }

  lemma SameProcesses(sys: System, t: System)
    requires SysInv(sys) && Onwards(sys, t) && t.processes == sys.processes
    requires forall w: nat :: NoneAwardedNewly(sys, t, w)
    ensures Sized(t) && ProcessesInv(t)
  {
    forall l | 0 <= l < |t.processes| && !t.processes[l].stopped
      ensures Fits(t.db, t.processes[l])
    {
      FitsOnwards(sys, t, sys.processes[l]);
    }
    forall l | 0 <= l < |t.processes|
      ensures ProcessInv(t, t.processes[l])
    {
      ProcessOnwards(sys, t, sys.processes[l]);
    }
    forall l | 0 <= l < |t.processes| && HasSaved(t.processes[l])
      ensures OrderOf(t.db, t.processes[l].call) == OrderOf(sys.db, sys.processes[l].call)
    {
      SameOrder(sys, t, sys.processes[l]);
    }
  }

  lemma NewDocumentsKeep(sys: System, e: Event, t: System)
    requires SysInv(sys) && !e.Start? && !e.Go? && t == Next(sys, e)
    ensures SysInv(t)
  {
    NewDocumentsOnwards(sys, e, t);
    SameProcesses(sys, t);
    NewDocumentsFit(sys, e, t);
    SameAccepted(sys, t);
  }

  lemma NewOrderFits(s: State, order: WorkOrder)
    requires DocumentsInv(s) && order.vendor.None?
    ensures DocumentsInv(s.(workOrders := s.workOrders + [order]))
  {
  }

  lemma ProgressFits(s: State, w: nat, status: WorkStatus)
    requires DocumentsInv(s) && w < |s.workOrders| && status != Open
    ensures DocumentsInv(s.(workOrders := s.workOrders[w := s.workOrders[w].(status := status)]))
  {
  }

  lemma NewApplicationFits(s: State, w: nat, vendor: nat)
    requires DocumentsInv(s) && w < |s.workOrders| && !HasApplied(s.applications, w, vendor)
    ensures DocumentsInv(s.(applications := s.applications + [Application(w, vendor, Submitted)]))
  {
  }

  lemma NewQuotationFits(s: State, q: Quotation)
    requires DocumentsInv(s) && q.application < |s.applications|
    requires q.workOrder == s.applications[q.application].workOrder && q.vendor == s.applications[q.application].vendor
    ensures DocumentsInv(s.(quotations := s.quotations + [q]))
  {
  }

  /** A quotation as it is stored, for its application's work order and vendor. */
  function Stored(s: State, quotation: Quotation): Quotation
    requires quotation.application < |s.applications|
  {
    quotation.(workOrder := s.applications[quotation.application].workOrder,
               vendor := s.applications[quotation.application].vendor)
  }

  lemma NewDocumentsFit(sys: System, e: Event, t: System)
    requires Sized(sys) && DocumentsInv(sys.db) && !e.Start? && !e.Go? && t == Next(sys, e)
    ensures DocumentsInv(t.db)
  {
    match e
    case Ordered(marketplace, status) => NewOrderFits(sys.db, WorkOrder(marketplace, status, None));
    case Progressed(w, status, _) => if w < |sys.db.workOrders| && status != Open { ProgressFits(sys.db, w, status); }
    case Applied(w, vendor) =>
      if w < |sys.db.workOrders| && !HasApplied(sys.db.applications, w,
                                                vendor) { NewApplicationFits(sys.db, w, vendor); }
    case Quoted(quotation) =>
      if quotation.application < |sys.db.applications| && quotation.status == Sent {
        NewQuotationFits(sys.db, Stored(sys.db, quotation));
      }
  }

  lemma NewDocumentsOnwards(sys: System, e: Event, t: System)
    requires Sized(sys) && !e.Start? && !e.Go? && t == Next(sys, e)
    ensures t.processes == sys.processes && Onwards(sys, t) && forall w: nat :: NoneAwardedNewly(sys, t, w)
    ensures forall q :: 0 <= q < |t.db.quotations| && t.db.quotations[q].status == Accepted ==>
              q < |sys.db.quotations| && sys.db.quotations[q].status == Accepted
  {
  }

  lemma SameAccepted(sys: System, t: System)
    requires AcceptedInv(sys) && Onwards(sys, t) && sys.processes <= t.processes
    requires forall q :: 0 <= q < |t.db.quotations| && t.db.quotations[q].status == Accepted ==>
               q < |sys.db.quotations| && sys.db.quotations[q].status == Accepted
    ensures AcceptedInv(t)
  {
    forall q | 0 <= q < |t.db.quotations| && t.db.quotations[q].status == Accepted
      ensures exists k :: 0 <= k < |t.processes| && AcceptedBy(t, q, k)
    {
      var k :| 0 <= k < |sys.processes| && AcceptedBy(sys, q, k);
      assert AcceptedBy(t, q, k);
    }
  }

  /** A call that starts checks what `ProcessInv` says. */
  lemma StartFits(sys: System, call: Call, p: Process)
    requires SysInv(sys) && Begun(sys, call).processes == sys.processes + [p]
    ensures (!p.stopped ==> Fits(sys.db, p)) && ProcessInv(sys, p) && !HasSaved(p)
  {
    assert p == Begun(sys, call).processes[|sys.processes|];
  }

  lemma StartKeeps(sys: System, call: Call, t: System)
    requires SysInv(sys) && t == Begun(sys, call)
    ensures SysInv(t)
  {
    var p := t.processes[|sys.processes|];
    StartFits(sys, call, p);
    assert forall l :: 0 <= l < |sys.processes| ==> t.processes[l] == sys.processes[l];
    forall l | 0 <= l < |t.processes|
      ensures ProcessInv(t, t.processes[l])
    {
      assert ProcessInv(sys, if l < |sys.processes| then sys.processes[l] else p);
    }
    SameAccepted(sys, t);
  }

  lemma AwardKeeps(sys: System, k: nat, t: System)
    requires SysInv(sys) && k < |sys.processes| && !sys.processes[k].stopped && sys.processes[k].call.AwardCall?
    requires t == GoAward(sys, k)
    ensures SysInv(t)
  {
    if sys.processes[k].done == 0 {
      SaveKeeps(sys, k, t);
    } else if sys.processes[k].done == 1 {
      RejectKeeps(sys, k, t);
    } else if sys.processes[k].done == 2 {
      MarkKeeps(sys, k, t);
    } else {
      AcceptKeeps(sys, k, t);
    }
  }

  lemma NextKeeps(sys: System, e: Event)
    requires SysInv(sys)
    ensures SysInv(Next(sys, e))
  {
    match e
    case Start(call) => StartKeeps(sys, call, Next(sys, e));
    case Go(k) =>
      if k < |sys.processes| && !sys.processes[k].stopped {
        match sys.processes[k].call
        case AwardCall(_, _) => AwardKeeps(sys, k, Next(sys, e));
        case ContractCall(_) => ContractKeeps(sys, k, Next(sys, e));
        case _ => StatusKeeps(sys, k, Next(sys, e));
      }
    case _ => NewDocumentsKeep(sys, e, Next(sys, e));
  }
}
