// The properties of every run: any number of well-formed requests, executed one after the other
// from the empty database. `InventoryConcurrency` shows that interleaved transactions commit
// exactly such runs, so everything here holds of them too.
module InventoryRuns {
  import opened Wrappers
  import opened Inventory
  import opened InventoryInvariants
  import opened Sums

  predicate Drawn(calls: seq<Call>, id: Id)
  {
    exists j :: 0 <= j < |calls| && calls[j].id == id
  }

  /** Stored documents carry identifiers drawn for the run's own calls. */
  ghost predicate IdsFrom(db: Db, calls: seq<Call>)
  {
    && (forall i :: 0 <= i < |db.ledger| ==> Drawn(calls, db.ledger[i].id))
    && (forall id :: id in db.reservations ==> Drawn(calls, id))
  }

  lemma DrawnExtends(calls: seq<Call>, last: Call)
    ensures Drawn(calls + [last], last.id)
    ensures forall id :: Drawn(calls, id) ==> Drawn(calls + [last], id)
  {
    var all := calls + [last];
    assert all[|calls|] == last;
    forall id | Drawn(calls, id)
      ensures Drawn(all, id)
    {
      var j :| 0 <= j < |calls| && calls[j].id == id;
      assert all[j] == calls[j];
    }
  }

  lemma StepIds(db: Db, c: Change, calls: seq<Call>, last: Call)
    requires Told(db, c, last.id) && IdsFrom(db, calls)
    ensures IdsFrom(Commit(db, c), calls + [last])
  {
    DrawnExtends(calls, last);
  }

  lemma FreshCall(calls: seq<Call>, last: Call, db: Db)
    requires Admissible(calls + [last]) && IdsFrom(db, calls)
    ensures Unused(db, last.id) && WellFormed(last.req) && Admissible(calls)
  {
    var all := calls + [last];
    assert all[|calls|] == last;
    forall j | 0 <= j < |calls|
      ensures calls[j].id != last.id
    {
      assert all[j] == calls[j];
    }
    assert forall j :: 0 <= j < |calls| ==> all[j] == calls[j];
  }

  /** One more call: either nothing changes, or one transaction commits. */
  lemma AfterOneMore(calls: seq<Call>, last: Call, strict: bool)
    ensures var before := After(calls, strict);
            After(calls + [last], strict) ==
            match Apply(before, last.req, last.id, strict) case Ok(db) => db case Err(_) => before
  {
    assert (calls + [last])[..|calls|] == calls;
  }

  lemma RunInvStep(calls: seq<Call>, last: Call, strict: bool, before: Db)
    requires Admissible(calls + [last]) && before == After(calls, strict)
    requires Inv(before) && IdsFrom(before, calls)
    ensures Inv(After(calls + [last], strict)) && IdsFrom(After(calls + [last], strict), calls + [last])
  {
    AfterOneMore(calls, last, strict);
    FreshCall(calls, last, before);
    var r := Apply(before, last.req, last.id, strict);
    if r.Ok? {
      var c := CommittedChange(before, last.req, last.id, strict, r.value);
      Step(before, last.req, last.id, strict, r.value);
      StepIds(before, c, calls, last);
    } else {
      DrawnExtends(calls, last);
    }
  }

  lemma EmptyInv()
    ensures Inv(EMPTY)
  {
  }

  /** Every run keeps the invariant, whatever the requests and whichever of them fail. */
  lemma {:induction false} RunInv(calls: seq<Call>, strict: bool)
    requires Admissible(calls)
    ensures Inv(After(calls, strict)) && IdsFrom(After(calls, strict), calls)
  {
    if calls == [] {
      EmptyInv();
    } else {
      var init, last := calls[..|calls| - 1], calls[|calls| - 1];
      assert calls == init + [last];
      RunInv(init, strict);
      RunInvStep(init, last, strict, After(init, strict));
    }
  }

  // ------------------------------------------------------------------ ledger and state

  /** Balances and reservations are a function of the ledger: it is a complete event log. */
  lemma LedgerDeterminesState(calls: seq<Call>, others: seq<Call>, strict: bool)
    requires Admissible(calls) && Admissible(others)
    requires After(calls, strict).ledger == After(others, strict).ledger
    ensures After(calls, strict) == After(others, strict) == Replay(After(calls, strict).ledger)
  {
    RunInv(calls, strict);
    RunInv(others, strict);
  }

  /** In every reachable state each balance equals the signed ledger and the open reservations, and
      0 <= reserved <= quantity. */
  lemma ReachableAgreement(calls: seq<Call>, strict: bool, k: Key)
    requires Admissible(calls)
    ensures var db := After(calls, strict);
            && BalanceAt(db, k).quantity == Total(SignedAt(k), db.ledger)
            && BalanceAt(db, k).reserved == Outstanding(db.reservations, k)
            && 0.0 <= BalanceAt(db, k).reserved <= BalanceAt(db, k).quantity
  {
    RunInv(calls, strict);
    assert WithinBounds(After(calls, strict));
  }

  lemma ReleaseConsistent(db: Db, req: Request, id: Id)
    requires Inv(db) && req.ReleaseReservation?
    ensures ExecuteRelease(db, req, id) != Err(InconsistentReservationBalance)
  {
    if req.releasedId in db.reservations && db.reservations[req.releasedId].status == Reserved {
      OpenPartCovered(db, req.releasedId);
    }
  }

  lemma ReservedStockSuffices(db: Db, req: Request, id: Id)
    requires Inv(db) && req.IssueStock? && req.reservationId.Some?
    ensures ExecuteIssue(db, req, id) != Err(InsufficientStock)
  {
    var rid := req.reservationId.value;
    if rid in db.reservations && db.reservations[rid].status == Reserved {
      OpenPartCovered(db, rid);
    }
  }

  /** The two aborts that guard against a balance out of step with its reservations never fire. */
  lemma InconsistencyNeverSeen(calls: seq<Call>, strict: bool, req: Request, id: Id)
    requires Admissible(calls) && WellFormed(req)
    ensures req.ReleaseReservation? ==>
              Execute(After(calls, strict), req, id, strict) != Err(InconsistentReservationBalance)
    ensures req.IssueStock? && req.reservationId.Some? ==>
              Execute(After(calls, strict), req, id, strict) != Err(InsufficientStock)
  {
    var db := After(calls, strict);
    RunInv(calls, strict);
    if req.IssueStock? && req.reservationId.Some? {
      ReservedStockSuffices(db, req, id);
      assert Body(db, req, id) == ExecuteIssue(db, req, id);
    } else if req.ReleaseReservation? {
      ReleaseConsistent(db, req, id);
      assert Body(db, req, id) == ExecuteRelease(db, req, id);
    }
  }

  lemma OpenPartCovered(db: Db, rid: Id)
    requires Inv(db) && rid in db.reservations && db.reservations[rid].status == Reserved
    ensures var r := db.reservations[rid]; var b := BalanceAt(db, r.key);
            r.quantity - r.consumed <= b.reserved <= b.quantity
  {
    var k := db.reservations[rid].key;
    forall i | i in db.reservations
      ensures OutstandingWeight(db.reservations, k)(i) >= 0.0
    {
      assert SoundReservation(db.reservations[i]);
    }
    NonNegative(db.reservations.Keys, OutstandingWeight(db.reservations, k));
    assert OutstandingWeight(db.reservations, k)(rid) == db.reservations[rid].quantity - db.reservations[rid].consumed;
    assert WithinBounds(db);
  }

  /** When required strings must be non-empty, no release ever commits: its ledger row has an empty
      unit of measure. When they may be empty, it commits exactly for an open reservation. */
  lemma ReleaseCommitsIff(calls: seq<Call>, strict: bool, org: Id, rid: Id, id: Id)
    requires Admissible(calls)
    ensures var db := After(calls, strict);
            Apply(db, ReleaseReservation(org, rid), id, strict).Ok? <==>
            !strict && rid in db.reservations && db.reservations[rid].key.org == org &&
            db.reservations[rid].status == Reserved
  {
    RunInv(calls, strict);
    ReleaseAppliesIff(After(calls, strict), strict, org, rid, id);
  }

  lemma ReleaseAppliesIff(db: Db, strict: bool, org: Id, rid: Id, id: Id)
    requires Inv(db)
    ensures Apply(db, ReleaseReservation(org, rid), id, strict).Ok? <==>
            !strict && rid in db.reservations && db.reservations[rid].key.org == org &&
            db.reservations[rid].status == Reserved
  {
    var req := ReleaseReservation(org, rid);
    ReleaseConsistent(db, req, id);
    assert Body(db, req, id) == ExecuteRelease(db, req, id);
  }

  /** Consumptions naming an issue never total more than it; nor do returns of a transaction. */
  lemma NothingOverdrawn(calls: seq<Call>, strict: bool, i: nat)
    requires Admissible(calls) && i < |After(calls, strict).ledger|
    ensures var ledger := After(calls, strict).ledger; var row := ledger[i];
            && (row.kind == Issue ==> Total(ConsumedFrom(row.key.org, row.id), ledger) <= row.quantity)
            && (row.kind == Issue || row.kind == Consumption ==>
                  Total(ReturnedOf(row.key.org, row.id), ledger) <= row.quantity)
  {
    RunInv(calls, strict);
    assert CappedAt(After(calls, strict).ledger, After(calls, strict).ledger[i]);
  }

  // ------------------------------------------------------------------ conservation

  predicate OfItem(k: Key, org: Id, item: Id) { k.org == org && k.item == item }

  ghost function QuantityWeight(bs: map<Key, Balance>, org: Id, item: Id): Key -> real
  {
    (k: Key) => if k in bs && OfItem(k, org, item) then bs[k].quantity else 0.0
  }

  ghost function ReservedWeight(bs: map<Key, Balance>, org: Id, item: Id): Key -> real
  {
    (k: Key) => if k in bs && OfItem(k, org, item) then bs[k].reserved else 0.0
  }

  /** An item's stock over all locations of an organization. */
  ghost function OrganizationQuantity(bs: map<Key, Balance>, org: Id, item: Id): real
  {
    SumOver(bs.Keys, QuantityWeight(bs, org, item))
  }

  ghost function OrganizationReserved(bs: map<Key, Balance>, org: Id, item: Id): real
  {
    SumOver(bs.Keys, ReservedWeight(bs, org, item))
  }

  lemma OneBalanceMoves(bs: map<Key, Balance>, k: Key, b: Balance, org: Id, item: Id)
    ensures var was := if k in bs then bs[k] else Balance(0.0, 0.0);
            && OrganizationQuantity(bs[k := b], org, item) ==
               OrganizationQuantity(bs, org, item) + (if OfItem(k, org, item) then b.quantity - was.quantity else 0.0)
            && OrganizationReserved(bs[k := b], org, item) ==
               OrganizationReserved(bs, org, item) + (if OfItem(k, org, item) then b.reserved - was.reserved else 0.0)
  {
    var bs' := bs[k := b];
    Update(bs.Keys, QuantityWeight(bs, org, item), QuantityWeight(bs', org, item), k);
    Update(bs.Keys, ReservedWeight(bs, org, item), ReservedWeight(bs', org, item), k);
    assert bs'.Keys == bs.Keys + {k};
  }

  lemma OwnTotalsMove(db: Db, c: Change, org: Id, item: Id)
    requires BalancesTold(db, c)
    ensures var own := db.balances[c.own.key := c.own.doc];
            && OrganizationQuantity(own, org, item) ==
               OrganizationQuantity(db.balances, org, item) +
               (if OfItem(c.row.key, org, item) then SignedQuantity(c.row) else 0.0)
            && OrganizationReserved(own, org, item) ==
               OrganizationReserved(db.balances, org, item) +
               (if OfItem(c.row.key, org, item) then SignedReserved(c.row) else 0.0)
  {
    OneBalanceMoves(db.balances, c.own.key, c.own.doc, org, item);
  }

  lemma ArrivalTotalsMove(db: Db, c: Change, org: Id, item: Id)
    requires BalancesTold(db, c) && c.arrival.Some?
    ensures var own := db.balances[c.own.key := c.own.doc];
            && c.row.kind == Transfer
            && OrganizationQuantity(Commit(db, c).balances, org, item) ==
               OrganizationQuantity(own, org, item) + (if OfItem(c.row.key, org, item) then c.row.quantity else 0.0)
            && OrganizationReserved(Commit(db, c).balances, org, item) == OrganizationReserved(own, org, item)
  {
    var own := db.balances[c.own.key := c.own.doc];
    var w := c.arrival.value;
    OneBalanceMoves(own, w.key, w.doc, org, item);
    assert DestinationKey(c.row) == Some(w.key);
    assert w.key in own <==> w.key in db.balances;
  }

  /** One committed change moves the organization totals by its row's non-transfer part. */
  lemma TotalsMove(db: Db, c: Change, org: Id, item: Id)
    requires BalancesTold(db, c)
    requires c.arrival.None? ==> c.row.kind != Transfer
    ensures OrganizationQuantity(Commit(db, c).balances, org, item) ==
            OrganizationQuantity(db.balances, org, item) + Weight(WithoutTransfers(org, item), c.row)
    ensures OrganizationReserved(Commit(db, c).balances, org, item) ==
            OrganizationReserved(db.balances, org, item) + Weight(ReservedWithoutTransfers(org, item), c.row)
  {
    OwnTotalsMove(db, c, org, item);
    if c.arrival.Some? {
      ArrivalTotalsMove(db, c, org, item);
    }
  }

  /** A transfer leaves the item's organization-wide totals as they were. */
  lemma TransferConserves(db: Db, req: Request, id: Id, strict: bool, after: Db, org: Id, item: Id)
    requires WellFormed(req) && req.TransferStock? && Apply(db, req, id, strict) == Ok(after)
    ensures OrganizationQuantity(after.balances, org, item) == OrganizationQuantity(db.balances, org, item)
    ensures OrganizationReserved(after.balances, org, item) == OrganizationReserved(db.balances, org, item)
  {
    assert Body(db, req, id) == ExecuteTransfer(db, req, id);
    TransferTold(db, req, id);
    TotalsMove(db, ExecuteTransfer(db, req, id).value, org, item);
  }

  /** What holds of the organization-wide totals in every reachable state. */
  ghost predicate TotalsAgree(db: Db, org: Id, item: Id)
  {
    && OrganizationQuantity(db.balances, org, item) == Total(WithoutTransfers(org, item), db.ledger)
    && OrganizationReserved(db.balances, org, item) == Total(ReservedWithoutTransfers(org, item), db.ledger)
  }

  lemma KeepsTotals(db: Db, c: Change, org: Id, item: Id)
    requires BalancesTold(db, c) && (c.arrival.None? ==> c.row.kind != Transfer) && TotalsAgree(db, org, item)
    ensures TotalsAgree(Commit(db, c), org, item)
  {
    TotalsMove(db, c, org, item);
    TotalAppend(WithoutTransfers(org, item), db.ledger, c.row);
    TotalAppend(ReservedWithoutTransfers(org, item), db.ledger, c.row);
  }

  lemma TotalsStep(calls: seq<Call>, last: Call, strict: bool, org: Id, item: Id)
    requires Admissible(calls + [last]) && TotalsAgree(After(calls, strict), org, item)
    requires Inv(After(calls, strict)) && IdsFrom(After(calls, strict), calls)
    ensures TotalsAgree(After(calls + [last], strict), org, item)
  {
    var before := After(calls, strict);
    AfterOneMore(calls, last, strict);
    FreshCall(calls, last, before);
    var r := Apply(before, last.req, last.id, strict);
    if r.Ok? {
      var c := CommittedChange(before, last.req, last.id, strict, r.value);
      KeepsTotals(before, c, org, item);
    }
  }

  /** The organization-wide totals are the sums of the non-transfer ledger deltas. */
  lemma {:induction false} TotalsAreLedgerSums(calls: seq<Call>, strict: bool, org: Id, item: Id)
    requires Admissible(calls)
    ensures TotalsAgree(After(calls, strict), org, item)
  {
    if calls != [] {
      var init, last := calls[..|calls| - 1], calls[|calls| - 1];
      assert calls == init + [last];
      RunInv(init, strict);
      TotalsAreLedgerSums(init, strict, org, item);
      TotalsStep(init, last, strict, org, item);
    }
  }
}
