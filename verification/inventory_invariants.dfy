// What every run of the inventory transactions keeps: the ledger determines the state, balances
// agree with ledger and reservations, quantities stay within bounds, and no issue is over-consumed.
module InventoryInvariants {
  import opened Wrappers
  import opened Inventory
  import opened Sums

  // ------------------------------------------------------------------ the ledger as event log

  /** The balance at the row's own location after the row. */
  function Moved(db: Db, row: Row): Balance
  {
    var b := BalanceAt(db, row.key);
    Balance(b.quantity + SignedQuantity(row), b.reserved + SignedReserved(row))
  }

  /** Re-applies one ledger row to the stored documents, using nothing but the row itself. */
  function ReplayRow(db: Db, row: Row): Db
  {
    var own := db.balances[row.key := Moved(db, row)];
    var there := DestinationKey(row);
    var balances :=
      if there.None? then own
      else
        var d := BalanceAt(db, there.value);
        own[there.value := d.(quantity := d.quantity + row.quantity)];
    Db(balances, ReplayReservation(db.reservations, row), db.ledger + [row])
  }

  /** The reservation a row creates, draws on or releases, after the row. */
  function ReservationAfter(rs: map<Id, Reservation>, row: Row): Option<Reservation>
  {
    if row.reservationId.None? then None
    else if row.kind == ReservationMade then Some(Reservation(row.key, row.quantity, 0.0, Reserved))
    else if row.reservationId.value !in rs then None
    else
      var r := rs[row.reservationId.value];
      if row.kind == Release then Some(r.(status := Released))
      else
        var consumed := r.consumed + row.quantity;
        Some(r.(consumed := consumed, status := if consumed == r.quantity then Consumed else Reserved))
  }

  function ReplayReservation(rs: map<Id, Reservation>, row: Row): map<Id, Reservation>
  {
    match ReservationAfter(rs, row)
    case None => rs
    case Some(r) => rs[row.reservationId.value := r]
  }

  function Replay(ledger: seq<Row>): Db
  {
    if ledger == [] then EMPTY else ReplayRow(Replay(ledger[..|ledger| - 1]), ledger[|ledger| - 1])
  }

  // ------------------------------------------------------------------ summation lemmas

  lemma TotalAppend(t: Tally, ledger: seq<Row>, row: Row)
    ensures Total(t, ledger + [row]) == Total(t, ledger) + Weight(t, row)
  {
    assert (ledger + [row])[..|ledger|] == ledger;
  }

  lemma {:induction false} TotalZero(t: Tally, ledger: seq<Row>)
    requires forall i :: 0 <= i < |ledger| ==> Weight(t, ledger[i]) == 0.0
    ensures Total(t, ledger) == 0.0
  {
    if ledger != [] {
      TotalZero(t, ledger[..|ledger| - 1]);
    }
  }

  lemma {:induction false} FindRowSound(ledger: seq<Row>, id: Id, org: Id)
    ensures var r := FindRow(ledger, id, org);
            r.Some? ==> r.value.id == id && r.value.key.org == org &&
                        exists i :: 0 <= i < |ledger| && ledger[i] == r.value
  {
    if ledger != [] && !(ledger[0].id == id && ledger[0].key.org == org) {
      FindRowSound(ledger[1..], id, org);
      if FindRow(ledger, id, org).Some? {
        var i :| 0 <= i < |ledger| - 1 && ledger[1..][i] == FindRow(ledger, id, org).value;
        assert ledger[i + 1] == FindRow(ledger, id, org).value;
      }
    }
  }

  ghost predicate DistinctIds(ledger: seq<Row>)
  {
    forall i, j :: 0 <= i < j < |ledger| ==> ledger[i].id != ledger[j].id
  }

  lemma {:induction false} FindRowComplete(ledger: seq<Row>, i: nat)
    requires i < |ledger| && DistinctIds(ledger)
    ensures FindRow(ledger, ledger[i].id, ledger[i].key.org) == Some(ledger[i])
  {
    if i > 0 {
      FindRowComplete(ledger[1..], i - 1);
    }
  }

  // ------------------------------------------------------------------ the invariant

  ghost function OutstandingWeight(rs: map<Id, Reservation>, key: Key): Id -> real
  {
    (i: Id) => if i in rs && rs[i].key == key && rs[i].status == Reserved then rs[i].quantity - rs[i].consumed else 0.0
  }

  /** The sum of `quantity - consumed` over the reservations of `key` still in status reserved. */
  ghost function Outstanding(rs: map<Id, Reservation>, key: Key): real
  {
    SumOver(rs.Keys, OutstandingWeight(rs, key))
  }

  ghost predicate WithinBounds(db: Db)
  {
    forall k :: k in db.balances ==> 0.0 <= db.balances[k].reserved <= db.balances[k].quantity
  }

  ghost predicate QuantitiesAgree(db: Db)
  {
    forall k :: BalanceAt(db, k).quantity == Total(SignedAt(k), db.ledger)
  }

  ghost predicate ReservedAgrees(db: Db)
  {
    forall k :: BalanceAt(db, k).reserved == Outstanding(db.reservations, k)
  }

  /** A reservation is open exactly while something of it remains, unless it was released. */
  predicate SoundReservation(r: Reservation)
  {
    && 0.0 <= r.consumed <= r.quantity
    && (r.status == Reserved || r.status == Consumed || r.status == Released)
    && (r.status == Consumed <==> r.consumed == r.quantity)
  }

  ghost predicate ReservationsSound(db: Db)
  {
    forall i :: i in db.reservations ==> SoundReservation(db.reservations[i])
  }

  /** A row that points back points to an earlier row of the same balance, of a fitting kind. */
  ghost predicate Links(ledger: seq<Row>, i: nat)
    requires i < |ledger|
  {
    var row := ledger[i];
    && (row.sourceId.Some? ==>
          exists j :: 0 <= j < i && ledger[j].id == row.sourceId.value && ledger[j].key == row.key)
    && (row.relatedId.Some? ==>
          exists j :: 0 <= j < i && ledger[j].id == row.relatedId.value && ledger[j].key == row.key)
  }

  ghost predicate Linked(ledger: seq<Row>)
  {
    forall i :: 0 <= i < |ledger| ==> Links(ledger, i)
  }

  ghost predicate PositiveQuantities(ledger: seq<Row>)
  {
    forall i :: 0 <= i < |ledger| && ledger[i].kind != Adjustment ==> ledger[i].quantity > 0.0
  }

  /** Consumptions naming an issue never exceed it; returns of a transaction never exceed it. */
  ghost predicate Capped(ledger: seq<Row>)
  {
    forall i :: 0 <= i < |ledger| ==> CappedAt(ledger, ledger[i])
  }

  ghost predicate CappedAt(ledger: seq<Row>, row: Row)
  {
    && (row.kind == Issue ==> Total(ConsumedFrom(row.key.org, row.id), ledger) <= row.quantity)
    && (row.kind == Issue || row.kind == Consumption ==>
          Total(ReturnedOf(row.key.org, row.id), ledger) <= row.quantity)
  }

  ghost predicate DistinctKeys(ledger: seq<Row>)
  {
    forall i, j :: 0 <= i < j < |ledger| && ledger[i].idempotencyKey.Some? ==>
      ledger[i].idempotencyKey != ledger[j].idempotencyKey
  }

  ghost predicate Inv(db: Db)
  {
    && DistinctIds(db.ledger) && Linked(db.ledger) && PositiveQuantities(db.ledger)
    && Capped(db.ledger) && DistinctKeys(db.ledger)
    && WithinBounds(db) && QuantitiesAgree(db) && ReservedAgrees(db) && ReservationsSound(db)
    && db == Replay(db.ledger)
  }

  /** `id` was drawn for no stored document. */
  ghost predicate Unused(db: Db, id: Id)
  {
    && id !in db.reservations
    && forall i :: 0 <= i < |db.ledger| ==> db.ledger[i].id != id
  }

  // ------------------------------------------------------------------ the shape of one change

  /** The balance documents a change writes are those its row tells. */
  predicate BalancesTold(db: Db, c: Change)
  {
    && c.own == BalanceWrite(c.row.key, Moved(db, c.row))
    && match DestinationKey(c.row)
       case None => c.arrival == None
       case Some(there) =>
         && there != c.row.key
         && c.row.reservationId.None?
         && var d := BalanceAt(db, there);
            c.arrival == Some(BalanceWrite(there, d.(quantity := d.quantity + c.row.quantity)))
  }

  predicate KeepsBounds(db: Db, c: Change)
  {
    var b := BalanceAt(db, c.row.key);
    0.0 <= b.reserved <= b.quantity ==> 0.0 <= Moved(db, c.row).reserved <= Moved(db, c.row).quantity
  }

  /** Likewise for reservations; a drawn-on or released one is open and belongs to the row's balance. */
  predicate ReservationsTold(db: Db, c: Change)
  {
    if c.row.reservationId.None? then
      c.row.kind != ReservationMade && c.row.kind != Release && c.reservation == None
    else
      var rid := c.row.reservationId.value;
      var r := ReservationAfter(db.reservations, c.row);
      && r.Some? && c.reservation == Some(ReservationWrite(rid, r.value)) && SoundReservation(r.value)
      && (c.row.kind == ReservationMade || c.row.kind == Release || c.row.kind == Issue || c.row.kind == Consumption)
      && (c.row.kind == ReservationMade ==> rid == c.row.id)
      && (c.row.kind != ReservationMade ==>
            && rid in db.reservations && db.reservations[rid].status == Reserved
            && db.reservations[rid].key == c.row.key
            && (c.row.kind == Release ==>
                  c.row.quantity == db.reservations[rid].quantity - db.reservations[rid].consumed))
  }

  /** What the row names was found in the ledger, with enough of it left. */
  predicate LinksTold(db: Db, c: Change)
  {
    && (c.row.sourceId.Some? ==>
          var s := FindRow(db.ledger, c.row.sourceId.value, c.row.key.org);
          && c.row.kind == Consumption && s.Some? && s.value.key == c.row.key
          && Total(ConsumedFrom(c.row.key.org, c.row.sourceId.value), db.ledger) + c.row.quantity <= s.value.quantity)
    && (c.row.relatedId.Some? ==>
          var s := FindRow(db.ledger, c.row.relatedId.value, c.row.key.org);
          && c.row.kind == Return && s.Some? && s.value.key == c.row.key
          && Total(ReturnedOf(c.row.key.org, c.row.relatedId.value), db.ledger) + c.row.quantity <= s.value.quantity)
  }

  ghost predicate Told(db: Db, c: Change, id: Id)
  {
    && c.row.id == id
    && (c.row.kind != Adjustment ==> c.row.quantity > 0.0)
    && (c.row.kind == Transfer ==> c.row.destination.Some?)
    && BalancesTold(db, c) && KeepsBounds(db, c) && ReservationsTold(db, c) && LinksTold(db, c)
  }

  lemma ReceiveTold(db: Db, req: Request, id: Id)
    requires WellFormed(req) && req.Receive?
    ensures Told(db, ExecuteReceive(db, req, id).value, id)
  {
  }

  lemma ReserveTold(db: Db, req: Request, id: Id)
    requires WellFormed(req) && req.Reserve? && ExecuteReserve(db, req, id).Ok?
    ensures Told(db, ExecuteReserve(db, req, id).value, id)
  {
  }

  lemma AdjustTold(db: Db, req: Request, id: Id)
    requires WellFormed(req) && req.Adjust? && ExecuteAdjust(db, req, id).Ok?
    ensures Told(db, ExecuteAdjust(db, req, id).value, id)
  {
  }

  lemma IssueTold(db: Db, req: Request, id: Id)
    requires WellFormed(req) && req.IssueStock? && ReservationsSound(db) && ExecuteIssue(db, req, id).Ok?
    ensures Told(db, ExecuteIssue(db, req, id).value, id)
  {
    if req.reservationId.Some? {
      assert SoundReservation(db.reservations[req.reservationId.value]);
    }
  }

  lemma ReleaseTold(db: Db, req: Request, id: Id)
    requires WellFormed(req) && req.ReleaseReservation? && ReservationsSound(db) && ExecuteRelease(db, req, id).Ok?
    ensures Told(db, ExecuteRelease(db, req, id).value, id)
  {
    assert SoundReservation(db.reservations[req.releasedId]);
  }

  lemma ConsumeTold(db: Db, req: Request, id: Id)
    requires WellFormed(req) && req.ConsumeSource? && ExecuteConsumeSource(db, req, id).Ok?
    ensures Told(db, ExecuteConsumeSource(db, req, id).value, id)
  {
  }

  lemma ReturnTold(db: Db, req: Request, id: Id)
    requires WellFormed(req) && req.ReturnStock? && ExecuteReturn(db, req, id).Ok?
    ensures Told(db, ExecuteReturn(db, req, id).value, id)
  {
    FindRowSound(db.ledger, req.originalId, req.org);
  }

  lemma TransferTold(db: Db, req: Request, id: Id)
    requires WellFormed(req) && req.TransferStock? && ExecuteTransfer(db, req, id).Ok?
    ensures Told(db, ExecuteTransfer(db, req, id).value, id)
  {
    var row := ExecuteTransfer(db, req, id).value.row;
    assert DestinationKey(row) == Some(req.key.(location := req.destination));
  }

  /** Every successful transaction body makes a change that its own ledger row tells completely. */
  lemma BodyTold(db: Db, req: Request, id: Id, r: Result<Change, Error>)
    requires WellFormed(req) && ReservationsSound(db) && r == Body(db, req, id) && r.Ok?
    ensures Told(db, r.value, id)
  {
    match req
    case Receive(_, _, _, _) => ReceiveTold(db, req, id);
    case Reserve(_, _, _, _) => ReserveTold(db, req, id);
    case IssueStock(_, _, _, _, _, _) => IssueTold(db, req, id);
    case ReleaseReservation(_, _) => ReleaseTold(db, req, id);
    case Adjust(_, _, _, _) => AdjustTold(db, req, id);
    case ConsumeSource(_, _, _, _, _) => ConsumeTold(db, req, id);
    case ReturnStock(_, _, _, _) => ReturnTold(db, req, id);
    case TransferStock(_, _, _, _, _) => TransferTold(db, req, id);
  }

  // ------------------------------------------------------------------ one change keeps the invariant

  /** Committing a change and replaying its row are the same. */
  lemma CommitIsReplay(db: Db, c: Change, id: Id)
    requires Told(db, c, id)
    ensures Commit(db, c) == ReplayRow(db, c.row)
  {
  }

  lemma KeepsWithinBounds(db: Db, c: Change, id: Id)
    requires Told(db, c, id) && WithinBounds(db)
    ensures WithinBounds(Commit(db, c))
  {
  }

  /** Recorded quantities and reserved quantities move by exactly what the new row says. */
  lemma ChangeMoves(db: Db, c: Change, id: Id, k: Key)
    requires Told(db, c, id)
    ensures BalanceAt(Commit(db, c), k).quantity == BalanceAt(db, k).quantity + Weight(SignedAt(k), c.row)
    ensures BalanceAt(Commit(db, c), k).reserved ==
            BalanceAt(db, k).reserved + (if c.row.key == k then SignedReserved(c.row) else 0.0)
  {
    CommitIsReplay(db, c, id);
  }

  lemma OutstandingUpdate(rs: map<Id, Reservation>, rid: Id, r: Reservation, k: Key)
    ensures Outstanding(rs[rid := r], k) ==
            Outstanding(rs, k) + OutstandingWeight(rs[rid := r], k)(rid) - OutstandingWeight(rs, k)(rid)
  {
    var rs' := rs[rid := r];
    Update(rs.Keys, OutstandingWeight(rs, k), OutstandingWeight(rs', k), rid);
    assert rs'.Keys == rs.Keys + {rid};
  }

  /** The open part of the reservations moves together with the reserved quantity. */
  lemma OutstandingMoves(db: Db, c: Change, id: Id, k: Key)
    requires Told(db, c, id) && ReservationsSound(db) && Unused(db, id)
    ensures Outstanding(Commit(db, c).reservations, k) ==
            Outstanding(db.reservations, k) + (if c.row.key == k then SignedReserved(c.row) else 0.0)
  {
    if c.row.reservationId.Some? {
      var rid := c.row.reservationId.value;
      var r := ReservationAfter(db.reservations, c.row).value;
      OutstandingUpdate(db.reservations, rid, r, k);
    }
  }

  lemma KeepsAgreement(db: Db, c: Change, id: Id)
    requires Told(db, c, id) && ReservationsSound(db) && Unused(db, id)
    requires QuantitiesAgree(db) && ReservedAgrees(db)
    ensures QuantitiesAgree(Commit(db, c)) && ReservedAgrees(Commit(db, c))
  {
    forall k
      ensures BalanceAt(Commit(db, c), k).quantity == Total(SignedAt(k), db.ledger + [c.row])
      ensures BalanceAt(Commit(db, c), k).reserved == Outstanding(Commit(db, c).reservations, k)
    {
      ChangeMoves(db, c, id, k);
      TotalAppend(SignedAt(k), db.ledger, c.row);
      OutstandingMoves(db, c, id, k);
    }
  }

  lemma KeepsReservations(db: Db, c: Change, id: Id)
    requires Told(db, c, id) && ReservationsSound(db)
    ensures ReservationsSound(Commit(db, c))
  {
  }

  lemma LinkFound(db: Db, c: Change, name: Id)
    requires var s := FindRow(db.ledger, name, c.row.key.org); s.Some? && s.value.key == c.row.key
    ensures var ledger := db.ledger + [c.row];
            exists j :: 0 <= j < |db.ledger| && ledger[j].id == name && ledger[j].key == c.row.key
  {
    FindRowSound(db.ledger, name, c.row.key.org);
    var j :| 0 <= j < |db.ledger| && db.ledger[j] == FindRow(db.ledger, name, c.row.key.org).value;
    assert (db.ledger + [c.row])[j] == db.ledger[j];
  }

  lemma KeepsLinks(db: Db, c: Change, id: Id)
    requires Told(db, c, id) && Linked(db.ledger)
    ensures Linked(db.ledger + [c.row])
  {
    var ledger := db.ledger + [c.row];
    if c.row.sourceId.Some? { LinkFound(db, c, c.row.sourceId.value); }
    if c.row.relatedId.Some? { LinkFound(db, c, c.row.relatedId.value); }
    forall i | 0 <= i < |db.ledger|
      ensures Links(ledger, i)
    {
      assert Links(db.ledger, i);
      var row := db.ledger[i];
      if row.sourceId.Some? {
        var j :| 0 <= j < i && db.ledger[j].id == row.sourceId.value && db.ledger[j].key == row.key;
        assert ledger[j] == db.ledger[j];
      }
      if row.relatedId.Some? {
        var j :| 0 <= j < i && db.ledger[j].id == row.relatedId.value && db.ledger[j].key == row.key;
        assert ledger[j] == db.ledger[j];
      }
    }
  }

  /** No row names an identifier that was never drawn. */
  lemma FreshUnnamed(db: Db, id: Id, org: Id)
    requires Linked(db.ledger) && Unused(db, id)
    ensures Total(ConsumedFrom(org, id), db.ledger) == 0.0
    ensures Total(ReturnedOf(org, id), db.ledger) == 0.0
  {
    forall i | 0 <= i < |db.ledger|
      ensures Weight(ConsumedFrom(org, id), db.ledger[i]) == 0.0
      ensures Weight(ReturnedOf(org, id), db.ledger[i]) == 0.0
    {
      assert Links(db.ledger, i);
    }
    TotalZero(ConsumedFrom(org, id), db.ledger);
    TotalZero(ReturnedOf(org, id), db.ledger);
  }

  lemma KeepsCaps(db: Db, c: Change, id: Id)
    requires Told(db, c, id) && Unused(db, id)
    requires DistinctIds(db.ledger) && Linked(db.ledger) && Capped(db.ledger)
    ensures Capped(db.ledger + [c.row])
  {
    var ledger := db.ledger + [c.row];
    forall i | 0 <= i < |ledger|
      ensures CappedAt(ledger, ledger[i])
    {
      var org, of := ledger[i].key.org, ledger[i].id;
      TotalAppend(ConsumedFrom(org, of), db.ledger, c.row);
      TotalAppend(ReturnedOf(org, of), db.ledger, c.row);
      if i == |db.ledger| {
        FreshUnnamed(db, id, org);
        KeepsLinks(db, c, id);
        assert Links(ledger, i);
      } else {
        FindRowComplete(db.ledger, i);
        assert CappedAt(db.ledger, db.ledger[i]);
      }
    }
  }

  lemma KeepsReplay(db: Db, c: Change, id: Id)
    requires Told(db, c, id) && db == Replay(db.ledger)
    ensures Commit(db, c) == Replay(Commit(db, c).ledger)
  {
    CommitIsReplay(db, c, id);
    assert (db.ledger + [c.row])[..|db.ledger|] == db.ledger;
  }

  lemma KeepsDistinct(ledger: seq<Row>, row: Row)
    requires DistinctIds(ledger) && DistinctKeys(ledger) && PositiveQuantities(ledger)
    requires forall i :: 0 <= i < |ledger| ==> ledger[i].id != row.id
    requires !KeyTaken(ledger, row.idempotencyKey)
    requires row.kind != Adjustment ==> row.quantity > 0.0
    ensures DistinctIds(ledger + [row]) && DistinctKeys(ledger + [row]) && PositiveQuantities(ledger + [row])
  {
  }

  lemma KeepsInv(db: Db, c: Change, id: Id, after: Db)
    requires Told(db, c, id) && Unused(db, id) && Inv(db)
    requires !KeyTaken(db.ledger, c.row.idempotencyKey)
    requires after == Commit(db, c)
    ensures Inv(after)
  {
    assert after.ledger == db.ledger + [c.row];
    KeepsDistinct(db.ledger, c.row);
    KeepsWithinBounds(db, c, id);
    KeepsAgreement(db, c, id);
    KeepsReservations(db, c, id);
    KeepsLinks(db, c, id);
    KeepsCaps(db, c, id);
    KeepsReplay(db, c, id);
  }

  /** A committed transaction is a told change on documents whose idempotency key was still free. */
  lemma CommittedChange(db: Db, req: Request, id: Id, strict: bool, after: Db) returns (c: Change)
    requires WellFormed(req) && ReservationsSound(db)
    requires Apply(db, req, id, strict) == Ok(after)
    ensures Body(db, req, id) == Ok(c) && Told(db, c, id) && after == Commit(db, c)
    ensures !KeyTaken(db.ledger, c.row.idempotencyKey)
  {
    var r := Body(db, req, id);
    BodyTold(db, req, id, r);
    c := r.value;
  }

  /** One committed transaction keeps every property at once. */
  lemma Step(db: Db, req: Request, id: Id, strict: bool, after: Db)
    requires WellFormed(req) && Inv(db) && Unused(db, id)
    requires Apply(db, req, id, strict) == Ok(after)
    ensures Inv(after)
  {
    var c := CommittedChange(db, req, id, strict, after);
    KeepsInv(db, c, id, after);
  }

  function Org(req: Request): Id
  {
    if req.ReleaseReservation? || req.ReturnStock? then req.org else req.key.org
  }

  /** The row of a transaction carries the request's idempotency key and organization. */
  lemma BodyCarriesKey(db: Db, req: Request, id: Id, r: Result<Change, Error>)
    requires r == Body(db, req, id) && r.Ok?
    ensures r.value.row.id == id && r.value.row.idempotencyKey == KeyOf(req) && r.value.row.key.org == Org(req)
    ensures !req.ReturnStock? && !req.ReleaseReservation? ==> r.value.row.key == req.key
    ensures req.Reserve? ==> r.value.row.reservationId == Some(id) && r.value.row.kind == ReservationMade
  {
    match req
    case ReturnStock(_, _, _, _) =>
      assert r == ExecuteReturn(db, req, id);
      FindRowSound(db.ledger, req.originalId, req.org);
    case ReleaseReservation(_, _) => assert r == ExecuteRelease(db, req, id);
    case IssueStock(_, _, _, _, _, _) => assert r == ExecuteIssue(db, req, id);
    case ConsumeSource(_, _, _, _, _) => assert r == ExecuteConsumeSource(db, req, id);
    case TransferStock(_, _, _, _, _) => assert r == ExecuteTransfer(db, req, id);
    case Receive(_, _, _, _) => assert r == ExecuteReceive(db, req, id);
    case Reserve(_, _, _, _) => assert r == ExecuteReserve(db, req, id);
    case Adjust(_, _, _, _) => assert r == ExecuteAdjust(db, req, id);
  }
}
