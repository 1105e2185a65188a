// Stock balances, reservations and the append-only transaction ledger, as values, and what one
// repository transaction does to them. `InventoryStore` proves the step-by-step methods against
// the functions of this module.
module Inventory {
  import opened Wrappers

  type Id = nat

  /** A balance is identified by organization, item and stock location. */
  datatype Key = Key(org: Id, item: Id, location: Id)

  datatype Balance = Balance(quantity: real, reserved: real)

  datatype ReservationStatus = Requested | Reserved | Consumed | Released | Rejected

  datatype Reservation = Reservation(key: Key, quantity: real, consumed: real, status: ReservationStatus)

  datatype RowType =
    | Receipt | Issue | Consumption | Adjustment | Transfer | Return | ReservationMade | Release

  /** One ledger document. `sourceId` names the issue a consumption draws on, `relatedId` the
      transaction a return gives back. */
  datatype Row = Row(
    id: Id, key: Key, kind: RowType, quantity: real, unit: string,
    reservationId: Option<Id>, relatedId: Option<Id>, sourceId: Option<Id>,
    destination: Option<Id>, idempotencyKey: Option<string>)

  datatype Db = Db(balances: map<Key, Balance>, reservations: map<Id, Reservation>, ledger: seq<Row>)

  const EMPTY: Db := Db(map[], map[], [])

  datatype Error =
    | InsufficientStock | InvalidReservation | InconsistentReservationBalance
    | SourceTransactionNotFound | ConsumptionExceedsSource | ReturnExceedsSource
    | ValidationFailed | DuplicateKey

  /** The eight repository transactions with the arguments the service hands to them. */
  datatype Request =
    | Receive(key: Key, quantity: real, unit: string, idempotencyKey: Option<string>)
    | Reserve(key: Key, quantity: real, unit: string, idempotencyKey: Option<string>)
    | IssueStock(key: Key, quantity: real, unit: string, reservationId: Option<Id>, kind: RowType,
                 idempotencyKey: Option<string>)
    | ReleaseReservation(org: Id, releasedId: Id)
    | Adjust(key: Key, quantity: real, unit: string, idempotencyKey: Option<string>)
    | ConsumeSource(key: Key, sourceId: Id, quantity: real, unit: string, idempotencyKey: Option<string>)
    | ReturnStock(org: Id, originalId: Id, quantity: real, idempotencyKey: Option<string>)
    | TransferStock(key: Key, destination: Id, quantity: real, unit: string, idempotencyKey: Option<string>)

  /** What request validation guarantees: positive quantities, non-zero adjustments, a unit of
      measure, and two different transfer locations. */
  predicate WellFormed(req: Request)
  {
    && (req.Adjust? ==> req.quantity != 0.0)
    && (!req.Adjust? && !req.ReleaseReservation? ==> req.quantity > 0.0)
    && (!req.ReleaseReservation? && !req.ReturnStock? ==> req.unit != "")
    && (req.IssueStock? ==> req.kind == Issue || (req.kind == Consumption && req.reservationId.Some?))
    && (req.TransferStock? ==> req.destination != req.key.location)
  }

  function KeyOf(req: Request): Option<string>
  {
    if req.ReleaseReservation? then None else req.idempotencyKey
  }

  // ------------------------------------------------------------------ reading the collections

  /** The balance document, or the zero document an upsert would create. */
  function BalanceAt(db: Db, key: Key): Balance
  {
    if key in db.balances then db.balances[key] else Balance(0.0, 0.0)
  }

  function FindReservation(db: Db, id: Id, org: Id): Option<Reservation>
  {
    if id in db.reservations && db.reservations[id].key.org == org then Some(db.reservations[id]) else None
  }

  function FindRow(ledger: seq<Row>, id: Id, org: Id): Option<Row>
  {
    if ledger == [] then None
    else if ledger[0].id == id && ledger[0].key.org == org then Some(ledger[0])
    else FindRow(ledger[1..], id, org)
  }

  /** The key carried by some committed row of any organization: what the unique index sees. */
  predicate KeyTaken(ledger: seq<Row>, k: Option<string>)
  {
    k.Some? && exists i :: 0 <= i < |ledger| && ledger[i].idempotencyKey == k
  }

  /** A per-row weight, named so that one summation serves every view of the ledger. */
  datatype Tally =
    | SignedAt(at: Key)
    | ConsumedFrom(org: Id, id: Id)
    | ReturnedOf(org: Id, id: Id)
    | TransferredOut(at: Key)
    | WithoutTransfers(org: Id, item: Id)
    | ReservedWithoutTransfers(org: Id, item: Id)

  /** The stock a row moves at its own location. */
  function SignedQuantity(row: Row): real
  {
    match row.kind
    case Receipt | Return | Adjustment => row.quantity
    case Issue | Consumption | Transfer => -row.quantity
    case ReservationMade | Release => 0.0
  }

  /** The reserved quantity a row moves at its own location. */
  function SignedReserved(row: Row): real
  {
    match row.kind
    case ReservationMade => row.quantity
    case Release => -row.quantity
    case Issue | Consumption => if row.reservationId.Some? then -row.quantity else 0.0
    case _ => 0.0
  }

  function DestinationKey(row: Row): Option<Key>
  {
    if row.kind == Transfer && row.destination.Some?
    then Some(Key(row.key.org, row.key.item, row.destination.value)) else None
  }

  function Weight(t: Tally, row: Row): real
  {
    match t
    case SignedAt(at) =>
      (if row.key == at then SignedQuantity(row) else 0.0) +
      (if DestinationKey(row) == Some(at) then row.quantity else 0.0)
    case ConsumedFrom(org, id) =>
      if row.kind == Consumption && row.sourceId == Some(id) && row.key.org == org then row.quantity else 0.0
    case ReturnedOf(org, id) =>
      if row.kind == Return && row.relatedId == Some(id) && row.key.org == org then row.quantity else 0.0
    case TransferredOut(at) =>
      if row.kind == Transfer && row.key == at then row.quantity else 0.0
    case WithoutTransfers(org, item) =>
      if row.kind != Transfer && row.key.org == org && row.key.item == item then SignedQuantity(row) else 0.0
    case ReservedWithoutTransfers(org, item) =>
      if row.kind != Transfer && row.key.org == org && row.key.item == item then SignedReserved(row) else 0.0
  }

  function Total(t: Tally, ledger: seq<Row>): real
  {
    if ledger == [] then 0.0
    else Total(t, ledger[..|ledger| - 1]) + Weight(t, ledger[|ledger| - 1])
  }

  // ------------------------------------------------------------------ one transaction

  datatype BalanceWrite = BalanceWrite(key: Key, doc: Balance)
  datatype ReservationWrite = ReservationWrite(id: Id, doc: Reservation)

  /** Everything a transaction writes: one or two whole balance documents, at most one reservation
      document, and one row. */
  datatype Change = Change(own: BalanceWrite, arrival: Option<BalanceWrite>,
                           reservation: Option<ReservationWrite>, row: Row)

  function WrittenBalances(bs: map<Key, Balance>, c: Change): map<Key, Balance>
  {
    var own := bs[c.own.key := c.own.doc];
    match c.arrival
    case None => own
    case Some(w) => own[w.key := w.doc]
  }

  function WrittenReservations(rs: map<Id, Reservation>, c: Change): map<Id, Reservation>
  {
    match c.reservation
    case None => rs
    case Some(w) => rs[w.id := w.doc]
  }

  function Commit(db: Db, c: Change): Db
  {
    Db(WrittenBalances(db.balances, c), WrittenReservations(db.reservations, c), db.ledger + [c.row])
  }

  /** The document validation of the ledger insert. Whether a required string may be empty is the
      document library's decision, so it is a parameter: `strict` refuses it. */
  function Validated(c: Change, strict: bool): Result<Change, Error>
  {
    if strict && c.row.unit == "" then Err(ValidationFailed) else Ok(c)
  }

  function PlainRow(id: Id, key: Key, kind: RowType, quantity: real, unit: string, k: Option<string>): Row
  {
    Row(id, key, kind, quantity, unit, None, None, None, None, k)
  }

  /** A transaction that writes one balance document and one row, and nothing else. */
  function OneBalance(b: Balance, row: Row): Change
  {
    Change(BalanceWrite(row.key, b), None, None, row)
  }

  function ExecuteIssue(db: Db, req: Request, id: Id): Result<Change, Error>
    requires req.IssueStock?
  {
    var b := BalanceAt(db, req.key);
    var row := PlainRow(id, req.key, req.kind, req.quantity, req.unit, req.idempotencyKey)
               .(reservationId := req.reservationId);
    match req.reservationId
    case Some(rid) =>
      var found := FindReservation(db, rid, req.key.org);
      if found.None? || found.value.status != Reserved || found.value.key != req.key ||
         req.quantity > found.value.quantity - found.value.consumed
      then Err(InvalidReservation)
      else if b.quantity < req.quantity || b.reserved < req.quantity then Err(InsufficientStock)
      else
        var consumed := found.value.consumed + req.quantity;
        Ok(Change(
             BalanceWrite(req.key, Balance(b.quantity - req.quantity, b.reserved - req.quantity)),
             None,
             Some(ReservationWrite(rid, found.value.(consumed := consumed,
                                                     status := if consumed == found.value.quantity
                                                               then Consumed else Reserved))),
             row))
    case None =>
      if b.quantity - b.reserved < req.quantity then Err(InsufficientStock)
      else Ok(OneBalance(b.(quantity := b.quantity - req.quantity), row))
  }

  function ExecuteRelease(db: Db, req: Request, id: Id): Result<Change, Error>
    requires req.ReleaseReservation?
  {
    var found := FindReservation(db, req.releasedId, req.org);
    if found.None? || found.value.status != Reserved then Err(InvalidReservation)
    else
      var r := found.value;
      var b := BalanceAt(db, r.key);
      if b.reserved < r.quantity - r.consumed then Err(InconsistentReservationBalance)
      else Ok(Change(
                BalanceWrite(r.key, b.(reserved := b.reserved - (r.quantity - r.consumed))),
                None,
                Some(ReservationWrite(req.releasedId, r.(status := Released))),
                PlainRow(id, r.key, Release, r.quantity - r.consumed, "", None)
                .(reservationId := Some(req.releasedId))))
  }

  function ExecuteConsumeSource(db: Db, req: Request, id: Id): Result<Change, Error>
    requires req.ConsumeSource?
  {
    var source := FindRow(db.ledger, req.sourceId, req.key.org);
    var b := BalanceAt(db, req.key);
    if source.None? || source.value.kind != Issue || source.value.key != req.key
    then Err(SourceTransactionNotFound)
    else if Total(ConsumedFrom(req.key.org, req.sourceId), db.ledger) + req.quantity > source.value.quantity
    then Err(ConsumptionExceedsSource)
    else if b.quantity - b.reserved < req.quantity then Err(InsufficientStock)
    else Ok(OneBalance(b.(quantity := b.quantity - req.quantity),
                       PlainRow(id, req.key, Consumption, req.quantity, req.unit, req.idempotencyKey)
                       .(sourceId := Some(req.sourceId))))
  }

  function ExecuteReturn(db: Db, req: Request, id: Id): Result<Change, Error>
    requires req.ReturnStock?
  {
    var original := FindRow(db.ledger, req.originalId, req.org);
    if original.None? || !(original.value.kind == Issue || original.value.kind == Consumption)
    then Err(SourceTransactionNotFound)
    else if Total(ReturnedOf(req.org, req.originalId), db.ledger) + req.quantity > original.value.quantity
    then Err(ReturnExceedsSource)
    else
      var b := BalanceAt(db, original.value.key);
      Ok(OneBalance(b.(quantity := b.quantity + req.quantity),
                    PlainRow(id, original.value.key, Return, req.quantity, original.value.unit, req.idempotencyKey)
                    .(relatedId := Some(req.originalId))))
  }

  function ExecuteTransfer(db: Db, req: Request, id: Id): Result<Change, Error>
    requires req.TransferStock?
  {
    var source := BalanceAt(db, req.key);
    var there := req.key.(location := req.destination);
    var destination := BalanceAt(db, there);
    if source.quantity - source.reserved < req.quantity then Err(InsufficientStock)
    else Ok(Change(
              BalanceWrite(req.key, source.(quantity := source.quantity - req.quantity)),
              Some(BalanceWrite(there, destination.(quantity := destination.quantity + req.quantity))),
              None,
              PlainRow(id, req.key, Transfer, req.quantity, req.unit, req.idempotencyKey)
              .(destination := Some(req.destination))))
  }

  function ExecuteReceive(db: Db, req: Request, id: Id): Result<Change, Error>
    requires req.Receive?
  {
    var b := BalanceAt(db, req.key);
    Ok(OneBalance(b.(quantity := b.quantity + req.quantity),
                  PlainRow(id, req.key, Receipt, req.quantity, req.unit, req.idempotencyKey)))
  }

  function ExecuteReserve(db: Db, req: Request, id: Id): Result<Change, Error>
    requires req.Reserve?
  {
    var b := BalanceAt(db, req.key);
    if b.quantity - b.reserved < req.quantity then Err(InsufficientStock)
    else Ok(Change(BalanceWrite(req.key, b.(reserved := b.reserved + req.quantity)),
                   None,
                   Some(ReservationWrite(id, Reservation(req.key, req.quantity, 0.0, Reserved))),
                   PlainRow(id, req.key, ReservationMade, req.quantity, req.unit, req.idempotencyKey)
                   .(reservationId := Some(id))))
  }

  function ExecuteAdjust(db: Db, req: Request, id: Id): Result<Change, Error>
    requires req.Adjust?
  {
    var b := BalanceAt(db, req.key);
    if req.quantity <= 0.0 && b.quantity - b.reserved < -req.quantity then Err(InsufficientStock)
    else Ok(OneBalance(b.(quantity := b.quantity + req.quantity),
                       PlainRow(id, req.key, Adjustment, req.quantity, req.unit, req.idempotencyKey)))
  }

  /** What the transaction body computes on the documents it reads, before the row is validated.
      `id` is the fresh identifier of the row (and of the reservation) it creates. */
  function Body(db: Db, req: Request, id: Id): Result<Change, Error>
  {
    match req
    case Receive(_, _, _, _) => ExecuteReceive(db, req, id)
    case Reserve(_, _, _, _) => ExecuteReserve(db, req, id)
    case IssueStock(_, _, _, _, _, _) => ExecuteIssue(db, req, id)
    case ReleaseReservation(_, _) => ExecuteRelease(db, req, id)
    case Adjust(_, _, _, _) => ExecuteAdjust(db, req, id)
    case ConsumeSource(_, _, _, _, _) => ExecuteConsumeSource(db, req, id)
    case ReturnStock(_, _, _, _) => ExecuteReturn(db, req, id)
    case TransferStock(_, _, _, _, _) => ExecuteTransfer(db, req, id)
  }

  function Execute(db: Db, req: Request, id: Id, strict: bool): Result<Change, Error>
  {
    match Body(db, req, id)
    case Ok(c) => Validated(c, strict)
    case Err(e) => Err(e)
  }

  /** An atomic execution: the transaction body, then the unique index on the idempotency key. */
  function Apply(db: Db, req: Request, id: Id, strict: bool): Result<Db, Error>
  {
    match Execute(db, req, id, strict)
    case Err(e) => Err(e)
    case Ok(c) => if KeyTaken(db.ledger, c.row.idempotencyKey) then Err(DuplicateKey) else Ok(Commit(db, c))
  }

  // ------------------------------------------------------------------ runs

  /** One request together with the identifier drawn for it. */
  datatype Call = Call(req: Request, id: Id)

  predicate Admissible(calls: seq<Call>)
  {
    && (forall i :: 0 <= i < |calls| ==> WellFormed(calls[i].req))
    && (forall i, j :: 0 <= i < j < |calls| ==> calls[i].id != calls[j].id)
  }

  /** The database after a sequence of atomic executions from the empty one; a failed one leaves
      it unchanged. */
  function After(calls: seq<Call>, strict: bool): Db
  {
    if calls == [] then EMPTY
    else
      var last := calls[|calls| - 1];
      var before := After(calls[..|calls| - 1], strict);
      match Apply(before, last.req, last.id, strict)
      case Ok(db) => db
      case Err(_) => before
  }
}
