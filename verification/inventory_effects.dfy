// What each repository transaction does for its caller, told from the request: when it is accepted, which
// error it ends with otherwise, the stock and reservation it moves, and the ledger row it leaves.
module InventoryEffects {
  import opened Wrappers
  import opened Inventory

  /** The balances after the balance at `key` has moved, and no other. */
  function MovedAt(db: Db, key: Key, quantity: real, reserved: real): map<Key, Balance>
  {
    db.balances[key := Balance(BalanceAt(db, key).quantity + quantity, BalanceAt(db, key).reserved + reserved)]
  }

  function Free(db: Db, key: Key): real { BalanceAt(db, key).quantity - BalanceAt(db, key).reserved }

  /** A receipt is refused only for its key; it adds its quantity to the stock. */
  lemma ReceiptEffect(db: Db, key: Key, quantity: real, unit: string, k: Option<string>, id: Id, strict: bool)
    requires unit != ""
    ensures var r := Apply(db, Receive(key, quantity, unit, k), id, strict);
            if KeyTaken(db.ledger, k) then r == Err(DuplicateKey)
            else r == Ok(Db(MovedAt(db, key, quantity, 0.0), db.reservations,
                            db.ledger + [Row(id, key, Receipt, quantity, unit, None, None, None, None, k)]))
  {
    var req := Receive(key, quantity, unit, k);
    assert Body(db, req, id) == ExecuteReceive(db, req, id);
  }

  /** A reservation takes free stock only; the stock stays, its quantity becomes reserved. */
  lemma ReserveEffect(db: Db, key: Key, quantity: real, unit: string, k: Option<string>, id: Id, strict: bool)
    requires unit != ""
    ensures var r := Apply(db, Reserve(key, quantity, unit, k), id, strict);
            if Free(db, key) < quantity then r == Err(InsufficientStock)
            else if KeyTaken(db.ledger, k) then r == Err(DuplicateKey)
            else r == Ok(Db(MovedAt(db, key, 0.0, quantity),
                            db.reservations[id := Reservation(key, quantity, 0.0, Reserved)],
                            db.ledger + [Row(id, key, ReservationMade, quantity, unit, Some(id), None, None, None, k)]))
  {
    var req := Reserve(key, quantity, unit, k);
    assert Body(db, req, id) == ExecuteReserve(db, req, id);
  }

  /** An adjustment moves the stock by its amount; what it takes must be free. */
  lemma AdjustEffect(db: Db, key: Key, quantity: real, unit: string, k: Option<string>, id: Id, strict: bool)
    requires unit != ""
    ensures var r := Apply(db, Adjust(key, quantity, unit, k), id, strict);
            if quantity <= 0.0 && Free(db, key) < -quantity then r == Err(InsufficientStock)
            else if KeyTaken(db.ledger, k) then r == Err(DuplicateKey)
            else r == Ok(Db(MovedAt(db, key, quantity, 0.0), db.reservations,
                            db.ledger + [Row(id, key, Adjustment, quantity, unit, None, None, None, None, k)]))
  {
    var req := Adjust(key, quantity, unit, k);
    assert Body(db, req, id) == ExecuteAdjust(db, req, id);
  }

  /** An issue without reservation takes its quantity of free stock. */
  lemma IssueEffect(db: Db, key: Key, quantity: real, unit: string, kind: RowType, k: Option<string>, id: Id,
                    strict: bool)
    requires unit != ""
    ensures var r := Apply(db, IssueStock(key, quantity, unit, None, kind, k), id, strict);
            if Free(db, key) < quantity then r == Err(InsufficientStock)
            else if KeyTaken(db.ledger, k) then r == Err(DuplicateKey)
            else r == Ok(Db(MovedAt(db, key, -quantity, 0.0), db.reservations,
                            db.ledger + [Row(id, key, kind, quantity, unit, None, None, None, None, k)]))
  {
    var req := IssueStock(key, quantity, unit, None, kind, k);
    assert Body(db, req, id) == ExecuteIssue(db, req, id);
  }

  /** An open reservation of this balance with that much left. */
  predicate Covers(db: Db, rid: Id, key: Key, quantity: real)
  {
    && rid in db.reservations && db.reservations[rid].key == key && db.reservations[rid].status == Reserved
    && quantity <= db.reservations[rid].quantity - db.reservations[rid].consumed
  }

  /** The reservation after some of it was used. */
  function Used(r: Reservation, quantity: real): Reservation
  {
    Reservation(r.key, r.quantity, r.consumed + quantity,
                if r.consumed + quantity == r.quantity then Consumed else Reserved)
  }

  /** An issue from a reservation takes exactly its quantity, from stock, from the reserved part and from
      that reservation, whatever else is left of it. */
  lemma ReservedIssueEffect(db: Db, key: Key, quantity: real, unit: string, rid: Id, kind: RowType, k: Option<string>,
                            id: Id, strict: bool)
    requires unit != ""
    ensures var r := Apply(db, IssueStock(key, quantity, unit, Some(rid), kind, k), id, strict);
            if !Covers(db, rid, key, quantity) then r == Err(InvalidReservation)
            else if BalanceAt(db, key).quantity < quantity || BalanceAt(db, key).reserved < quantity
            then r == Err(InsufficientStock)
            else if KeyTaken(db.ledger, k) then r == Err(DuplicateKey)
            else r == Ok(Db(MovedAt(db, key, -quantity, -quantity),
                            db.reservations[rid := Used(db.reservations[rid], quantity)],
                            db.ledger + [Row(id, key, kind, quantity, unit, Some(rid), None, None, None, k)]))
  {
    var req := IssueStock(key, quantity, unit, Some(rid), kind, k);
    assert Body(db, req, id) == ExecuteIssue(db, req, id);
  }

  /** A release frees what is left of an open reservation. */
  lemma ReleaseEffect(db: Db, org: Id, rid: Id, id: Id, strict: bool)
    ensures var r := Apply(db, ReleaseReservation(org, rid), id, strict);
            if !(rid in db.reservations && db.reservations[rid].key.org == org) then r == Err(InvalidReservation)
            else if db.reservations[rid].status != Reserved then r == Err(InvalidReservation)
            else
              var reservation := db.reservations[rid];
              var rest := reservation.quantity - reservation.consumed;
              if BalanceAt(db, reservation.key).reserved < rest then r == Err(InconsistentReservationBalance)
              else if strict then r == Err(ValidationFailed)
              else
                var row := Row(id, reservation.key, Release, rest, "", Some(rid), None, None, None, None);
                r == Ok(Db(MovedAt(db, reservation.key, 0.0, -rest),
                           db.reservations[rid := reservation.(status := Released)], db.ledger + [row]))
  {
    var req := ReleaseReservation(org, rid);
    assert Body(db, req, id) == ExecuteRelease(db, req, id);
  }

  /** What a row's limit counts: nothing at first, and then the quantity of every consumption that names the
      row as its source, or of every return of it, in the row's organization. */
  lemma DrawnOneMore(ledger: seq<Row>, row: Row, org: Id, id: Id)
    ensures Total(ConsumedFrom(org, id), []) == 0.0 && Total(ReturnedOf(org, id), []) == 0.0
    ensures Total(ConsumedFrom(org, id), ledger + [row]) - Total(ConsumedFrom(org, id), ledger) ==
            if row.kind == Consumption && row.sourceId == Some(id) && row.key.org == org then row.quantity else 0.0
    ensures Total(ReturnedOf(org, id), ledger + [row]) - Total(ReturnedOf(org, id), ledger) ==
            if row.kind == Return && row.relatedId == Some(id) && row.key.org == org then row.quantity else 0.0
  {
    assert (ledger + [row])[..|ledger|] == ledger;
  }

  /** A consumption of an issue takes its quantity of free stock, within what that issue has left. */
  lemma ConsumeEffect(db: Db, key: Key, source: Id, quantity: real, unit: string, k: Option<string>, id: Id,
                      strict: bool)
    requires unit != ""
    ensures var r := Apply(db, ConsumeSource(key, source, quantity, unit, k), id, strict);
            var issue := FindRow(db.ledger, source, key.org);
            if issue.None? then r == Err(SourceTransactionNotFound)
            else if issue.value.kind != Issue || issue.value.key != key then r == Err(SourceTransactionNotFound)
            else if Total(ConsumedFrom(key.org, source), db.ledger) + quantity > issue.value.quantity
            then r == Err(ConsumptionExceedsSource)
            else if Free(db, key) < quantity then r == Err(InsufficientStock)
            else if KeyTaken(db.ledger, k) then r == Err(DuplicateKey)
            else
              var row := Row(id, key, Consumption, quantity, unit, None, None, Some(source), None, k);
              r == Ok(Db(MovedAt(db, key, -quantity, 0.0), db.reservations, db.ledger + [row]))
  {
    var req := ConsumeSource(key, source, quantity, unit, k);
    assert Body(db, req, id) == ExecuteConsumeSource(db, req, id);
  }

  /** A return gives its quantity back to where it was taken, within what was taken. */
  lemma ReturnEffect(db: Db, org: Id, original: Id, quantity: real, k: Option<string>, id: Id, strict: bool)
    ensures var r := Apply(db, ReturnStock(org, original, quantity, k), id, strict);
            var taken := FindRow(db.ledger, original, org);
            if taken.None? || !(taken.value.kind in [Issue, Consumption]) then r == Err(SourceTransactionNotFound)
            else if Total(ReturnedOf(org, original), db.ledger) + quantity > taken.value.quantity
            then r == Err(ReturnExceedsSource)
            else if strict && taken.value.unit == "" then r == Err(ValidationFailed)
            else if KeyTaken(db.ledger, k) then r == Err(DuplicateKey)
            else
              var at, unit := taken.value.key, taken.value.unit;
              var row := Row(id, at, Return, quantity, unit, None, Some(original), None, None, k);
              r == Ok(Db(MovedAt(db, at, quantity, 0.0), db.reservations, db.ledger + [row]))
  {
    var req := ReturnStock(org, original, quantity, k);
    assert Body(db, req, id) == ExecuteReturn(db, req, id);
  }

  /** A transfer takes its quantity of free stock at one location and adds it at the other. */
  lemma TransferEffect(db: Db, key: Key, destination: Id, quantity: real, unit: string, k: Option<string>, id: Id,
                       strict: bool)
    requires unit != "" && destination != key.location
    ensures var r := Apply(db, TransferStock(key, destination, quantity, unit, k), id, strict);
            var there := Key(key.org, key.item, destination);
            if Free(db, key) < quantity then r == Err(InsufficientStock)
            else if KeyTaken(db.ledger, k) then r == Err(DuplicateKey)
            else
              var taken := Db(MovedAt(db, key, -quantity, 0.0), db.reservations, db.ledger);
              var row := Row(id, key, Transfer, quantity, unit, None, None, None, Some(destination), k);
              r == Ok(Db(MovedAt(taken, there, quantity, 0.0), db.reservations, db.ledger + [row]))
  {
    var req := TransferStock(key, destination, quantity, unit, k);
    assert Body(db, req, id) == ExecuteTransfer(db, req, id);
  }
}
