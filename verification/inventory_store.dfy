// The repository: three collections changed in place by guarded updates, and one method per
// transaction. Each method is proved to do to the stored documents exactly what `Inventory.Apply`
// says, and to leave them untouched when it fails.
module InventoryStore {
  import opened Wrappers
  import opened Inventory
  import opened InventoryInvariants

  datatype Confirmation = Confirmation(balance: Balance, row: Row)

  /** How a transaction ends whose body computed `body`: it committed exactly that change, or it
      failed and changed nothing. */
  ghost predicate Concluded(before: Db, body: Result<Change, Error>, strict: bool, after: Db,
                            r: Result<Confirmation, Error>)
  {
    match body
    case Err(e) => r == Err(e) && after == before
    case Ok(c) =>
      if strict && c.row.unit == "" then r == Err(ValidationFailed) && after == before
      else if KeyTaken(before.ledger, c.row.idempotencyKey) then r == Err(DuplicateKey) && after == before
      else r == Ok(Confirmation(c.own.doc, c.row)) && after == Commit(before, c)
  }

  /** A concluded transaction is an atomic execution of its request. */
  lemma ConcludedIsApplied(before: Db, req: Request, id: Id, strict: bool, after: Db, r: Result<Confirmation, Error>,
                           body: Result<Change, Error>)
    requires body == Body(before, req, id) && Concluded(before, body, strict, after, r)
    ensures r.Ok? ==> Apply(before, req, id, strict) == Ok(after)
    ensures r.Err? ==> Apply(before, req, id, strict) == Err(r.error) && after == before
  {
  }

  /** Identifiers from `next` on are carried by no stored document. */
  ghost predicate Consistent(db: Db, next: Id)
  {
    Inv(db) && forall i :: i >= next ==> Unused(db, i)
  }

  lemma LaterUnused(before: Db, c: Change, id: Id)
    requires Told(before, c, id) && forall i :: i >= id ==> Unused(before, i)
    ensures forall i :: i >= id + 1 ==> Unused(Commit(before, c), i)
  {
    forall i | i >= id + 1
      ensures Unused(Commit(before, c), i)
    {
      assert Unused(before, i);
    }
  }

  /** So it keeps what every run keeps. */
  lemma ConcludedKeeps(before: Db, req: Request, id: Id, strict: bool, after: Db, r: Result<Confirmation, Error>,
                       body: Result<Change, Error>)
    requires Consistent(before, id) && WellFormed(req)
    requires body == Body(before, req, id) && Concluded(before, body, strict, after, r)
    ensures Consistent(after, id + 1)
  {
    ConcludedIsApplied(before, req, id, strict, after, r, body);
    assert Unused(before, id);
    if r.Ok? {
      var c := CommittedChange(before, req, id, strict, after);
      Step(before, req, id, strict, after);
      LaterUnused(before, c, id);
    }
  }

  class Repository {
    var balances: map<Key, Balance>
    var reservations: map<Id, Reservation>
    var ledger: seq<Row>
    var nextId: Id
    const strict: bool

    ghost function Contents(): Db
      reads this
    {
      Db(balances, reservations, ledger)
    }

    ghost predicate Valid()
      reads this
    {
      Consistent(Contents(), nextId)
    }

    constructor (strict: bool)
      ensures Valid() && Contents() == EMPTY && this.strict == strict
    {
      balances, reservations, ledger, nextId := map[], map[], [], 0;
      this.strict := strict;
    }

    // ---------------------------------------------------------------- guarded updates

    /** Upsert of an empty balance document. */
    method EnsureBalance(key: Key)
      modifies this`balances
      ensures balances == old(balances)[key := BalanceAt(old(Contents()), key)]
    {
      if key !in balances {
        balances := balances[key := Balance(0.0, 0.0)];
      }
    }

    method IncreaseBalance(key: Key, quantity: real) returns (updated: Option<Balance>)
      modifies this`balances
      ensures key !in old(balances) ==> updated == None && balances == old(balances)
      ensures key in old(balances) ==>
                var b := old(balances)[key];
                updated == Some(b.(quantity := b.quantity + quantity)) &&
                    balances == old(balances)[key := updated.value]
    {
      if key !in balances { return None; }
      var b := balances[key].(quantity := balances[key].quantity + quantity);
      balances := balances[key := b];
      updated := Some(b);
    }

    /** Takes unreserved stock, and only if there is enough of it. */
    method DecreaseAvailable(key: Key, quantity: real) returns (updated: Option<Balance>)
      modifies this`balances
      ensures key !in old(balances) || old(balances)[key].quantity - old(balances)[key].reserved < quantity ==>
                updated == None && balances == old(balances)
      ensures key in old(balances) && old(balances)[key].quantity - old(balances)[key].reserved >= quantity ==>
                var b := old(balances)[key];
                updated == Some(b.(quantity := b.quantity - quantity)) &&
                    balances == old(balances)[key := updated.value]
    {
      if key !in balances || balances[key].quantity - balances[key].reserved < quantity { return None; }
      var b := balances[key].(quantity := balances[key].quantity - quantity);
      balances := balances[key := b];
      updated := Some(b);
    }

    method ReserveBalance(key: Key, quantity: real) returns (updated: Option<Balance>)
      modifies this`balances
      ensures key !in old(balances) || old(balances)[key].quantity - old(balances)[key].reserved < quantity ==>
                updated == None && balances == old(balances)
      ensures key in old(balances) && old(balances)[key].quantity - old(balances)[key].reserved >= quantity ==>
                var b := old(balances)[key];
                updated == Some(b.(reserved := b.reserved + quantity)) &&
                    balances == old(balances)[key := updated.value]
    {
      if key !in balances || balances[key].quantity - balances[key].reserved < quantity { return None; }
      var b := balances[key].(reserved := balances[key].reserved + quantity);
      balances := balances[key := b];
      updated := Some(b);
    }

    method ReleaseBalance(key: Key, quantity: real) returns (updated: Option<Balance>)
      modifies this`balances
      ensures key !in old(balances) || old(balances)[key].reserved < quantity ==>
                updated == None && balances == old(balances)
      ensures key in old(balances) && old(balances)[key].reserved >= quantity ==>
                var b := old(balances)[key];
                updated == Some(b.(reserved := b.reserved - quantity)) &&
                    balances == old(balances)[key := updated.value]
    {
      if key !in balances || balances[key].reserved < quantity { return None; }
      var b := balances[key].(reserved := balances[key].reserved - quantity);
      balances := balances[key := b];
      updated := Some(b);
    }

    method ConsumeReserved(key: Key, quantity: real) returns (updated: Option<Balance>)
      modifies this`balances
      ensures key !in old(balances) || old(balances)[key].quantity < quantity ||
              old(balances)[key].reserved < quantity ==>
                updated == None && balances == old(balances)
      ensures key in old(balances) && old(balances)[key].quantity >= quantity &&
              old(balances)[key].reserved >= quantity ==>
                var b := old(balances)[key];
                updated == Some(Balance(b.quantity - quantity, b.reserved - quantity)) &&
                balances == old(balances)[key := updated.value]
    {
      if key !in balances || balances[key].quantity < quantity || balances[key].reserved < quantity { return None; }
      var b := Balance(balances[key].quantity - quantity, balances[key].reserved - quantity);
      balances := balances[key := b];
      updated := Some(b);
    }

    /** Sums the quantities of the rows a tally selects. */
    method Sum(t: Tally) returns (sum: real)
      ensures sum == Total(t, ledger)
    {
      sum := 0.0;
      for i := 0 to |ledger|
        invariant sum == Total(t, ledger[..i])
      {
        TotalAppend(t, ledger[..i], ledger[i]);
        assert ledger[..i + 1] == ledger[..i] + [ledger[i]];
        sum := sum + Weight(t, ledger[i]);
      }
      assert ledger[..|ledger|] == ledger;
    }

    /** Inserts a ledger row, subject to validation and to the unique index. */
    method CreateTransaction(row: Row) returns (problem: Option<Error>)
      modifies this`ledger
      ensures problem == if strict && row.unit == "" then Some(ValidationFailed)
                         else if KeyTaken(old(ledger), row.idempotencyKey) then Some(DuplicateKey)
                         else None
      ensures ledger == if problem == None then old(ledger) + [row] else old(ledger)
    {
      if strict && row.unit == "" { return Some(ValidationFailed); }
      if row.idempotencyKey.Some? {
        for i := 0 to |ledger|
          invariant forall j :: 0 <= j < i ==> ledger[j].idempotencyKey != row.idempotencyKey
        {
          if ledger[i].idempotencyKey == row.idempotencyKey { return Some(DuplicateKey); }
        }
      }
      ledger := ledger + [row];
      problem := None;
    }

    method DrawId() returns (id: Id)
      modifies this`nextId
      ensures id == old(nextId) && nextId == old(nextId) + 1
    {
      id := nextId;
      nextId := nextId + 1;
    }

    /** Ends a transaction: commits when the row was inserted, otherwise puts the documents back. */
    method Conclude(updated: Balance, row: Row, bs: map<Key, Balance>, rs: map<Id, Reservation>)
      returns (r: Result<Confirmation, Error>)
      modifies this
      ensures nextId == old(nextId)
      ensures strict && row.unit == "" ==> r == Err(ValidationFailed)
      ensures !(strict && row.unit == "") && KeyTaken(old(ledger), row.idempotencyKey) ==> r == Err(DuplicateKey)
      ensures !(strict && row.unit == "") && !KeyTaken(old(ledger), row.idempotencyKey) ==>
                r == Ok(Confirmation(updated, row)) &&
                Contents() == Db(old(balances), old(reservations), old(ledger) + [row])
      ensures r.Err? ==> Contents() == Db(bs, rs, old(ledger))
    {
      var problem := CreateTransaction(row);
      match problem
      case Some(e) =>
        balances, reservations := bs, rs;
        r := Err(e);
      case None =>
        r := Ok(Confirmation(updated, row));
    }

    // ---------------------------------------------------------------- transactions

    method ReceiveAtomic(key: Key, quantity: real, unit: string, k: Option<string>)
      returns (r: Result<Confirmation, Error>)
      modifies this
      ensures nextId == old(nextId) + 1
      ensures Concluded(old(Contents()), ExecuteReceive(old(Contents()), Receive(key, quantity, unit, k), old(nextId)),
                        strict, Contents(), r)
    {
      var bs, rs := balances, reservations;
      var id := DrawId();
      EnsureBalance(key);
      var updated := IncreaseBalance(key, quantity);
      r := Conclude(updated.value, PlainRow(id, key, Receipt, quantity, unit, k), bs, rs);
    }

    method ReserveAtomic(key: Key, quantity: real, unit: string, k: Option<string>)
      returns (r: Result<Confirmation, Error>)
      modifies this
      ensures nextId == old(nextId) + 1
      ensures Concluded(old(Contents()), ExecuteReserve(old(Contents()), Reserve(key, quantity, unit, k), old(nextId)),
                        strict, Contents(), r)
    {
      var bs, rs := balances, reservations;
      var id := DrawId();
      EnsureBalance(key);
      var updated := ReserveBalance(key, quantity);
      if updated == None {
        balances := bs;
        return Err(InsufficientStock);
      }
      reservations := reservations[id := Reservation(key, quantity, 0.0, Reserved)];
      r := Conclude(updated.value,
                    PlainRow(id, key, ReservationMade, quantity, unit, k).(reservationId := Some(id)), bs, rs);
    }

    method IssueAtomic(key: Key, quantity: real, unit: string, reservationId: Option<Id>, kind: RowType,
                       k: Option<string>)
      returns (r: Result<Confirmation, Error>)
      modifies this
      ensures nextId == old(nextId) + 1
      ensures Concluded(old(Contents()),
                        ExecuteIssue(old(Contents()), IssueStock(key, quantity, unit, reservationId, kind, k),
                                     old(nextId)),
                        strict, Contents(), r)
    {
      var bs, rs := balances, reservations;
      var id := DrawId();
      EnsureBalance(key);
      var updated: Option<Balance>;
      if reservationId.Some? {
        var rid := reservationId.value;
        if rid !in reservations || reservations[rid].key.org != key.org || reservations[rid].status != Reserved ||
           reservations[rid].key != key || quantity > reservations[rid].quantity - reservations[rid].consumed {
          balances := bs;
          return Err(InvalidReservation);
        }
        var reservation := reservations[rid];
        updated := ConsumeReserved(key, quantity);
        if updated == None {
          balances := bs;
          return Err(InsufficientStock);
        }
        var consumed := reservation.consumed + quantity;
        reservations := reservations[rid := reservation.(
                                       consumed := consumed,
                                       status := if consumed == reservation.quantity then Consumed else Reserved)];
      } else {
        updated := DecreaseAvailable(key, quantity);
        if updated == None {
          balances := bs;
          return Err(InsufficientStock);
        }
      }
      r := Conclude(updated.value, PlainRow(id, key, kind, quantity, unit, k).(reservationId := reservationId), bs, rs);
    }

    method ReleaseAtomic(org: Id, reservationId: Id) returns (r: Result<Confirmation, Error>)
      modifies this
      ensures nextId == old(nextId) + 1
      ensures Concluded(old(Contents()),
                        ExecuteRelease(old(Contents()), ReleaseReservation(org, reservationId), old(nextId)),
                        strict, Contents(), r)
    {
      var bs, rs := balances, reservations;
      var id := DrawId();
      if reservationId !in reservations || reservations[reservationId].key.org != org ||
         reservations[reservationId].status != Reserved {
        return Err(InvalidReservation);
      }
      var reservation := reservations[reservationId];
      var remaining := reservation.quantity - reservation.consumed;
      EnsureBalance(reservation.key);
      var updated := ReleaseBalance(reservation.key, remaining);
      if updated == None {
        balances := bs;
        return Err(InconsistentReservationBalance);
      }
      reservations := reservations[reservationId := reservation.(status := Released)];
      r := Conclude(updated.value,
                    PlainRow(id, reservation.key, Release, remaining, "", None).(reservationId := Some(reservationId)),
                    bs, rs);
    }

    method AdjustAtomic(key: Key, quantity: real, unit: string, k: Option<string>)
      returns (r: Result<Confirmation, Error>)
      modifies this
      ensures nextId == old(nextId) + 1
      ensures Concluded(old(Contents()), ExecuteAdjust(old(Contents()), Adjust(key, quantity, unit, k), old(nextId)),
                        strict, Contents(), r)
    {
      var bs, rs := balances, reservations;
      var id := DrawId();
      EnsureBalance(key);
      var updated: Option<Balance>;
      if quantity > 0.0 {
        updated := IncreaseBalance(key, quantity);
      } else {
        updated := DecreaseAvailable(key, -quantity);
      }
      if updated == None {
        balances := bs;
        return Err(InsufficientStock);
      }
      r := Conclude(updated.value, PlainRow(id, key, Adjustment, quantity, unit, k), bs, rs);
    }

    method ConsumeSourceAtomic(key: Key, sourceId: Id, quantity: real, unit: string, k: Option<string>)
      returns (r: Result<Confirmation, Error>)
      modifies this
      ensures nextId == old(nextId) + 1
      ensures Concluded(old(Contents()),
                        ExecuteConsumeSource(old(Contents()), ConsumeSource(key, sourceId, quantity, unit, k),
                                     old(nextId)),
                        strict, Contents(), r)
    {
      var bs, rs := balances, reservations;
      var id := DrawId();
      var source := FindRow(ledger, sourceId, key.org);
      if source.None? || source.value.kind != Issue || source.value.key != key {
        return Err(SourceTransactionNotFound);
      }
      var consumed := Sum(ConsumedFrom(key.org, sourceId));
      if consumed + quantity > source.value.quantity {
        return Err(ConsumptionExceedsSource);
      }
      EnsureBalance(key);
      var updated := DecreaseAvailable(key, quantity);
      if updated == None {
        balances := bs;
        return Err(InsufficientStock);
      }
      r := Conclude(updated.value,
                    PlainRow(id, key, Consumption, quantity, unit, k).(sourceId := Some(sourceId)), bs, rs);
    }

    method ReturnAtomic(org: Id, originalId: Id, quantity: real, k: Option<string>)
      returns (r: Result<Confirmation, Error>)
      modifies this
      ensures nextId == old(nextId) + 1
      ensures Concluded(old(Contents()),
                        ExecuteReturn(old(Contents()), ReturnStock(org, originalId, quantity, k), old(nextId)),
                        strict, Contents(), r)
    {
      var bs, rs := balances, reservations;
      var id := DrawId();
      var original := FindRow(ledger, originalId, org);
      if original.None? || (original.value.kind != Issue && original.value.kind != Consumption) {
        return Err(SourceTransactionNotFound);
      }
      var returned := Sum(ReturnedOf(org, originalId));
      if returned + quantity > original.value.quantity {
        return Err(ReturnExceedsSource);
      }
      var key := original.value.key;
      EnsureBalance(key);
      var updated := IncreaseBalance(key, quantity);
      r := Conclude(updated.value,
                    PlainRow(id, key, Return, quantity, original.value.unit, k).(relatedId := Some(originalId)), bs,
                        rs);
    }

    method TransferAtomic(key: Key, destination: Id, quantity: real, unit: string, k: Option<string>)
      returns (r: Result<Confirmation, Error>)
      requires quantity > 0.0 && destination != key.location
      modifies this
      ensures nextId == old(nextId) + 1
      ensures Concluded(old(Contents()),
                        ExecuteTransfer(old(Contents()), TransferStock(key, destination, quantity, unit, k),
                                     old(nextId)),
                        strict, Contents(), r)
    {
      var bs, rs := balances, reservations;
      var id := DrawId();
      var there := key.(location := destination);
      var source := DecreaseAvailable(key, quantity);
      if source == None {
        return Err(InsufficientStock);
      }
      EnsureBalance(there);
      var arrived := IncreaseBalance(there, quantity);
      r := Conclude(source.value,
                    PlainRow(id, key, Transfer, quantity, unit, k).(destination := Some(destination)), bs, rs);
    }
  }
}
