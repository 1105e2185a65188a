// The stock service: an idempotency look-up before each transaction and a recovery after a
// duplicate key. Retried requests take effect once and are answered from what already committed.
module InventoryService {
  import opened Wrappers
  import opened Inventory
  import opened InventoryInvariants
  import opened InventoryRuns
  import opened InventoryStore
  import opened InventoryEffects

  datatype Problem = NotFound | Conflict | BusinessRule | Rethrown(error: Error)

  datatype Reply =
    | BalanceReply(balance: Balance)
    | ReservationReply(reservation: Reservation)
    | TransactionReply(row: Row)
    | Failed(problem: Problem)

  /** The look-up by idempotency key, which is limited to the caller's organization. */
  function FindByKey(ledger: seq<Row>, k: Option<string>, org: Id): Option<Row>
  {
    if ledger == [] || k.None? then None
    else if ledger[0].idempotencyKey == k && ledger[0].key.org == org then Some(ledger[0])
    else FindByKey(ledger[1..], k, org)
  }

  function BalanceReplyAt(db: Db, key: Key): Option<Reply>
  {
    if key in db.balances then Some(BalanceReply(db.balances[key])) else None
  }

  /** The answer a repeated request is given, when the stored documents support one. */
  function Replayed(db: Db, req: Request): Option<Reply>
  {
    var existing := FindByKey(db.ledger, KeyOf(req), Org(req));
    if existing.None? then None
    else
      match req
      case Receive(_, _, _, _) | Adjust(_, _, _, _) | IssueStock(_, _, _, _, _, _) | ConsumeSource(_, _, _, _, _) =>
        BalanceReplyAt(db, req.key)
      case Reserve(key, _, _, _) =>
        if existing.value.reservationId.None? then None
        else
          var r := FindReservation(db, existing.value.reservationId.value, key.org);
          if r.None? then None else Some(ReservationReply(r.value))
      case TransferStock(_, _, _, _, _) => Some(TransactionReply(existing.value))
      case ReturnStock(_, _, _, _) => BalanceReplyAt(db, existing.value.key)
      case ReleaseReservation(_, _) => None
  }

  /** The mapping of repository errors to the caller's errors; others are thrown on unchanged. */
  function Mapped(req: Request, e: Error): Problem
  {
    match req
    case Receive(_, _, _, _) | TransferStock(_, _, _, _, _) => Rethrown(e)
    case Reserve(_, _, _, _) | Adjust(_, _, _, _) => if e == InsufficientStock then Conflict else Rethrown(e)
    case IssueStock(_, _, _, _, _, _) =>
      if e == InsufficientStock || e == InvalidReservation then Conflict else Rethrown(e)
    case ReleaseReservation(_, _) =>
      if e == InvalidReservation then NotFound
      else if e == InconsistentReservationBalance then Conflict else Rethrown(e)
    case ConsumeSource(_, _, _, _, _) =>
      if e == SourceTransactionNotFound then NotFound
      else if e == ConsumptionExceedsSource || e == InsufficientStock then Conflict else Rethrown(e)
    case ReturnStock(_, _, _, _) =>
      if e == SourceTransactionNotFound then NotFound
      else if e == ReturnExceedsSource then Conflict else Rethrown(e)
  }

  /** After a duplicate key the answer is looked up again; receipts and adjustments look only at the
      balance, without asking whose key it was. */
  function Recovered(db: Db, req: Request, e: Error): Reply
  {
    var again :=
      if e != DuplicateKey || KeyOf(req).None? then None
      else if req.Receive? || req.Adjust? then BalanceReplyAt(db, req.key)
      else Replayed(db, req);
    if again.Some? then again.value else Failed(Mapped(req, e))
  }

  /** The answer after a commit: the row's own balance, reservation or transaction. */
  function Fresh(db: Db, req: Request, c: Confirmation): Reply
  {
    match req
    case Reserve(_, _, _, _) =>
      if c.row.reservationId.Some? && c.row.reservationId.value in db.reservations
      then ReservationReply(db.reservations[c.row.reservationId.value]) else Failed(NotFound)
    case TransferStock(_, _, _, _, _) => TransactionReply(c.row)
    case _ => BalanceReply(c.balance)
  }

  /** What one service call does to the documents. */
  function Serve(db: Db, req: Request, id: Id, strict: bool): Db
  {
    if Replayed(db, req).Some? then db
    else match Apply(db, req, id, strict)
         case Ok(after) => after
         case Err(_) => db
  }

  /** What the caller of one service call is told. */
  function Answer(db: Db, req: Request, id: Id, strict: bool): Reply
  {
    if Replayed(db, req).Some? then Replayed(db, req).value
    else
      match Apply(db, req, id, strict)
      case Err(e) => Recovered(db, req, e)
      case Ok(after) =>
        assert Body(db, req, id).Ok?;
        var c := Body(db, req, id).value;
        Fresh(after, req, Confirmation(c.own.doc, c.row))
  }

  // ------------------------------------------------------------------ the service methods

  class Service {
    const repository: Repository

    constructor (repository: Repository)
      ensures this.repository == repository
    {
      this.repository := repository;
    }

    /** The transaction of a request. */
    method Transact(req: Request) returns (r: Result<Confirmation, Error>)
      requires WellFormed(req) && repository.Valid()
      modifies repository
      ensures repository.Valid()
      ensures match r
              case Ok(c) => Apply(old(repository.Contents()), req, old(repository.nextId), repository.strict)
                            == Ok(repository.Contents())
              case Err(e) => Apply(old(repository.Contents()), req, old(repository.nextId), repository.strict)
                             == Err(e) && repository.Contents() == old(repository.Contents())
      ensures r.Ok? ==> Body(old(repository.Contents()), req, old(repository.nextId)).Ok? &&
                        var c := Body(old(repository.Contents()), req, old(repository.nextId)).value;
                        r.value == Confirmation(c.own.doc, c.row)
    {
      ghost var before, id := repository.Contents(), repository.nextId;
      ghost var body := Body(before, req, id);
      match req {
        case Receive(key, q, unit, k) => r := repository.ReceiveAtomic(key, q, unit, k);
        case Reserve(key, q, unit, k) => r := repository.ReserveAtomic(key, q, unit, k);
        case IssueStock(key, q, unit, rid, kind, k) => r := repository.IssueAtomic(key, q, unit, rid, kind, k);
        case ReleaseReservation(org, rid) => r := repository.ReleaseAtomic(org, rid);
        case Adjust(key, q, unit, k) => r := repository.AdjustAtomic(key, q, unit, k);
        case ConsumeSource(key, source, q, unit, k) => r := repository.ConsumeSourceAtomic(key, source, q, unit, k);
        case ReturnStock(org, original, q, k) => r := repository.ReturnAtomic(org, original, q, k);
        case TransferStock(key, to, q, unit, k) => r := repository.TransferAtomic(key, to, q, unit, k);
      }
      ConcludedIsApplied(before, req, id, repository.strict, repository.Contents(), r, body);
      ConcludedKeeps(before, req, id, repository.strict, repository.Contents(), r, body);
    }

    /** Look-up, transaction, recovery: the body shared by the service's stock operations. */
    method Call(req: Request) returns (reply: Reply)
      requires WellFormed(req) && repository.Valid()
      modifies repository
      ensures repository.Valid()
      ensures repository.Contents() == Serve(old(repository.Contents()), req, old(repository.nextId), repository.strict)
      ensures reply == Answer(old(repository.Contents()), req, old(repository.nextId), repository.strict)
    {
      var db := Db(repository.balances, repository.reservations, repository.ledger);
      var known := Replayed(db, req);
      if known.Some? {
        return known.value;
      }
      var r := Transact(req);
      var now := Db(repository.balances, repository.reservations, repository.ledger);
      match r
      case Ok(c) => reply := Fresh(now, req, c);
      case Err(e) => reply := Recovered(now, req, e);
    }

    /** Issues and consumptions: a consumption must name a reservation or an issue, and one that names
        an issue draws on that issue. */
    method Issue(key: Key, quantity: real, unit: string, reservationId: Option<Id>, sourceId: Option<Id>,
                 consuming: bool, k: Option<string>)
      returns (reply: Reply)
      requires quantity > 0.0 && unit != "" && repository.Valid()
      modifies repository
      ensures repository.Valid()
      ensures var db := old(repository.Contents());
              if consuming && reservationId.None? && sourceId.None? then
                && repository.Contents() == db
                && var known := Replayed(db, IssueStock(key, quantity, unit, None, Consumption, k));
                   reply == if known.Some? then known.value else Failed(BusinessRule)
              else
                var kind := if consuming then Consumption else RowType.Issue;
                var req := if consuming && sourceId.Some? then ConsumeSource(key, sourceId.value, quantity, unit, k)
                           else IssueStock(key, quantity, unit, reservationId, kind, k);
                && repository.Contents() == Serve(db, req, old(repository.nextId), repository.strict)
                && reply == Answer(db, req, old(repository.nextId), repository.strict)
    {
      if consuming && reservationId.None? && sourceId.None? {
        var db := Db(repository.balances, repository.reservations, repository.ledger);
        var known := Replayed(db, IssueStock(key, quantity, unit, None, Consumption, k));
        return if known.Some? then known.value else Failed(BusinessRule);
      }
      if consuming && sourceId.Some? {
        reply := Call(ConsumeSource(key, sourceId.value, quantity, unit, k));
      } else {
        var kind := if consuming then Consumption else RowType.Issue;
        reply := Call(IssueStock(key, quantity, unit, reservationId, kind, k));
      }
    }
  }

  // ------------------------------------------------------------------ retries

  lemma {:induction false} FindByKeySound(ledger: seq<Row>, k: Option<string>, org: Id)
    ensures var r := FindByKey(ledger, k, org);
            r.Some? ==> r.value.idempotencyKey == k && r.value.key.org == org &&
                        exists i :: 0 <= i < |ledger| && ledger[i] == r.value
  {
    if ledger != [] && k.Some? && !(ledger[0].idempotencyKey == k && ledger[0].key.org == org) {
      FindByKeySound(ledger[1..], k, org);
      if FindByKey(ledger, k, org).Some? {
        var i :| 0 <= i < |ledger| - 1 && ledger[1..][i] == FindByKey(ledger, k, org).value;
        assert ledger[i + 1] == FindByKey(ledger, k, org).value;
      }
    }
  }

  lemma {:induction false} FindByKeyComplete(ledger: seq<Row>, i: nat)
    requires i < |ledger| && DistinctKeys(ledger) && ledger[i].idempotencyKey.Some?
    ensures FindByKey(ledger, ledger[i].idempotencyKey, ledger[i].key.org) == Some(ledger[i])
  {
    if i > 0 {
      assert ledger[0].idempotencyKey != ledger[i].idempotencyKey;
      FindByKeyComplete(ledger[1..], i - 1);
    }
  }

  /** Stored documents are never removed, ledger rows never changed, and a reservation never moves
      to another balance. */
  ghost predicate Extends(a: Db, b: Db)
  {
    && a.ledger <= b.ledger
    && a.balances.Keys <= b.balances.Keys
    && (forall id :: id in a.reservations ==> id in b.reservations && b.reservations[id].key == a.reservations[id].key)
  }

  lemma CommitExtends(db: Db, c: Change, id: Id)
    requires Told(db, c, id) && Unused(db, id)
    ensures Extends(db, Commit(db, c))
    ensures c.row.key in Commit(db, c).balances
  {
  }

  lemma {:induction false} RunExtends(calls: seq<Call>, later: seq<Call>, strict: bool)
    requires Admissible(calls + later)
    ensures Extends(After(calls, strict), After(calls + later, strict))
  {
    if later == [] {
      assert calls + later == calls;
    } else {
      var init, last := later[..|later| - 1], later[|later| - 1];
      var sofar := calls + init;
      assert calls + later == sofar + [last];
      forall i | 0 <= i < |sofar|
        ensures sofar[i] == (calls + later)[i]
      {
      }
      RunExtends(calls, init, strict);
      RunInv(sofar, strict);
      var before := After(sofar, strict);
      AfterOneMore(sofar, last, strict);
      FreshCall(sofar, last, before);
      var r := Apply(before, last.req, last.id, strict);
      if r.Ok? {
        var c := CommittedChange(before, last.req, last.id, strict, r.value);
        CommitExtends(before, c, last.id);
      }
    }
  }

  /** The documents a retry is answered from. */
  lemma StoredAnswer(db: Db, req: Request, id: Id, row: Row, i: nat)
    requires DistinctKeys(db.ledger) && i < |db.ledger| && db.ledger[i] == row
    requires KeyOf(req).Some? && row.idempotencyKey == KeyOf(req) && row.key.org == Org(req)
    requires row.key in db.balances && (!req.ReturnStock? ==> row.key == req.key)
    requires req.Reserve? ==>
               row.reservationId == Some(id) && id in db.reservations && db.reservations[id].key == row.key
    ensures Replayed(db, req) == Some(
              if req.Reserve? then ReservationReply(db.reservations[id])
              else if req.TransferStock? then TransactionReply(row)
              else BalanceReply(db.balances[row.key]))
  {
    FindByKeyComplete(db.ledger, i);
  }

  /** The row of a committed request, and the documents beside it. */
  ghost predicate Stored(db: Db, req: Request, id: Id, row: Row, i: nat)
  {
    && i < |db.ledger| && db.ledger[i] == row && row.id == id
    && row.idempotencyKey == KeyOf(req) && row.key.org == Org(req)
    && row.key in db.balances && (!req.ReturnStock? && !req.ReleaseReservation? ==> row.key == req.key)
    && (req.Reserve? ==> row.reservationId == Some(id) && id in db.reservations && db.reservations[id].key == row.key)
  }

  lemma CommittedNow(before: Db, req: Request, id: Id, strict: bool, after: Db) returns (row: Row, i: nat)
    requires WellFormed(req) && ReservationsSound(before) && Unused(before, id) &&
             Apply(before, req, id, strict) == Ok(after)
    ensures Stored(after, req, id, row, i)
  {
    var c := CommittedChange(before, req, id, strict, after);
    BodyCarriesKey(before, req, id, Body(before, req, id));
    CommitExtends(before, c, id);
    row, i := c.row, |before.ledger|;
    assert after.ledger[i] == row;
  }

  lemma StoredStays(a: Db, b: Db, req: Request, id: Id, row: Row, i: nat)
    requires Stored(a, req, id, row, i) && Extends(a, b)
    ensures Stored(b, req, id, row, i)
  {
  }

  /** They are still there after any later calls. */
  lemma CommittedStays(calls: seq<Call>, req: Request, id: Id, later: seq<Call>, strict: bool)
    returns (row: Row, i: nat)
    requires Admissible(calls + [Call(req, id)] + later)
    requires Apply(After(calls, strict), req, id, strict).Ok?
    ensures var db := After(calls + [Call(req, id)] + later, strict);
            DistinctKeys(db.ledger) && Stored(db, req, id, row, i)
  {
    var all := calls + [Call(req, id)];
    assert forall i :: 0 <= i < |all| ==> (all + later)[i] == all[i];
    assert Admissible(all);
    assert forall i :: 0 <= i < |calls| ==> all[i] == calls[i];
    RunInv(calls, strict);
    AfterOneMore(calls, Call(req, id), strict);
    FreshCall(calls, Call(req, id), After(calls, strict));
    row, i := CommittedNow(After(calls, strict), req, id, strict, After(all, strict));
    RunExtends(all, later, strict);
    RunInv(all + later, strict);
    StoredStays(After(all, strict), After(all + later, strict), req, id, row, i);
  }

  /** Once a request with an idempotency key has committed, the same request changes nothing any
      more, at any later time: it is answered from the stored reservation, transaction or balance,
      both by the look-up and by the recovery after a duplicate key. */
  lemma RetryIsReplayed(calls: seq<Call>, req: Request, id: Id, later: seq<Call>, other: Id, strict: bool)
    requires Admissible(calls + [Call(req, id)] + later) && KeyOf(req).Some?
    requires Apply(After(calls, strict), req, id, strict).Ok?
    ensures var db := After(calls + [Call(req, id)] + later, strict);
            && Serve(db, req, other, strict) == db
            && Replayed(db, req).Some? && !Replayed(db, req).value.Failed?
            && Recovered(db, req, DuplicateKey) == Replayed(db, req).value
            && (req.Reserve? ==>
                  id in db.reservations && Replayed(db, req).value == ReservationReply(db.reservations[id]))
            && (req.TransferStock? ==>
                  Replayed(db, req).value.TransactionReply? && Replayed(db, req).value.row.id == id)
            && (!req.Reserve? && !req.TransferStock? && !req.ReturnStock? ==>
                  req.key in db.balances && Replayed(db, req).value == BalanceReply(db.balances[req.key]))
  {
    var row, i := CommittedStays(calls, req, id, later, strict);
    StoredAnswer(After(calls + [Call(req, id)] + later, strict), req, id, row, i);
  }

  // ------------------------------------------------------------------ keys taken by other requests

  /** A call takes effect exactly when its key is free and its transaction body and row are accepted. */
  lemma TakesEffectIff(db: Db, req: Request, id: Id, strict: bool)
    ensures Serve(db, req, id, strict) != db <==>
            && !KeyTaken(db.ledger, KeyOf(req))
            && Execute(db, req, id, strict).Ok?
  {
    FindByKeySound(db.ledger, KeyOf(req), Org(req));
    var r := Execute(db, req, id, strict);
    if r.Ok? {
      BodyCarriesKey(db, req, id, Body(db, req, id));
      assert Commit(db, r.value).ledger != db.ledger;
    }
  }

  /** For receipts and positive adjustments that is: exactly when the key is free. */
  lemma ReceiptTakesEffectIff(db: Db, req: Request, id: Id, strict: bool)
    requires WellFormed(req) && (req.Receive? || (req.Adjust? && req.quantity > 0.0))
    ensures Serve(db, req, id, strict) != db <==> !KeyTaken(db.ledger, KeyOf(req))
  {
    TakesEffectIff(db, req, id, strict);
    if req.Receive? {
      assert Body(db, req, id) == ExecuteReceive(db, req, id);
    } else {
      assert Body(db, req, id) == ExecuteAdjust(db, req, id);
    }
  }

  /** An own row carries the request's key, and the document that a repetition is answered from exists. */
  predicate AnswerStored(db: Db, req: Request)
  {
    var row := FindByKey(db.ledger, KeyOf(req), Org(req));
    && row.Some?
    && match req
       case Receive(_, _, _, _) | Adjust(_, _, _, _) | IssueStock(_, _, _, _, _, _) | ConsumeSource(_, _, _, _, _) =>
         req.key in db.balances
       case Reserve(key, _, _, _) =>
         row.value.reservationId.Some? && FindReservation(db, row.value.reservationId.value, key.org).Some?
       case TransferStock(_, _, _, _, _) => true
       case ReturnStock(_, _, _, _) => row.value.key in db.balances
       case ReleaseReservation(_, _) => false
  }

  /** An adjustment that takes stock finds enough of it. */
  predicate Covered(db: Db, req: Request)
  {
    req.Adjust? ==>
      var b := BalanceAt(db, req.key);
      req.quantity > 0.0 || b.quantity - b.reserved >= -req.quantity
  }

  /** A request that does nothing and is still answered as if it had succeeded: exactly when its
      organization used the key before, for whatever request, and the answer's document exists; or when
      it is a receipt or a covered adjustment on an existing balance and any organization used the key. */
  lemma SwallowedIff(db: Db, req: Request, id: Id, strict: bool)
    requires WellFormed(req)
    ensures Serve(db, req, id, strict) == db && !Answer(db, req, id, strict).Failed? <==>
            || AnswerStored(db, req)
            || ((req.Receive? || req.Adjust?) && KeyTaken(db.ledger, KeyOf(req)) && req.key in db.balances &&
                Covered(db, req))
  {
    TakesEffectIff(db, req, id, strict);
    AnswerStoredIsReplayed(db, req);
    if Replayed(db, req).None? {
      var r := Apply(db, req, id, strict);
      if r.Ok? {
        BodyCarriesKey(db, req, id, Body(db, req, id));
      } else {
        UnstoredAnswer(db, req, id, strict, r.error);
      }
    }
  }

  lemma AnswerStoredIsReplayed(db: Db, req: Request)
    ensures AnswerStored(db, req) <==> Replayed(db, req).Some?
    ensures Replayed(db, req).Some? ==> !Replayed(db, req).value.Failed?
  {
  }

  /** A failed transaction is answered as a success only by the balance look-up after a duplicate key. */
  lemma UnstoredAnswer(db: Db, req: Request, id: Id, strict: bool, e: Error)
    requires WellFormed(req) && Replayed(db, req).None? && Apply(db, req, id, strict) == Err(e)
    ensures !Recovered(db, req, e).Failed? <==>
            (req.Receive? || req.Adjust?) && KeyTaken(db.ledger, KeyOf(req)) && req.key in db.balances &&
                Covered(db, req)
  {
    if req.Receive? {
      assert Body(db, req, id) == ExecuteReceive(db, req, id);
    } else if req.Adjust? {
      assert Body(db, req, id) == ExecuteAdjust(db, req, id);
    } else {
      assert Recovered(db, req, e).Failed?;
    }
  }

  const OURS := Key(1, 1, 1)
  const THEIRS := Key(2, 2, 2)
  const OPENING := Call(Receive(OURS, 5.0, "piece", None), 0)
  const FOREIGN := Call(Receive(THEIRS, 7.0, "box", Some("k")), 1)

  /** A concrete run: organization 2 receives under the key "k", and then organization 1's receipt of 3
      under its own "k" is answered with its balance of 5, which it leaves at 5. */
  lemma ReceiptIsSwallowed()
    ensures Admissible([OPENING, FOREIGN])
    ensures var db := After([OPENING, FOREIGN], true); var req := Receive(OURS, 3.0, "piece", Some("k"));
            && WellFormed(req) && OURS in db.balances && db.balances[OURS].quantity == 5.0
            && Serve(db, req, 2, true) == db && Answer(db, req, 2, true) == BalanceReply(db.balances[OURS])
  {
    AfterOneMore([], OPENING, true);
    AfterOneMore([OPENING], FOREIGN, true);
    assert [] + [OPENING] == [OPENING] && [OPENING] + [FOREIGN] == [OPENING, FOREIGN];
    var first, db := After([OPENING], true), After([OPENING, FOREIGN], true);
    var req := Receive(OURS, 3.0, "piece", Some("k"));
    assert Body(EMPTY, OPENING.req, 0) == ExecuteReceive(EMPTY, OPENING.req, 0);
    assert Body(first, FOREIGN.req, 1) == ExecuteReceive(first, FOREIGN.req, 1);
    assert first.ledger == [first.ledger[0]] && db.ledger == [first.ledger[0], db.ledger[1]];
    assert db.ledger[1].idempotencyKey == Some("k");
    assert Body(db, req, 2) == ExecuteReceive(db, req, 2);
    FindByKeySound(db.ledger, Some("k"), 1);
  }

  // ------------------------------------------------------------------ answers

  /** The row a call leaves. */
  function LastRow(db: Db): Row
    requires db.ledger != []
  {
    db.ledger[|db.ledger| - 1]
  }

  /** A call that takes effect is answered with what it has stored. */
  lemma EffectAnswer(db: Db, req: Request, id: Id, strict: bool)
    requires WellFormed(req) && ReservationsSound(db) && Unused(db, id) && Serve(db, req, id, strict) != db
    ensures var after, answer := Serve(db, req, id, strict), Answer(db, req, id, strict);
            && |after.ledger| == |db.ledger| + 1 && LastRow(after).id == id
            && (req.Reserve? ==> id in after.reservations && answer == ReservationReply(after.reservations[id]))
            && (req.TransferStock? ==> answer == TransactionReply(LastRow(after)))
            && (!req.Reserve? && !req.TransferStock? ==>
                  LastRow(after).key in after.balances && answer == BalanceReply(after.balances[LastRow(after).key]))
  {
    var after := Serve(db, req, id, strict);
    TakesEffectIff(db, req, id, strict);
    assert Apply(db, req, id, strict) == Ok(after);
    var c := CommittedChange(db, req, id, strict, after);
    BodyCarriesKey(db, req, id, Body(db, req, id));
    assert LastRow(after) == c.row;
    if req.Reserve? { ReserveEffect(db, req.key, req.quantity, req.unit, req.idempotencyKey, id, strict); }
    if req.TransferStock? { assert Answer(db, req, id, strict) == TransactionReply(c.row); }
    if !req.Reserve? && !req.TransferStock? { OwnBalanceStands(db, req, id, strict, c); }
  }

  lemma OwnBalanceStands(db: Db, req: Request, id: Id, strict: bool, c: Change)
    requires Body(db, req, id) == Ok(c) && Told(db, c, id) && !req.TransferStock?
    ensures Commit(db, c).balances == db.balances[c.row.key := c.own.doc]
  {
  }

  /** A repetition under the same key is told the same at once. */
  lemma RepetitionAnswer(db: Db, req: Request, id: Id, strict: bool, other: Id)
    requires Inv(db) && WellFormed(req) && Unused(db, id) && KeyOf(req).Some? && Serve(db, req, id, strict) != db
    ensures var after := Serve(db, req, id, strict);
            && Serve(after, req, other, strict) == after
            && Answer(after, req, other, strict) == Answer(db, req, id, strict)
  {
    var after := Serve(db, req, id, strict);
    TakesEffectIff(db, req, id, strict);
    EffectAnswer(db, req, id, strict);
    Step(db, req, id, strict, after);
    var row, i := CommittedNow(db, req, id, strict, after);
    StoredAnswer(after, req, id, row, i);
    assert i == |db.ledger| by {
      assert forall j :: 0 <= j < |db.ledger| ==> after.ledger[j].id != id;
    }
  }

  /** What a refused call is told, by the error its transaction ended with. */
  lemma FailureAnswer(db: Db, req: Request, id: Id, strict: bool)
    requires WellFormed(req) && ReservationsSound(db) && Unused(db, id) && Answer(db, req, id, strict).Failed?
    ensures Apply(db, req, id, strict).Err?
    ensures var e := Apply(db, req, id, strict).error;
            Answer(db, req, id, strict) ==
            Failed(match e
                   case InsufficientStock => if req.TransferStock? then Rethrown(e) else Conflict
                   case InvalidReservation => if req.ReleaseReservation? then NotFound else Conflict
                   case SourceTransactionNotFound => NotFound
                   case InconsistentReservationBalance => Conflict
                   case ConsumptionExceedsSource => Conflict
                   case ReturnExceedsSource => Conflict
                   case ValidationFailed => Rethrown(e)
                   case DuplicateKey => Rethrown(e))
  {
    AnswerStoredIsReplayed(db, req);
    if Apply(db, req, id, strict).Ok? {
      TakesEffectIff(db, req, id, strict);
      EffectAnswer(db, req, id, strict);
    } else {
      PossibleErrors(db, req, id, strict, Apply(db, req, id, strict).error);
    }
  }

  /** Which request can end with which error. */
  lemma PossibleErrors(db: Db, req: Request, id: Id, strict: bool, e: Error)
    requires WellFormed(req) && Apply(db, req, id, strict) == Err(e)
    ensures e == InvalidReservation ==> req.IssueStock? || req.ReleaseReservation?
    ensures e == InconsistentReservationBalance ==> req.ReleaseReservation?
    ensures e == SourceTransactionNotFound ==> req.ConsumeSource? || req.ReturnStock?
    ensures e == ConsumptionExceedsSource ==> req.ConsumeSource?
    ensures e == ReturnExceedsSource ==> req.ReturnStock?
    ensures e == InsufficientStock ==> !req.Receive? && !req.ReleaseReservation? && !req.ReturnStock?
  {
    match req
    case Receive(key, q, unit, k) => ReceiptEffect(db, key, q, unit, k, id, strict);
    case Reserve(key, q, unit, k) => ReserveEffect(db, key, q, unit, k, id, strict);
    case IssueStock(key, q, unit, rid, kind, k) =>
      if rid.None? {
        IssueEffect(db, key, q, unit, kind, k, id, strict);
      } else {
        ReservedIssueEffect(db, key, q, unit, rid.value, kind, k, id, strict);
      }
    case ReleaseReservation(org, rid) => ReleaseEffect(db, org, rid, id, strict);
    case Adjust(key, q, unit, k) => AdjustEffect(db, key, q, unit, k, id, strict);
    case ConsumeSource(key, source, q, unit, k) => ConsumeEffect(db, key, source, q, unit, k, id, strict);
    case ReturnStock(org, original, q, k) => ReturnEffect(db, org, original, q, k, id, strict);
    case TransferStock(key, there, q, unit, k) => TransferEffect(db, key, there, q, unit, k, id, strict);
  }

  /** Any number of requests carrying one key, after any run: together they change nothing, or do
      exactly what one of them does alone. */
  lemma {:induction false} SameKeyCommitsOnce(calls: seq<Call>, retries: seq<Call>, k: Option<string>, strict: bool)
    requires Admissible(calls + retries) && k.Some?
    requires forall i :: 0 <= i < |retries| ==> KeyOf(retries[i].req) == k
    ensures var before, after := After(calls, strict), After(calls + retries, strict);
            || after == before
            || (KeyTaken(after.ledger, k) &&
                exists i :: 0 <= i < |retries| && Apply(before, retries[i].req, retries[i].id, strict) == Ok(after))
  {
    if retries == [] {
      assert calls + retries == calls;
    } else {
      var init, last := retries[..|retries| - 1], retries[|retries| - 1];
      var sofar := calls + init;
      assert calls + retries == sofar + [last];
      assert forall i :: 0 <= i < |sofar| ==> sofar[i] == (calls + retries)[i];
      SameKeyCommitsOnce(calls, init, k, strict);
      AfterOneMore(sofar, last, strict);
      var before, mid := After(calls, strict), After(sofar, strict);
      var r := Apply(mid, last.req, last.id, strict);
      if r.Ok? {
        BodyCarriesKey(mid, last.req, last.id, Body(mid, last.req, last.id));
        var row := Body(mid, last.req, last.id).value.row;
        assert r.value.ledger[|mid.ledger|] == row;
        assert mid == before;
        assert retries[|retries| - 1] == last;
      } else if mid != before {
        var i :| 0 <= i < |init| && Apply(before, init[i].req, init[i].id, strict) == Ok(mid);
        assert retries[i] == init[i];
      }
    }
  }
}
