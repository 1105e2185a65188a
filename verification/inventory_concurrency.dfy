// Interleaved inventory transactions under snapshot isolation with first-committer-wins: each reads
// the database as it was when it began, and may commit only if no document it writes was written
// since, and if its idempotency key is still free. Main result: every such interleaving commits
// exactly what some one-after-the-other run commits.
module InventoryConcurrency {
  import opened Wrappers
  import opened Inventory
  import opened InventoryInvariants
  import opened InventoryRuns

  /** How often each document was written. */
  datatype Versions = Versions(balances: map<Key, nat>, reservations: map<Id, nat>)

  function BalanceVersion(v: Versions, k: Key): nat { if k in v.balances then v.balances[k] else 0 }

  function ReservationVersion(v: Versions, id: Id): nat { if id in v.reservations then v.reservations[id] else 0 }

  /** A running transaction: what it saw, and how many commits that view includes. */
  datatype Tx = Tx(snapshot: Db, versions: Versions, seen: nat)

  /** `begun[id]` is the request of transaction `id`; `commits` records the commit order. */
  datatype System = System(db: Db, versions: Versions, active: map<Id, Tx>, begun: seq<Request>, commits: seq<Call>)

  const START: System := System(EMPTY, Versions(map[], map[]), map[], [], [])

  datatype Event = Begin(req: Request) | Finish(id: Id) | Crash(id: Id)

  function BumpBalance(vs: map<Key, nat>, k: Key): map<Key, nat>
  {
    vs[k := (if k in vs then vs[k] else 0) + 1]
  }

  function Bump(v: Versions, c: Change): Versions
  {
    var own := BumpBalance(v.balances, c.own.key);
    Versions(
      if c.arrival.Some? then BumpBalance(own, c.arrival.value.key) else own,
      if c.reservation.Some?
      then v.reservations[c.reservation.value.id := ReservationVersion(v, c.reservation.value.id) + 1]
      else v.reservations)
  }

  /** Some document to be written has changed since the snapshot. */
  predicate Conflicts(now: Versions, seen: Versions, c: Change)
  {
    || BalanceVersion(now, c.own.key) != BalanceVersion(seen, c.own.key)
    || (c.arrival.Some? && BalanceVersion(now, c.arrival.value.key) != BalanceVersion(seen, c.arrival.value.key))
    || (c.reservation.Some? &&
        ReservationVersion(now, c.reservation.value.id) != ReservationVersion(seen, c.reservation.value.id))
  }

  function Drop(s: System, id: Id): System { s.(active := s.active - {id}) }

  /** The transaction runs on its snapshot; then it commits or is rolled back. */
  function FinishStep(s: System, id: Id, strict: bool): System
    requires id in s.active && id < |s.begun|
  {
    var tx := s.active[id];
    match Execute(tx.snapshot, s.begun[id], id, strict)
    case Err(_) => Drop(s, id)
    case Ok(c) =>
      if Conflicts(s.versions, tx.versions, c) || KeyTaken(s.db.ledger, c.row.idempotencyKey) then Drop(s, id)
      else System(Commit(s.db, c), Bump(s.versions, c), s.active - {id}, s.begun,
                  s.commits + [Call(s.begun[id], id)])
  }

  /** A retry after a roll-back is a new `Begin` of the same request. */
  function Next(s: System, e: Event, strict: bool): System
  {
    match e
    case Begin(req) =>
      s.(active := s.active[|s.begun| := Tx(s.db, s.versions, |s.commits|)], begun := s.begun + [req])
    case Finish(id) => if id in s.active && id < |s.begun| then FinishStep(s, id, strict) else s
    case Crash(id) => Drop(s, id)
  }

  function Run(events: seq<Event>, strict: bool): System
  {
    if events == [] then START
    else Next(Run(events[..|events| - 1], strict), events[|events| - 1], strict)
  }

  predicate WellFormedEvents(events: seq<Event>)
  {
    forall i :: 0 <= i < |events| && events[i].Begin? ==> WellFormed(events[i].req)
  }

  // ------------------------------------------------------------------ the invariant

  /** Documents whose version has not moved since the snapshot are those of the snapshot, and no
      ledger row was added to such a balance. */
  ghost predicate StillCurrent(tx: Tx, s: System)
  {
    && tx.snapshot.ledger <= s.db.ledger
    && (forall k ::
          && BalanceVersion(tx.versions, k) <= BalanceVersion(s.versions, k)
          && (BalanceVersion(tx.versions, k) == BalanceVersion(s.versions, k) ==>
                && BalanceAt(tx.snapshot, k) == BalanceAt(s.db, k)
                && NoRowsSince(s.db.ledger, |tx.snapshot.ledger|, k)))
    && (forall id ::
          && ReservationVersion(tx.versions, id) <= ReservationVersion(s.versions, id)
          && (ReservationVersion(tx.versions, id) == ReservationVersion(s.versions, id) ==>
                SameReservation(tx.snapshot, s.db, id)))
  }

  ghost predicate NoRowsSince(ledger: seq<Row>, from: nat, k: Key)
  {
    forall i :: from <= i < |ledger| ==> ledger[i].key != k
  }

  ghost predicate SameReservation(a: Db, b: Db, id: Id)
  {
    && (id in a.reservations <==> id in b.reservations)
    && (id in a.reservations ==> a.reservations[id] == b.reservations[id])
  }

  ghost predicate CommitsBegun(s: System)
  {
    && (forall i :: 0 <= i < |s.begun| ==> WellFormed(s.begun[i]))
    && (forall i :: 0 <= i < |s.commits| ==>
          s.commits[i].id < |s.begun| && s.commits[i].req == s.begun[s.commits[i].id] && s.commits[i].id !in s.active)
    && Admissible(s.commits)
  }

  /** The i-th ledger row was written by the i-th commit. */
  ghost predicate RowsOfCommits(ledger: seq<Row>, commits: seq<Call>)
  {
    && |ledger| == |commits|
    && forall i :: 0 <= i < |ledger| ==>
         ledger[i].id == commits[i].id && ledger[i].idempotencyKey == KeyOf(commits[i].req)
  }

  ghost predicate SysInv(s: System, strict: bool)
  {
    && CommitsBegun(s)
    && s.db == After(s.commits, strict)
    && RowsOfCommits(s.db.ledger, s.commits)
    && (forall id :: id in s.active ==> id < |s.begun|)
    && (forall id :: id in s.active ==> SnapshotInv(s, id, strict))
  }

  ghost predicate SnapshotInv(s: System, id: Id, strict: bool)
  {
    && id in s.active
    && var tx := s.active[id];
       && tx.seen <= |s.commits|
       && tx.snapshot == After(s.commits[..tx.seen], strict)
       && StillCurrent(tx, s)
  }

  // ------------------------------------------------------------------ reading through a longer ledger

  lemma {:induction false} FindRowPrefix(short: seq<Row>, long: seq<Row>, id: Id, org: Id)
    requires short <= long && FindRow(short, id, org).Some?
    ensures FindRow(long, id, org) == FindRow(short, id, org)
  {
    if !(short[0].id == id && short[0].key.org == org) {
      FindRowPrefix(short[1..], long[1..], id, org);
    }
  }

  lemma {:induction false} TotalPrefix(t: Tally, short: seq<Row>, long: seq<Row>)
    requires short <= long
    requires forall i :: |short| <= i < |long| ==> Weight(t, long[i]) == 0.0
    ensures Total(t, long) == Total(t, short)
  {
    if |short| < |long| {
      TotalPrefix(t, short, long[..|long| - 1]);
    } else {
      assert short == long;
    }
  }

  /** Rows naming a transaction sit on its balance, so an untouched balance hides no new ones. */
  lemma NamedTotalsUnchanged(short: seq<Row>, long: seq<Row>, name: Id, source: Row)
    requires short <= long && Linked(long) && DistinctIds(long)
    requires FindRow(short, name, source.key.org) == Some(source)
    requires NoRowsSince(long, |short|, source.key)
    ensures Total(ConsumedFrom(source.key.org, name), long) == Total(ConsumedFrom(source.key.org, name), short)
    ensures Total(ReturnedOf(source.key.org, name), long) == Total(ReturnedOf(source.key.org, name), short)
  {
    FindRowSound(short, name, source.key.org);
    var at :| 0 <= at < |short| && short[at] == source;
    assert long[at] == source;
    forall i | |short| <= i < |long|
      ensures Weight(ConsumedFrom(source.key.org, name), long[i]) == 0.0
      ensures Weight(ReturnedOf(source.key.org, name), long[i]) == 0.0
    {
      assert Links(long, i);
    }
    TotalPrefix(ConsumedFrom(source.key.org, name), short, long);
    TotalPrefix(ReturnedOf(source.key.org, name), short, long);
  }

  // ------------------------------------------------------------------ the same change on the current state

  /** The current state agrees with the snapshot on everything the change writes. */
  ghost predicate Agree(a: Db, b: Db, c: Change)
  {
    && a.ledger <= b.ledger && Linked(b.ledger) && DistinctIds(b.ledger)
    && BalanceAt(a, c.own.key) == BalanceAt(b, c.own.key)
    && NoRowsSince(b.ledger, |a.ledger|, c.own.key)
    && (c.arrival.Some? ==> BalanceAt(a, c.arrival.value.key) == BalanceAt(b, c.arrival.value.key))
    && (c.reservation.Some? ==> SameReservation(a, b, c.reservation.value.id))
  }

  lemma ConsumeAgain(a: Db, b: Db, req: Request, id: Id, r: Result<Change, Error>)
    requires req.ConsumeSource? && r == ExecuteConsumeSource(a, req, id) && r.Ok? && Agree(a, b, r.value)
    ensures ExecuteConsumeSource(b, req, id) == r
  {
    var source := FindRow(a.ledger, req.sourceId, req.key.org).value;
    FindRowPrefix(a.ledger, b.ledger, req.sourceId, req.key.org);
    NamedTotalsUnchanged(a.ledger, b.ledger, req.sourceId, source);
  }

  lemma ReturnAgain(a: Db, b: Db, req: Request, id: Id, r: Result<Change, Error>)
    requires req.ReturnStock? && r == ExecuteReturn(a, req, id) && r.Ok? && Agree(a, b, r.value)
    ensures ExecuteReturn(b, req, id) == r
  {
    var original := FindRow(a.ledger, req.originalId, req.org).value;
    FindRowSound(a.ledger, req.originalId, req.org);
    FindRowPrefix(a.ledger, b.ledger, req.originalId, req.org);
    NamedTotalsUnchanged(a.ledger, b.ledger, req.originalId, original);
  }

  lemma ReservationAgain(a: Db, b: Db, req: Request, id: Id, r: Result<Change, Error>)
    requires req.IssueStock? || req.ReleaseReservation?
    requires r == Body(a, req, id) && r.Ok? && Agree(a, b, r.value)
    ensures Body(b, req, id) == r
  {
    if req.IssueStock? {
      assert r == ExecuteIssue(a, req, id);
    } else {
      assert r == ExecuteRelease(a, req, id);
    }
  }

  lemma BalancesAgain(a: Db, b: Db, req: Request, id: Id, r: Result<Change, Error>)
    requires req.Receive? || req.Reserve? || req.Adjust? || req.TransferStock?
    requires r == Body(a, req, id) && r.Ok? && Agree(a, b, r.value)
    ensures Body(b, req, id) == r
  {
    if req.TransferStock? {
      assert r == ExecuteTransfer(a, req, id);
    } else if req.Reserve? {
      assert r == ExecuteReserve(a, req, id);
    } else if req.Adjust? {
      assert r == ExecuteAdjust(a, req, id);
    } else {
      assert r == ExecuteReceive(a, req, id);
    }
  }

  /** A transaction that finds its written documents unchanged would make the same change now: what
      it read but did not write cannot have changed either. */
  lemma SameChangeNow(a: Db, b: Db, req: Request, id: Id, r: Result<Change, Error>)
    requires r == Body(a, req, id) && r.Ok? && Agree(a, b, r.value)
    ensures Body(b, req, id) == r
  {
    if req.ConsumeSource? {
      assert r == ExecuteConsumeSource(a, req, id);
      ConsumeAgain(a, b, req, id, r);
    } else if req.ReturnStock? {
      assert r == ExecuteReturn(a, req, id);
      ReturnAgain(a, b, req, id, r);
    } else if req.IssueStock? || req.ReleaseReservation? {
      ReservationAgain(a, b, req, id, r);
    } else {
      BalancesAgain(a, b, req, id, r);
    }
  }

  // ------------------------------------------------------------------ steps keep the invariant

  /** A concurrent commit is an atomic execution on the current state. */
  lemma CommitIsAtomic(s: System, id: Id, strict: bool, c: Change)
    requires SysInv(s, strict) && id in s.active
    requires Execute(s.active[id].snapshot, s.begun[id], id, strict) == Ok(c)
    requires !Conflicts(s.versions, s.active[id].versions, c)
    requires !KeyTaken(s.db.ledger, c.row.idempotencyKey)
    ensures Apply(s.db, s.begun[id], id, strict) == Ok(Commit(s.db, c))
  {
    var tx := s.active[id];
    assert SnapshotInv(s, id, strict);
    RunInv(s.commits, strict);
    var r := Body(tx.snapshot, s.begun[id], id);
    SameChangeNow(tx.snapshot, s.db, s.begun[id], id, r);
  }

  lemma BumpedVersions(v: Versions, c: Change)
    ensures forall k :: BalanceVersion(Bump(v, c), k) >= BalanceVersion(v, k)
    ensures forall id :: ReservationVersion(Bump(v, c), id) >= ReservationVersion(v, id)
    ensures BalanceVersion(Bump(v, c), c.own.key) > BalanceVersion(v, c.own.key)
    ensures c.arrival.Some? ==>
              BalanceVersion(Bump(v, c), c.arrival.value.key) > BalanceVersion(v, c.arrival.value.key)
    ensures c.reservation.Some? ==>
              ReservationVersion(Bump(v, c), c.reservation.value.id) > ReservationVersion(v, c.reservation.value.id)
  {
  }

  /** A commit outdates every other snapshot exactly at the documents it wrote. */
  lemma OthersStillCurrent(s: System, after: System, tx: Tx, c: Change)
    requires StillCurrent(tx, s) && c.row.key == c.own.key
    requires after.db == Commit(s.db, c) && after.versions == Bump(s.versions, c)
    ensures StillCurrent(tx, after)
  {
    BumpedVersions(s.versions, c);
    forall k
      ensures BalanceVersion(tx.versions, k) <= BalanceVersion(after.versions, k)
      ensures BalanceVersion(tx.versions, k) == BalanceVersion(after.versions, k) ==>
                BalanceAt(tx.snapshot, k) == BalanceAt(after.db, k) &&
                NoRowsSince(after.db.ledger, |tx.snapshot.ledger|, k)
    {
      assert BalanceVersion(tx.versions, k) <= BalanceVersion(s.versions, k) <= BalanceVersion(after.versions, k);
    }
    forall id
      ensures ReservationVersion(tx.versions, id) <= ReservationVersion(after.versions, id)
      ensures ReservationVersion(tx.versions, id) == ReservationVersion(after.versions, id) ==>
                SameReservation(tx.snapshot, after.db, id)
    {
      assert ReservationVersion(tx.versions, id) <= ReservationVersion(s.versions, id);
      assert ReservationVersion(s.versions, id) <= ReservationVersion(after.versions, id);
    }
  }

  lemma SnapshotWritesOwnRow(s: System, id: Id, strict: bool, c: Change)
    requires SysInv(s, strict) && id in s.active
    requires Execute(s.active[id].snapshot, s.begun[id], id, strict) == Ok(c)
    ensures c.own.key == c.row.key
  {
    var tx := s.active[id];
    assert SnapshotInv(s, id, strict);
    RunInv(s.commits[..tx.seen], strict);
    BodyTold(tx.snapshot, s.begun[id], id, Body(tx.snapshot, s.begun[id], id));
  }

  lemma DropKeeps(s: System, id: Id, strict: bool)
    requires SysInv(s, strict)
    ensures SysInv(Drop(s, id), strict)
  {
    forall other | other in Drop(s, id).active
      ensures SnapshotInv(Drop(s, id), other, strict)
    {
      assert SnapshotInv(s, other, strict);
    }
  }

  lemma CommitBegun(s: System, id: Id, after: System)
    requires CommitsBegun(s) && id in s.active && id < |s.begun|
    requires after.begun == s.begun && after.commits == s.commits + [Call(s.begun[id], id)]
    requires after.active == s.active - {id}
    ensures CommitsBegun(after)
  {
  }

  lemma CommitOthers(s: System, id: Id, strict: bool, c: Change, after: System, other: Id)
    requires SnapshotInv(s, other, strict) && other != id && id < |s.begun| && c.row.key == c.own.key
    requires after == System(Commit(s.db, c), Bump(s.versions, c), s.active - {id}, s.begun,
                             s.commits + [Call(s.begun[id], id)])
    ensures SnapshotInv(after, other, strict)
  {
    var tx := s.active[other];
    OthersStillCurrent(s, after, tx, c);
    assert after.commits[..tx.seen] == s.commits[..tx.seen];
  }

  lemma CommitKeeps(s: System, id: Id, strict: bool, c: Change, after: System)
    requires SysInv(s, strict) && id in s.active && id < |s.begun|
    requires Execute(s.active[id].snapshot, s.begun[id], id, strict) == Ok(c)
    requires !Conflicts(s.versions, s.active[id].versions, c) && !KeyTaken(s.db.ledger, c.row.idempotencyKey)
    requires after == System(Commit(s.db, c), Bump(s.versions, c), s.active - {id}, s.begun,
                             s.commits + [Call(s.begun[id], id)])
    ensures SysInv(after, strict)
  {
    var tx, req := s.active[id], s.begun[id];
    CommitIsAtomic(s, id, strict, c);
    AfterOneMore(s.commits, Call(req, id), strict);
    CommitBegun(s, id, after);
    BodyCarriesKey(tx.snapshot, req, id, Body(tx.snapshot, req, id));
    SnapshotWritesOwnRow(s, id, strict, c);
    forall other | other in after.active
      ensures SnapshotInv(after, other, strict)
    {
      CommitOthers(s, id, strict, c, after, other);
    }
  }

  lemma FinishKeeps(s: System, id: Id, strict: bool, after: System)
    requires SysInv(s, strict) && id in s.active && after == FinishStep(s, id, strict)
    ensures SysInv(after, strict)
  {
    var tx := s.active[id];
    var r := Execute(tx.snapshot, s.begun[id], id, strict);
    if r.Err? || Conflicts(s.versions, tx.versions, r.value) || KeyTaken(s.db.ledger, r.value.row.idempotencyKey) {
      DropKeeps(s, id, strict);
    } else {
      CommitKeeps(s, id, strict, r.value, after);
    }
  }

  lemma BeginKeeps(s: System, req: Request, strict: bool, after: System)
    requires SysInv(s, strict) && WellFormed(req) && after == Next(s, Begin(req), strict)
    ensures SysInv(after, strict)
  {
    assert s.commits[..|s.commits|] == s.commits;
    forall id | id in after.active
      ensures SnapshotInv(after, id, strict)
    {
      assert id in s.active ==> SnapshotInv(s, id, strict);
    }
  }

  lemma NextKeeps(s: System, e: Event, strict: bool)
    requires SysInv(s, strict) && (e.Begin? ==> WellFormed(e.req))
    ensures SysInv(Next(s, e, strict), strict)
  {
    match e
    case Begin(req) => BeginKeeps(s, req, strict, Next(s, e, strict));
    case Finish(id) =>
      if id in s.active {
        FinishKeeps(s, id, strict, Next(s, e, strict));
      }
    case Crash(id) => DropKeeps(s, id, strict);
  }

  // ------------------------------------------------------------------ main results

  /** Every interleaving is serializable: the committed database is the one that executing the
      committed requests one after the other, in commit order, produces. */
  lemma {:induction false} Serializable(events: seq<Event>, strict: bool)
    requires WellFormedEvents(events)
    ensures var s := Run(events, strict);
            SysInv(s, strict) && Admissible(s.commits) && s.db == After(s.commits, strict)
  {
    if events == [] {
      assert After([], strict) == EMPTY;
    } else {
      Serializable(events[..|events| - 1], strict);
      NextKeeps(Run(events[..|events| - 1], strict), events[|events| - 1], strict);
    }
  }

  /** So no interleaving over-consumes an issue, over-returns a transaction, breaks
      0 <= reserved <= quantity, or commits one idempotency key twice. */
  lemma InterleavingsAreSafe(events: seq<Event>, strict: bool)
    requires WellFormedEvents(events)
    ensures var db := Run(events, strict).db;
            Capped(db.ledger) && WithinBounds(db) && DistinctKeys(db.ledger) &&
            QuantitiesAgree(db) && ReservedAgrees(db)
  {
    Serializable(events, strict);
    RunInv(Run(events, strict).commits, strict);
  }

  /** Exactly-once: in any interleaving, whatever else runs, at most one commit carries a given
      idempotency key, at most one ledger row does, and the database is what the commits - hence
      that single execution - produce. */
  lemma KeyCommitsOnce(events: seq<Event>, strict: bool, i: nat, j: nat)
    requires WellFormedEvents(events) && i < j < |Run(events, strict).commits|
    ensures var s := Run(events, strict);
            && (KeyOf(s.commits[i].req).Some? ==> KeyOf(s.commits[j].req) != KeyOf(s.commits[i].req))
            && |s.db.ledger| == |s.commits| && s.db.ledger[i].idempotencyKey == KeyOf(s.commits[i].req)
            && s.db == After(s.commits, strict)
  {
    Serializable(events, strict);
    RunInv(Run(events, strict).commits, strict);
  }

  /** No transaction ever sees a balance that does not cover its reservations, even on an outdated
      snapshot. */
  lemma NoInterleavingSeesInconsistency(events: seq<Event>, strict: bool, id: Id)
    requires WellFormedEvents(events) && id in Run(events, strict).active
    ensures var s := Run(events, strict);
            && id < |s.begun|
            && var seen := Execute(s.active[id].snapshot, s.begun[id], id, strict);
               && (s.begun[id].ReleaseReservation? ==> seen != Err(InconsistentReservationBalance))
               && (s.begun[id].IssueStock? && s.begun[id].reservationId.Some? ==> seen != Err(InsufficientStock))
  {
    var s := Run(events, strict);
    Serializable(events, strict);
    assert SnapshotInv(s, id, strict);
    var prefix := s.commits[..s.active[id].seen];
    assert Admissible(prefix);
    InconsistencyNeverSeen(prefix, strict, s.begun[id], id);
  }

  /** A transaction nobody interfered with commits whenever its atomic execution would. */
  lemma UndisturbedCommits(events: seq<Event>, req: Request, strict: bool, after: Db)
    requires WellFormedEvents(events) && WellFormed(req)
    requires var s := Run(events, strict); Apply(s.db, req, |s.begun|, strict) == Ok(after)
    ensures var s := Run(events, strict);
            Run(events + [Begin(req)] + [Finish(|s.begun|)], strict).db == after
  {
    var s := Run(events, strict);
    var id := |s.begun|;
    var begun := events + [Begin(req)];
    assert begun[..|events|] == events;
    assert Run(begun, strict) == Next(s, Begin(req), strict);
    var all := begun + [Finish(id)];
    assert all[..|begun|] == begun;
    assert Run(all, strict) == FinishStep(Next(s, Begin(req), strict), id, strict);
  }
}
