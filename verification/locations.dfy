// The location hierarchy: parent links that always form a forest inside one facility, and the
// parent walk that guards it.
module Locations {
  import opened Wrappers

  type Id = nat

  datatype Error = NotFound | NameConflict | InvalidParent | OwnParent | Cycle

  datatype Location = Location(org: Id, facility: Id, parent: Option<Id>)

  /** An update's parent field: absent, emptied, or a location. */
  datatype Parent = Absent | Emptied | Under(id: Id)

  function Up(ls: map<Id, Location>, x: Id): Option<Id>
  {
    if x in ls then ls[x].parent else None
  }

  /** The n-th ancestor. */
  function Walk(ls: map<Id, Location>, x: Id, n: nat): Option<Id>
  {
    if n == 0 then Some(x)
    else
      var below := Walk(ls, x, n - 1);
      if below.None? then None else Up(ls, below.value)
  }

  ghost predicate ProperAncestor(ls: map<Id, Location>, a: Id, x: Id)
  {
    exists n :: n >= 1 && Walk(ls, x, n) == Some(a)
  }

  /** The parent walk from `x` ends. */
  ghost predicate Rooted(ls: map<Id, Location>, x: Id)
  {
    exists n :: Walk(ls, x, n) == None
  }

  ghost predicate Forest(ls: map<Id, Location>)
  {
    forall x :: x in ls ==> Rooted(ls, x)
  }

  /** Parents exist and lie in the same facility and organization. */
  predicate Local(ls: map<Id, Location>)
  {
    forall x :: x in ls && ls[x].parent.Some? ==>
      && ls[x].parent.value in ls
      && ls[ls[x].parent.value].facility == ls[x].facility
      && ls[ls[x].parent.value].org == ls[x].org
  }

  function SetParent(ls: map<Id, Location>, x: Id, p: Option<Id>): map<Id, Location>
    requires x in ls
  {
    ls[x := ls[x].(parent := p)]
  }

  // ------------------------------------------------------------------ walks

  lemma {:induction false} WalkOn(ls: map<Id, Location>, x: Id, m: nat, n: nat)
    ensures Walk(ls, x, m).Some? ==> Walk(ls, x, m + n) == Walk(ls, Walk(ls, x, m).value, n)
    ensures Walk(ls, x, m).None? ==> Walk(ls, x, m + n) == None
  {
    if n > 0 { WalkOn(ls, x, m, n - 1); }
  }

  /** A walk that has not ended yet is shorter than one that has. */
  lemma Ends(ls: map<Id, Location>, x: Id, h: nat, k: nat)
    requires Walk(ls, x, h) == None
    ensures Walk(ls, x, k).Some? ==> k < h
  {
    if h <= k { WalkOn(ls, x, h, k - h); }
  }

  /** A location that is its own ancestor never reaches a root. */
  lemma {:induction false} CycleNeverEnds(ls: map<Id, Location>, x: Id, n: nat, k: nat)
    requires n >= 1 && Walk(ls, x, n) == Some(x)
    ensures Walk(ls, x, k).Some?
    decreases k
  {
    if k >= n {
      CycleNeverEnds(ls, x, n, k - n);
      WalkOn(ls, x, n, k - n);
    } else {
      WalkOn(ls, x, k, n - k);
    }
  }

  /** In a forest no location is its own proper ancestor. */
  lemma ForestHasNoCycle(ls: map<Id, Location>, x: Id)
    requires Forest(ls)
    ensures !ProperAncestor(ls, x, x)
  {
    if ProperAncestor(ls, x, x) {
      var n :| n >= 1 && Walk(ls, x, n) == Some(x);
      CycleNeverEnds(ls, x, n, 1);
      assert Walk(ls, x, 0) == Some(x);
      var k :| Walk(ls, x, k) == None;
      CycleNeverEnds(ls, x, n, k);
    }
  }

  // ------------------------------------------------------------------ the guard

  /** Walks that avoid `x` do not notice its new parent. */
  lemma {:induction false} AvoidingWalk(ls: map<Id, Location>, x: Id, p: Option<Id>, y: Id, n: nat)
    requires x in ls && forall m :: 0 <= m < n ==> Walk(ls, y, m) != Some(x)
    ensures Walk(SetParent(ls, x, p), y, n) == Walk(ls, y, n)
  {
    if n > 0 {
      AvoidingWalk(ls, x, p, y, n - 1);
      assert Walk(ls, y, n - 1) != Some(x);
    }
  }

  lemma {:induction false} FirstMeeting(ls: map<Id, Location>, y: Id, x: Id, n: nat) returns (k: nat)
    requires Walk(ls, y, n) == Some(x)
    ensures k <= n && Walk(ls, y, k) == Some(x) && forall m :: 0 <= m < k ==> Walk(ls, y, m) != Some(x)
  {
    k := 0;
    while Walk(ls, y, k) != Some(x)
      invariant k <= n && forall m :: 0 <= m < k ==> Walk(ls, y, m) != Some(x)
      decreases n - k
    {
      if k == n { assert false; }
      k := k + 1;
    }
  }

  lemma StaysRooted(ls: map<Id, Location>, x: Id, p: Option<Id>, y: Id)
    requires Forest(ls) && x in ls && y in ls &&
             (p.Some? ==> p.value in ls && p.value != x && !ProperAncestor(ls, x, p.value))
    ensures Rooted(SetParent(ls, x, p), y)
  {
    var now := SetParent(ls, x, p);
    var h :| Walk(ls, y, h) == None;
    if exists n :: Walk(ls, y, n) == Some(x) {
      var n :| Walk(ls, y, n) == Some(x);
      var k := FirstMeeting(ls, y, x, n);
      AvoidingWalk(ls, x, p, y, k);
      if p.None? {
        assert Walk(now, y, k + 1) == None;
      } else {
        assert Walk(now, y, k + 1) == p;
        assert Rooted(ls, p.value);
        var m :| Walk(ls, p.value, m) == None;
        forall i: nat
          ensures Walk(ls, p.value, i) != Some(x)
        {
          if i == 0 { assert Walk(ls, p.value, 0) == p; }
        }
        AvoidingWalk(ls, x, p, p.value, m);
        WalkOn(now, y, k + 1, m);
        assert Walk(now, y, k + 1 + m) == None;
      }
    } else {
      AvoidingWalk(ls, x, p, y, h);
      assert Walk(now, y, h) == None;
    }
  }

  /** The guard of an update is exact: giving a location a new parent keeps the forest if and only if
      the location is neither the parent itself nor one of its ancestors. */
  lemma ReparentKeepsForestIff(ls: map<Id, Location>, x: Id, p: Id)
    requires Forest(ls) && x in ls && p in ls
    ensures Forest(SetParent(ls, x, Some(p))) <==> p != x && !ProperAncestor(ls, x, p)
  {
    var now := SetParent(ls, x, Some(p));
    if p != x && !ProperAncestor(ls, x, p) {
      forall y | y in now
        ensures Rooted(now, y)
      {
        StaysRooted(ls, x, Some(p), y);
      }
    } else {
      var n :| Walk(ls, p, n) == Some(x) by {
        if p == x { assert Walk(ls, p, 0) == Some(x); }
      }
      var k := FirstMeeting(ls, p, x, n);
      AvoidingWalk(ls, x, Some(p), p, k);
      assert Walk(now, x, 0) == Some(x);
      assert Walk(now, x, 1) == Some(p);
      WalkOn(now, x, 1, k);
      assert Walk(now, x, 1 + k) == Some(x);
      assert ProperAncestor(now, x, x);
      if Forest(now) { ForestHasNoCycle(now, x); }
    }
  }

  lemma ClearKeepsForest(ls: map<Id, Location>, x: Id)
    requires Forest(ls) && x in ls
    ensures Forest(SetParent(ls, x, None))
  {
    forall y | y in ls
      ensures Rooted(SetParent(ls, x, None), y)
    {
      StaysRooted(ls, x, None, y);
    }
  }

  lemma {:induction false} AddedWalk(ls: map<Id, Location>, x: Id, l: Location, y: Id, n: nat)
    requires Local(ls) && x !in ls && y in ls
    ensures Walk(ls[x := l], y, n) == Walk(ls, y, n)
    ensures Walk(ls, y, n).Some? ==> Walk(ls, y, n).value in ls
  {
    if n > 0 { AddedWalk(ls, x, l, y, n - 1); }
  }

  lemma AddKeepsForest(ls: map<Id, Location>, x: Id, l: Location)
    requires Forest(ls) && Local(ls) && x !in ls && (l.parent.Some? ==> l.parent.value in ls)
    ensures Forest(ls[x := l])
  {
    var now := ls[x := l];
    forall y | y in ls
      ensures Rooted(now, y)
    {
      var n :| Walk(ls, y, n) == None;
      AddedWalk(ls, x, l, y, n);
    }
    assert Walk(now, x, 0) == Some(x);
    assert Walk(now, x, 1) == l.parent;
    if l.parent.Some? {
      var n :| Walk(now, l.parent.value, n) == None;
      WalkOn(now, x, 1, n);
    }
  }

  predicate NeverMeets(ls: map<Id, Location>, y: Id, x: Id, n: nat)
  {
    forall m :: 0 <= m < n ==> Walk(ls, y, m) != Some(x)
  }

  lemma NeverAboveItself(ls: map<Id, Location>, x: Id, p: Id, n: nat)
    requires p != x && !ProperAncestor(ls, x, p)
    ensures NeverMeets(ls, p, x, n)
  {
    assert Walk(ls, p, 0) == Some(p);
  }

  /** With `x` moved under `p`, `q` lies below `y` if it does so by way of `x` and `p`. */
  lemma BelowByWayOf(ls: map<Id, Location>, x: Id, p: Id, y: Id, q: Id, k: nat, j: nat)
    requires x in ls && p != x && !ProperAncestor(ls, x, p)
    requires Walk(ls, q, k) == Some(x) && NeverMeets(ls, q, x, k) && Walk(ls, p, j) == Some(y)
    ensures ProperAncestor(SetParent(ls, x, Some(p)), y, q)
  {
    var one := SetParent(ls, x, Some(p));
    AvoidingWalk(ls, x, Some(p), q, k);
    assert Walk(one, q, k + 1) == Some(p);
    NeverAboveItself(ls, x, p, j);
    AvoidingWalk(ls, x, Some(p), p, j);
    WalkOn(one, q, k + 1, j);
    assert Walk(one, q, k + 1 + j) == Some(y);
  }

  /** And only then, if it did not before. */
  lemma BelowOnlyByWayOf(ls: map<Id, Location>, x: Id, p: Id, y: Id, q: Id)
    requires x in ls && p != x && !ProperAncestor(ls, x, p) && !ProperAncestor(ls, y, q)
    requires ProperAncestor(SetParent(ls, x, Some(p)), y, q)
    ensures (q == x || ProperAncestor(ls, x, q)) && (p == y || ProperAncestor(ls, y, p))
  {
    var one := SetParent(ls, x, Some(p));
    var n :| n >= 1 && Walk(one, q, n) == Some(y);
    if NeverMeets(ls, q, x, n) {
      AvoidingWalk(ls, x, Some(p), q, n);
      assert false;
    }
    var m :| 0 <= m < n && Walk(ls, q, m) == Some(x);
    var k := FirstMeeting(ls, q, x, m);
    AvoidingWalk(ls, x, Some(p), q, k);
    assert Walk(one, q, k + 1) == Some(p);
    WalkOn(one, q, k + 1, n - (k + 1));
    var j := n - (k + 1);
    NeverAboveItself(ls, x, p, j);
    AvoidingWalk(ls, x, Some(p), p, j);
    assert Walk(ls, p, j) == Some(y);
    assert Walk(ls, q, 0) == Some(q) && Walk(ls, p, 0) == Some(p);
  }

  /** The check and the write are separate steps. Two updates whose checks both passed form a cycle exactly
      if each new parent is the other moved location or lies below it. */
  lemma InterleavedUpdates(ls: map<Id, Location>, x: Id, p: Id, y: Id, q: Id)
    requires Forest(ls) && x in ls && p in ls && y in ls && q in ls
    requires p != x && !ProperAncestor(ls, x, p) && q != y && !ProperAncestor(ls, y, q)
    ensures !Forest(SetParent(SetParent(ls, x, Some(p)), y, Some(q))) <==>
            (q == x || ProperAncestor(ls, x, q)) && (p == y || ProperAncestor(ls, y, p))
  {
    ReparentKeepsForestIff(ls, x, p);
    ReparentKeepsForestIff(SetParent(ls, x, Some(p)), y, q);
    if (q == x || ProperAncestor(ls, x, q)) && (p == y || ProperAncestor(ls, y, p)) {
      assert Walk(ls, q, 0) == Some(q) && Walk(ls, p, 0) == Some(p);
      var n :| Walk(ls, q, n) == Some(x);
      var k := FirstMeeting(ls, q, x, n);
      var j :| Walk(ls, p, j) == Some(y);
      BelowByWayOf(ls, x, p, y, q, k, j);
    } else if ProperAncestor(SetParent(ls, x, Some(p)), y, q) {
      BelowOnlyByWayOf(ls, x, p, y, q);
    }
  }

  /** So two roots moved under each other at the same time form a cycle. */
  lemma SwappedRootsFormCycle(ls: map<Id, Location>, x: Id, y: Id)
    requires Forest(ls) && x in ls && y in ls && x != y && ls[x].parent.None? && ls[y].parent.None?
    ensures !ProperAncestor(ls, x, y) && !ProperAncestor(ls, y, x)
    ensures !Forest(SetParent(SetParent(ls, x, Some(y)), y, Some(x)))
  {
    RootHasNoAncestor(ls, x, y);
    RootHasNoAncestor(ls, y, x);
    InterleavedUpdates(ls, x, y, y, x);
  }

  lemma RootHasNoAncestor(ls: map<Id, Location>, x: Id, a: Id)
    requires x in ls && ls[x].parent.None?
    ensures !ProperAncestor(ls, a, x)
  {
    assert Walk(ls, x, 0) == Some(x);
    forall n | n >= 1
      ensures Walk(ls, x, n) == None
    {
      assert Walk(ls, x, 1) == None;
      WalkOn(ls, x, 1, n - 1);
    }
  }

  // ------------------------------------------------------------------ the service

  class LocationService {
    var locations: map<Id, Location>
    var nextId: Id
    /** The organization of each facility. */
    const facilities: map<Id, Id>

    ghost predicate Valid()
      reads this
    {
      && Forest(locations) && Local(locations)
      && (forall x :: x in locations ==> x < nextId)
      && (forall x :: x in locations ==>
            locations[x].facility in facilities && facilities[locations[x].facility] == locations[x].org)
    }

    constructor (facilities: map<Id, Id>)
      ensures Valid() && locations == map[] && this.facilities == facilities
    {
      locations, nextId := map[], 0;
      this.facilities := facilities;
    }

    /** Ends on every reachable state, with true exactly when `id` is a proper ancestor. */
    method HasDescendant(id: Id, candidate: Id) returns (found: bool)
      requires Valid()
      ensures found <==> ProperAncestor(locations, id, candidate)
    {
      ghost var h: nat := 0;
      if candidate in locations {
        h :| Walk(locations, candidate, h) == None;
      } else {
        h := 1;
        assert Walk(locations, candidate, 0) == Some(candidate);
      }
      var current := candidate;
      ghost var k: nat := 0;
      assert Walk(locations, candidate, 0) == Some(candidate);
      while current in locations && locations[current].parent.Some?
        invariant Walk(locations, candidate, k) == Some(current)
        invariant k <= h
        invariant forall n :: 1 <= n <= k ==> Walk(locations, candidate, n) != Some(id)
        decreases h - k
      {
        var parent := locations[current].parent.value;
        Ends(locations, candidate, h, k);
        assert Walk(locations, candidate, k + 1) == Some(parent);
        if parent == id { return true; }
        Ends(locations, candidate, h, k + 1);
        current, k := parent, k + 1;
      }
      assert Walk(locations, candidate, k + 1) == None;
      forall n | n >= k + 1
        ensures Walk(locations, candidate, n) == None
      {
        WalkOn(locations, candidate, k + 1, n - (k + 1));
      }
      return false;
    }

    /** The parent named by a request, if there is one, lies in the same facility. */
    predicate ParentFits(org: Id, facility: Id, parent: Id)
      reads this
    {
      parent in locations && locations[parent].org == org && locations[parent].facility == facility
    }

    method CreateLocation(org: Id, facility: Id, parent: Option<Id>, nameTaken: bool) returns (r: Result<Id, Error>)
      requires Valid()
      modifies this
      ensures Valid()
      ensures r == if facility !in facilities || facilities[facility] != org then Err(NotFound)
                   else if parent.Some? &&
                           !(parent.value in old(locations) && old(locations)[parent.value].org == org &&
                             old(locations)[parent.value].facility == facility) then Err(InvalidParent)
                   else if nameTaken then Err(NameConflict)
                   else Ok(old(nextId))
      ensures locations == if r.Ok? then old(locations)[r.value := Location(org, facility, parent)] else old(locations)
    {
      if facility !in facilities || facilities[facility] != org { return Err(NotFound); }
      if parent.Some? && !ParentFits(org, facility, parent.value) { return Err(InvalidParent); }
      if nameTaken { return Err(NameConflict); }
      AddKeepsForest(locations, nextId, Location(org, facility, parent));
      r := Ok(nextId);
      locations := locations[nextId := Location(org, facility, parent)];
      nextId := nextId + 1;
    }

    /** `cleared`: whether an emptied parent reaches the stored document. */
    method UpdateLocation(org: Id, id: Id, parent: Parent, nameTaken: bool, cleared: bool)
      returns (r: Result<(), Error>)
      requires Valid()
      modifies this`locations
      ensures Valid()
      ensures r == if id !in old(locations) || old(locations)[id].org != org then Err(NotFound)
                   else if nameTaken then Err(NameConflict)
                   else if parent.Under? && parent.id == id then Err(OwnParent)
                   else if parent.Under? && !(parent.id in old(locations) && old(locations)[parent.id].org == org &&
                                              old(locations)[parent.id].facility == old(locations)[id].facility)
                   then Err(InvalidParent)
                   else if parent.Under? && ProperAncestor(old(locations), id, parent.id) then Err(Cycle)
                   else Ok(())
      ensures locations == if r.Err? || parent.Absent? || (parent.Emptied? && !cleared) then old(locations)
                           else old(locations)[id := old(locations)[id].(parent := if parent.Under? then Some(parent.id)
                                                                                       else None)]
    {
      if id !in locations || locations[id].org != org { return Err(NotFound); }
      if nameTaken { return Err(NameConflict); }
      match parent {
        case Absent =>
        case Emptied =>
          if cleared {
            ClearKeepsForest(locations, id);
            locations := SetParent(locations, id, None);
          }
        case Under(p) =>
          if p == id { return Err(OwnParent); }
          if !ParentFits(org, locations[id].facility, p) { return Err(InvalidParent); }
          var cycle := HasDescendant(id, p);
          if cycle { return Err(Cycle); }
          ReparentKeepsForestIff(locations, id, p);
          locations := SetParent(locations, id, Some(p));
      }
      return Ok(());
    }
  }
}
