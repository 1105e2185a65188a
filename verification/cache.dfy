// The two-level cache: a bounded in-process map over a key store with expiry. Calls are split where
// the program awaits the store, so that other calls may come in between.
module TwoLevelCache {
  import opened Wrappers

  const MAX_ENTRIES := 1000
  const LOCAL_MS := 5000

  type Key = string
  /** A value in its serialized form. */
  type Value = string

  /** A first-level entry; the sequence of entries is in insertion order. */
  datatype Entry = Entry(key: Key, value: Value, expiresAt: int)

  /** A second-level document; without an expiry it is kept for good. */
  datatype Stored = Stored(value: Value, expiresAt: Option<int>)

  /** A call of `set`, at `at`, with a lifetime in seconds. */
  datatype Write = Write(key: Key, value: Value, at: int, ttl: int)

  /** A value read from the store and still on its way back. */
  datatype Answer = Answer(key: Key, value: Value, readAt: int)

  function Min(a: int, b: int): (r: int)
    ensures r <= a && r <= b && (r == a || r == b)
  {
    if a < b then a else b
  }

  // ------------------------------------------------------------------ the first level

  predicate DistinctKeys(l1: seq<Entry>)
  {
    forall i, j :: 0 <= i < j < |l1| ==> l1[i].key != l1[j].key
  }

  predicate Holds(l1: seq<Entry>, key: Key)
  {
    exists i :: 0 <= i < |l1| && l1[i].key == key
  }

  function Find(l1: seq<Entry>, key: Key): (r: Option<nat>)
    ensures r.Some? ==> r.value < |l1| && l1[r.value].key == key
    ensures r.None? ==> !Holds(l1, key)
  {
    if l1 == [] then None
    else if l1[|l1| - 1].key == key then Some(|l1| - 1)
    else Find(l1[..|l1| - 1], key)
  }

  function Without(l1: seq<Entry>, key: Key): seq<Entry>
  {
    var i := Find(l1, key);
    if i.None? then l1 else l1[..i.value] + l1[i.value + 1..]
  }

  /** A full map makes room by dropping its oldest insertion; a known key keeps its place. */
  function Remembered(l1: seq<Entry>, e: Entry): seq<Entry>
  {
    var i := Find(l1, e.key);
    if i.Some? then l1[i.value := e]
    else (if |l1| >= MAX_ENTRIES then l1[1..] else l1) + [e]
  }

  /** A known key's entry is replaced in its place; otherwise the new one comes last, and a map of a thousand
      loses its oldest. */
  lemma RememberedInOrder(l1: seq<Entry>, e: Entry)
    requires DistinctKeys(l1) && |l1| <= 1000
    ensures var r := Remembered(l1, e);
            && (Holds(l1, e.key) ==>
                  |r| == |l1| && forall i :: 0 <= i < |l1| ==> r[i] == if l1[i].key == e.key then e else l1[i])
            && (!Holds(l1, e.key) ==> r == (if |l1| == 1000 then l1[1..] else l1) + [e])
  {
  }

  /** The map stays within its limit and keeps one entry per key; the new entry is in it, every other
      one is an old one, and only a full map that does not know the key loses one: its oldest. */
  lemma RememberedExact(l1: seq<Entry>, e: Entry)
    requires DistinctKeys(l1) && |l1| <= MAX_ENTRIES
    ensures var r := Remembered(l1, e);
            && DistinctKeys(r) && |r| <= MAX_ENTRIES && e in r
            && (forall x :: x in r ==> x == e || x in l1)
            && (forall i :: 0 <= i < |l1| ==>
                  (l1[i] in r || l1[i].key == e.key || (i == 0 && |l1| == MAX_ENTRIES && !Holds(l1, e.key))))
            && (|l1| == MAX_ENTRIES && !Holds(l1, e.key) ==> !Holds(r, l1[0].key))
  {
    var i := Find(l1, e.key);
    var r := Remembered(l1, e);
    if i.Some? {
      assert r[i.value] == e;
      assert forall k :: 0 <= k < |l1| && k != i.value ==> r[k] == l1[k];
    } else {
      var kept := if |l1| >= MAX_ENTRIES then l1[1..] else l1;
      assert r[|kept|] == e;
      forall k | 0 <= k < |l1| && !(k == 0 && |l1| == MAX_ENTRIES)
        ensures l1[k] in r
      {
        assert r[if |l1| == MAX_ENTRIES then k - 1 else k] == l1[k];
      }
    }
  }

  lemma WithoutExact(l1: seq<Entry>, key: Key)
    requires DistinctKeys(l1)
    ensures var r := Without(l1, key);
            && DistinctKeys(r) && |r| <= |l1| && !Holds(r, key)
            && (forall x :: x in r <==> x in l1 && x.key != key)
  {
    var i := Find(l1, key);
    var r := Without(l1, key);
    if i.Some? {
      forall x
        ensures x in r <==> x in l1 && x.key != key
      {
        if x in l1 && x.key != key {
          var k :| 0 <= k < |l1| && l1[k] == x;
          assert r[if k < i.value then k else k - 1] == x;
        }
      }
    }
  }

  // ------------------------------------------------------------------ lifetimes

  /** What the store keeps of a write that reaches it at `now`: no lifetime means no expiry. */
  function StoredFor(value: Value, ttl: int, now: int): Stored
  {
    Stored(value, if ttl == 0 then None else Some(now + 1000 * ttl))
  }

  predicate Live(s: Stored, now: int)
  {
    s.expiresAt.None? || s.expiresAt.value > now
  }

  /** `now` is before the end of a write's lifetime, give or take `slack`; without a lifetime always. */
  predicate Within(w: Write, now: int, slack: int)
  {
    w.ttl == 0 || now < w.at + 1000 * w.ttl + slack
  }

  /** Some call of `set` wrote this value for this key, and its lifetime has not been over for `slack`
      milliseconds or more. */
  ghost predicate From(writes: set<Write>, key: Key, value: Value, now: int, slack: int)
  {
    exists w :: w in writes && w.key == key && w.value == value && Within(w, now, slack)
  }

  ghost predicate StoredFrom(writes: set<Write>, key: Key, s: Stored, latency: nat)
  {
    exists w :: w in writes && w.key == key && w.value == s.value &&
                (w.ttl == 0 || (s.expiresAt.Some? && s.expiresAt.value <= w.at + 1000 * w.ttl + latency))
  }

  class RedisCache {
    /** The longest that a request to the store, or its answer, is under way. */
    const latency: nat
    var l1: seq<Entry>
    var store: map<Key, Stored>
    ghost var writes: set<Write>
    ghost var underway: multiset<Write>
    ghost var answers: multiset<Answer>

    ghost predicate Valid()
      reads this
    {
      && |l1| <= MAX_ENTRIES && DistinctKeys(l1)
      && (forall e :: e in l1 ==> From(writes, e.key, e.value, e.expiresAt - 1, LOCAL_MS + 2 * latency))
      && (forall k :: k in store ==> StoredFrom(writes, k, store[k], latency))
      && (forall w :: w in underway ==> w in writes)
      && (forall a :: a in answers ==> From(writes, a.key, a.value, a.readAt, latency))
    }

    /** No copy of a value is left: in neither level, and on no way to or from the store. */
    ghost predicate Gone(key: Key, value: Value)
      reads this
    {
      && (forall e :: e in l1 ==> !(e.key == key && e.value == value))
      && !(key in store && store[key].value == value)
      && !OnItsWay(key, value)
    }

    ghost predicate OnItsWay(key: Key, value: Value)
      reads this
    {
      || (exists a :: a in answers && a.key == key && a.value == value)
      || (exists w :: w in underway && w.key == key && w.value == value)
    }

    /** What is gone stays gone. */
    twostate predicate NoneReturns()
      reads this
    {
      forall k, v :: old(Gone(k, v)) ==> Gone(k, v)
    }

    constructor (latency: nat)
      ensures Valid() && l1 == [] && store == map[] && writes == {} && this.latency == latency
    {
      this.latency := latency;
      l1, store := [], map[];
      writes, underway, answers := {}, multiset{}, multiset{};
    }

    method Remember(key: Key, value: Value, expiresAt: int)
      requires Valid() && From(writes, key, value, expiresAt - 1, LOCAL_MS + 2 * latency)
      modifies this`l1
      ensures Valid() && l1 == Remembered(old(l1), Entry(key, value, expiresAt))
    {
      var e := Entry(key, value, expiresAt);
      RememberedExact(l1, e);
      var i := Find(l1, key);
      if i.None? && |l1| >= MAX_ENTRIES {
        l1 := l1[1..];
      }
      l1 := if i.Some? then l1[i.value := e] else l1 + [e];
    }

    method Forget(key: Key)
      requires Valid()
      modifies this`l1
      ensures Valid() && !Holds(l1, key) && NoneReturns()
      ensures forall x :: x in l1 <==> x in old(l1) && x.key != key
    {
      WithoutExact(l1, key);
      l1 := Without(l1, key);
    }

    // ---------------------------------------------------------------- get

    /** The first part of `get`. A hit leaves the entry, and so its end, as it is. Its value is younger
        than its lifetime, five seconds and two delays, unless it was set without a lifetime. */
    method Lookup(key: Key, now: int) returns (hit: Option<Value>)
      requires Valid()
      modifies this`l1
      ensures Valid()
      ensures hit.Some? ==>
                exists w :: w in writes && w.key == key && w.value == hit.value &&
                            (w.ttl == 0 || now - w.at < 1000 * w.ttl + LOCAL_MS + 2 * latency)
      ensures NoneReturns() && (hit.Some? ==> !old(Gone(key, hit.value)))
      ensures hit.Some? ==> l1 == old(l1) && exists e :: e in l1 && e.key == key && e.value == hit.value
      ensures hit.Some? <==> exists e :: e in old(l1) && e.key == key && e.expiresAt > now
      ensures hit.None? ==> forall x :: x in l1 <==> x in old(l1) && x.key != key
    {
      var i := Find(l1, key);
      if i.Some? {
        var e := l1[i.value];
        assert e in l1;
        if e.expiresAt > now {
          assert From(writes, key, e.value, e.expiresAt - 1, LOCAL_MS + 2 * latency);
          return Some(e.value);
        }
        assert forall x :: x in l1 && x.key == key ==> x == e;
        Forget(key);
      }
      hit := None;
    }

    /** The store is asked, at `now` by its clock. */
    method Read(key: Key, now: int) returns (answer: Option<Answer>)
      requires Valid()
      modifies this`answers
      ensures Valid() && NoneReturns()
      ensures answer.Some? <==> key in store && Live(store[key], now)
      ensures answer.Some? ==> answer.value == Answer(key, store[key].value, now) && answer.value in answers
    {
      if key in store && Live(store[key], now) {
        answer := Some(Answer(key, store[key].value, now));
        answers := answers + multiset{answer.value};
      } else {
        answer := None;
      }
    }

    /** The last part of `get`, once the store has answered. */
    method Receive(a: Answer, now: int) returns (value: Value)
      requires Valid() && a in answers && now <= a.readAt + latency
      modifies this`l1, this`answers
      ensures Valid() && NoneReturns() && answers == old(answers) - multiset{a}
      ensures value == a.value
      ensures exists w :: w in writes && w.key == a.key && w.value == value &&
                          (w.ttl == 0 || now - w.at < 1000 * w.ttl + 2 * latency)
      ensures l1 == Remembered(old(l1), Entry(a.key, a.value, now + 5000))
    {
      RememberedExact(l1, Entry(a.key, a.value, now + LOCAL_MS));
      Remember(a.key, a.value, now + LOCAL_MS);
      answers := answers - multiset{a};
      value := a.value;
    }

    /** `get` with nothing in between: the first level, then the store. */
    method Get(key: Key, now: int) returns (answer: Option<Value>)
      requires Valid()
      modifies this`l1, this`answers
      ensures Valid() && NoneReturns() && (answer.Some? ==> !old(Gone(key, answer.value)))
      ensures answer.Some? ==>
                exists w :: w in writes && w.key == key && w.value == answer.value &&
                            (w.ttl == 0 || now - w.at < 1000 * w.ttl + LOCAL_MS + 2 * latency)
      ensures (exists e :: e in old(l1) && e.key == key && e.expiresAt > now) ==>
                l1 == old(l1) && exists e :: e in old(l1) && e.key == key && answer == Some(e.value)
      ensures !(exists e :: e in old(l1) && e.key == key && e.expiresAt > now) ==>
                answer == if key in store && Live(store[key], now) then Some(store[key].value) else None
      ensures !(exists e :: e in old(l1) && e.key == key && e.expiresAt > now) && answer.Some? ==>
                exists e :: e in l1 && e == Entry(key, answer.value, now + LOCAL_MS)
    {
      answer := Lookup(key, now);
      if answer.None? {
        var a := Read(key, now);
        if a.Some? {
          ghost var before := l1;
          var value := Receive(a.value, now);
          RememberedExact(before, Entry(key, value, now + LOCAL_MS));
          answer := Some(value);
        }
      }
    }

    // ---------------------------------------------------------------- set

    /** A write on its way to the store, from this process or another one. */
    method Send(w: Write)
      requires Valid()
      modifies this`writes, this`underway
      ensures Valid() && writes == old(writes) + {w} && underway == old(underway) + multiset{w}
      ensures forall k, v :: old(Gone(k, v)) && !(k == w.key && v == w.value) ==> Gone(k, v)
    {
      writes := writes + {w};
      underway := underway + multiset{w};
    }

    /** The first part of `set`. */
    method Set(key: Key, value: Value, ttl: int, now: int) returns (w: Write)
      requires Valid()
      modifies this`l1, this`writes, this`underway
      ensures Valid()
      ensures w == Write(key, value, now, ttl) && writes == old(writes) + {w} && underway == old(underway) + multiset{w}
      ensures l1 == Remembered(old(l1), Entry(key, value, now + Min(1000 * ttl, 5000)))
      ensures forall k, v :: old(Gone(k, v)) && !(k == key && v == value) ==> Gone(k, v)
    {
      RememberedExact(l1, Entry(key, value, now + Min(1000 * ttl, LOCAL_MS)));
      w := Write(key, value, now, ttl);
      Send(w);
      Remember(key, value, now + Min(1000 * ttl, LOCAL_MS));
    }

    /** The write reaches the store, which refuses a negative lifetime. */
    method Land(w: Write, now: int)
      requires Valid() && w in underway && now <= w.at + latency
      modifies this`store, this`underway
      ensures Valid() && NoneReturns() && underway == old(underway) - multiset{w}
      ensures store == if w.ttl < 0 then old(store) else old(store)[w.key := StoredFor(w.value, w.ttl, now)]
    {
      underway := underway - multiset{w};
      if w.ttl >= 0 {
        var s := StoredFor(w.value, w.ttl, now);
        assert StoredFrom(writes, w.key, s, latency);
        store := store[w.key := s];
      }
    }

    // ---------------------------------------------------------------- delete

    /** The last part of `delete`, when the store obeys: a value of the key is then gone for good exactly if it
        was neither on its way nor remembered again since the first part, which is `Forget`. */
    method DeleteStored(key: Key)
      requires Valid()
      modifies this`store
      ensures Valid() && NoneReturns() && store == old(store) - {key}
      ensures forall v :: Gone(key, v) <==>
                !old(OnItsWay(key, v)) && forall e :: e in l1 ==> !(e.key == key && e.value == v)
    {
      store := store - {key};
    }

    /** `delete` with nothing in between: a value of the key is then gone for good exactly if it was not on
        its way. */
    method Delete(key: Key)
      requires Valid()
      modifies this`l1, this`store
      ensures NoneReturns() && forall v :: Gone(key, v) <==> !old(OnItsWay(key, v))
      ensures Valid() && !Holds(l1, key) && store == old(store) - {key}
      ensures forall x :: x in l1 <==> x in old(l1) && x.key != key
    {
      Forget(key);
      DeleteStored(key);
    }

    /** A pattern is a prefix with or without a final star. The first level drops every key with the
        prefix either way; the store without the star drops the one key only. */
    method DeleteByPattern(prefix: string, star: bool)
      requires Valid()
      modifies this`l1, this`store
      ensures Valid() && NoneReturns()
      ensures forall x :: x in l1 <==> x in old(l1) && !(prefix <= x.key)
      ensures store.Keys == set k | k in old(store) && !(if star then prefix <= k else prefix == k)
      ensures forall k :: k in store ==> store[k] == old(store)[k]
    {
      var before, i := l1, 0;
      while i < |before|
        invariant 0 <= i <= |before| && Valid() && store == old(store) && answers == old(answers)
        invariant underway == old(underway)
        invariant forall x :: x in l1 <==> x in before && !(prefix <= x.key && x in before[..i])
      {
        if prefix <= before[i].key {
          assert forall x :: x in before && x.key == before[i].key ==> x == before[i];
          Forget(before[i].key);
        }
        assert before[..i + 1] == before[..i] + [before[i]];
        i := i + 1;
      }
      assert before[..i] == before;
      store := map k | k in store && !(if star then prefix <= k else prefix == k) :: store[k];
    }
  }

  lemma OnlyEntry(l1: seq<Entry>, e: Entry)
    requires DistinctKeys(l1) && e in l1
    ensures forall x :: x in l1 && x.key == e.key ==> x == e
  {
  }

  /** The only entry of its key. */
  predicate Sole(l1: seq<Entry>, e: Entry)
  {
    e in l1 && forall x :: x in l1 && x.key == e.key ==> x == e
  }

  /** `set` with nothing in between; the write reaches the store at `landed`. */
  method Put(cache: RedisCache, key: Key, value: Value, ttl: nat, at: int, landed: int)
    requires cache.Valid() && at <= landed <= at + cache.latency
    modifies cache
    ensures cache.Valid() && Sole(cache.l1, Entry(key, value, at + Min(1000 * ttl, LOCAL_MS)))
    ensures key in cache.store && cache.store[key] == StoredFor(value, ttl, landed)
  {
    var e := Entry(key, value, at + Min(1000 * ttl, LOCAL_MS));
    RememberedExact(cache.l1, e);
    var w := cache.Set(key, value, ttl, at);
    OnlyEntry(cache.l1, e);
    cache.Land(w, landed);
  }

  /** A value set and asked for again with nothing in between, at any later time however late, is answered
      exactly if it was set without a lifetime or the lifetime is not over. So without a lifetime there is
      no bound on an answer's age. */
  method SetThenGet(cache: RedisCache, key: Key, value: Value, ttl: nat, at: int, later: int)
    returns (answer: Option<Value>)
    requires cache.Valid() && later >= at
    modifies cache
    ensures answer == if ttl == 0 || later - at < 1000 * ttl then Some(value) else None
    ensures cache.Valid()
  {
    Put(cache, key, value, ttl, at, at);
    answer := cache.Get(key, later);
  }

  /** The store's answer, received and asked for again. */
  method ReceiveThenLookup(cache: RedisCache, a: Answer, now: int, later: int) returns (hit: Option<Value>)
    requires cache.Valid() && a in cache.answers && now <= a.readAt + cache.latency && now <= later < now + LOCAL_MS
    modifies cache
    ensures hit == Some(a.value) && cache.Valid()
  {
    RememberedExact(cache.l1, Entry(a.key, a.value, now + LOCAL_MS));
    var value := cache.Receive(a, now);
    OnlyEntry(cache.l1, Entry(a.key, a.value, now + LOCAL_MS));
    hit := cache.Lookup(a.key, later);
  }

  /** The bound is reached but for a millisecond, delays included: the write takes its longest way to the
      store, the value is read in the last millisecond of its life there, the answer takes its longest way
      back and is then held for 5000 ms. */
  method GetAtTheBound(cache: RedisCache, key: Key, value: Value, ttl: nat, at: int) returns (answer: Option<Value>)
    requires cache.Valid() && ttl >= 1 && (ttl >= 6 || cache.latency >= 1)
    modifies cache
    ensures answer == Some(value) && cache.Valid()
  {
    var last := at + cache.latency + 1000 * ttl - 1;
    Put(cache, key, value, ttl, at, at + cache.latency);
    var missed := cache.Lookup(key, last);
    var a := cache.Read(key, last);
    answer := ReceiveThenLookup(cache, a.value, last + cache.latency,
                                at + 1000 * ttl + LOCAL_MS + 2 * cache.latency - 2);
  }

  // ------------------------------------------------------------------ deleted and overwritten values

  // By `Delete` and `NoneReturns` a deleted value that was not on its way is never answered again until it is
  // set again. One that was on its way does come back:

  /** with an answer, for five seconds, */
  method DeletedComesBackAnswered(cache: RedisCache, a: Answer, now: int, later: int) returns (hit: Option<Value>)
    requires cache.Valid() && a in cache.answers && now <= a.readAt + cache.latency && now <= later < now + LOCAL_MS
    modifies cache
    ensures hit == Some(a.value) && cache.Valid()
  {
    cache.Delete(a.key);
    hit := ReceiveThenLookup(cache, a, now, later);
  }

  /** or with a write, for its lifetime. */
  method DeletedComesBackWritten(cache: RedisCache, w: Write, now: int, later: int) returns (answer: Option<Value>)
    requires cache.Valid() && w in cache.underway && now <= w.at + cache.latency && now <= later && w.ttl >= 0
    modifies cache
    ensures answer == if w.ttl == 0 || later - now < 1000 * w.ttl then Some(w.value) else None
    ensures cache.Valid()
  {
    cache.Delete(w.key);
    cache.Land(w, now);
    answer := cache.Get(w.key, later);
  }

  /** Overwriting a value: once the new one has landed, another value of the key is gone for good exactly if
      it was not on its way. */
  method SetAndLand(cache: RedisCache, key: Key, value: Value, ttl: nat, now: int)
    requires cache.Valid()
    modifies cache
    ensures cache.Valid() && forall v :: v != value ==> (cache.Gone(key, v) <==> !old(cache.OnItsWay(key, v)))
  {
    var e := Entry(key, value, now + Min(1000 * ttl, LOCAL_MS));
    RememberedExact(cache.l1, e);
    var w := cache.Set(key, value, ttl, now);
    OnlyEntry(cache.l1, e);
    cache.Land(w, now);
    forall v | v != value
      ensures cache.Gone(key, v) <==> !old(cache.OnItsWay(key, v))
    {
      assert cache.OnItsWay(key, v) <==> old(cache.OnItsWay(key, v));
    }
  }

  /** One that was on its way with an answer replaces the new one for five seconds. */
  method OverwrittenComesBack(cache: RedisCache, a: Answer, value: Value, ttl: nat, now: int, later: int)
    returns (hit: Option<Value>)
    requires cache.Valid() && a in cache.answers && now <= a.readAt + cache.latency && now <= later < now + LOCAL_MS
    modifies cache
    ensures hit == Some(a.value) && cache.Valid()
  {
    var w := cache.Set(a.key, value, ttl, now);
    cache.Land(w, now);
    hit := ReceiveThenLookup(cache, a, now, later);
  }
}
