// The process-local task queue: bounded concurrency, first in first out, and re-entrant, since a task
// may enqueue further tasks while it is being started.
module LocalQueue {
  import opened Wrappers

  /** A task, with the tasks it enqueues before its first suspension. */
  datatype Task = Task(id: nat, spawns: seq<Task>)

  function Size(t: Task): nat { 1 + SizeAll(t.spawns) }

  function SizeAll(ts: seq<Task>): nat
  {
    if ts == [] then 0 else Size(ts[0]) + SizeAll(ts[1..])
  }

  lemma {:induction false} SizeAppend(ts: seq<Task>, us: seq<Task>)
    ensures SizeAll(ts + us) == SizeAll(ts) + SizeAll(us)
  {
    if ts == [] {
      assert ts + us == us;
    } else {
      assert (ts + us)[1..] == ts[1..] + us;
      SizeAppend(ts[1..], us);
    }
  }

  lemma SizeOfOne(t: Task)
    ensures SizeAll([t]) == Size(t)
  {
    assert SizeAll([t][1..]) == 0;
  }

  lemma HeadSize(ts: seq<Task>)
    requires ts != []
    ensures SizeAll(ts) == 1 + SizeAll(ts[0].spawns) + SizeAll(ts[1..])
  {
    assert Size(ts[0]) == 1 + SizeAll(ts[0].spawns);
  }

  /** All tasks that the given ones enqueue. */
  function SpawnedBy(ts: seq<Task>): multiset<Task>
  {
    if ts == [] then multiset{} else SpawnedBy(ts[..|ts| - 1]) + multiset(ts[|ts| - 1].spawns)
  }

  lemma SpawnedByOneMore(ts: seq<Task>, k: nat)
    requires k < |ts|
    ensures SpawnedBy(ts[..k + 1]) == SpawnedBy(ts[..k]) + multiset(ts[k].spawns)
  {
    assert ts[..k + 1][..k] == ts[..k];
  }

  lemma BothGain(a: multiset<Task>, b: multiset<Task>, c: multiset<Task>, d: multiset<Task>, x: multiset<Task>)
    requires a + b == c + d
    ensures a + (b + x) == c + (d + x) == (c + x) + d
  {
    forall t: Task
      ensures (a + (b + x))[t] == (c + (d + x))[t] == ((c + x) + d)[t]
    {
      assert (a + b)[t] == (c + d)[t];
    }
  }

  lemma SetGains(s: set<nat>, i: nat)
    requires i !in s
    ensures |s + {i}| == |s| + 1
  {
  }

  /** Positions in the enqueue log; started tasks are its prefix. */
  predicate Accounted(enqueued: seq<Task>, started: nat, pending: seq<Task>, running: set<nat>, active: nat,
                      concurrency: nat)
  {
    && started <= |enqueued|
    && pending == enqueued[started..]
    && (forall i :: i in running ==> 0 <= i < started)
    && active == |running| <= concurrency
  }

  lemma BeginAccounted(enqueued: seq<Task>, started: nat, pending: seq<Task>, running: set<nat>, active: nat,
                       concurrency: nat)
    requires Accounted(enqueued, started, pending, running, active, concurrency) && active < concurrency &&
             |pending| > 0
    ensures Accounted(enqueued, started + 1, pending[1..], running + {started}, active + 1, concurrency)
    ensures enqueued[started] == pending[0]
  {
    SetGains(running, started);
  }

  lemma BeginOwes(enqueued: seq<Task>, started: nat, owed: multiset<Task>, submitted: multiset<Task>, next: Task)
    requires started < |enqueued| && next == enqueued[started]
    requires multiset(enqueued) + owed == submitted + SpawnedBy(enqueued[..started])
    ensures multiset(enqueued) + (owed + multiset(next.spawns)) == submitted + SpawnedBy(enqueued[..started + 1])
  {
    SpawnedByOneMore(enqueued, started);
    BothGain(multiset(enqueued), owed, submitted, SpawnedBy(enqueued[..started]), multiset(next.spawns));
  }

  lemma EnqueueAccounted(enqueued: seq<Task>, started: nat, pending: seq<Task>, t: Task)
    requires started <= |enqueued| && pending == enqueued[started..]
    ensures pending + [t] == (enqueued + [t])[started..]
    ensures (enqueued + [t])[..started] == enqueued[..started]
    ensures multiset(enqueued + [t]) == multiset(enqueued) + multiset{t}
    ensures SizeAll(pending + [t]) == SizeAll(pending) + Size(t)
  {
    SizeAppend(pending, [t]);
    SizeOfOne(t);
  }

  /** What happened so far: every task ever enqueued, in order; how many of them were started; the
      positions of those still running; and the tasks submitted from outside. */
  datatype History = History(enqueued: seq<Task>, started: nat, running: set<nat>, submitted: multiset<Task>)

  /** How the history grows while no task ends: those started since are exactly the new running ones. */
  ghost predicate Continues(a: History, b: History)
  {
    && a.enqueued <= b.enqueued && a.started <= b.started
    && (forall i: nat :: i in b.running <==> i in a.running || a.started <= i < b.started)
    && a.submitted == b.submitted
  }

  lemma ContinuesOn(a: History, b: History, c: History)
    requires Continues(a, b) && Continues(b, c)
    ensures Continues(a, c)
  {
  }

  class LocalTaskQueue {
    const concurrency: nat
    var pending: seq<Task>
    var active: nat

    // The history, and the spawned tasks whose enqueue call is still to come.
    ghost var enqueued: seq<Task>
    ghost var started: nat
    ghost var running: set<nat>
    ghost var submitted: multiset<Task>
    ghost var owed: multiset<Task>

    /** Tasks start in enqueue order, each exactly once; at most `concurrency` run; and every enqueued
        task was submitted or spawned by a started one. */
    ghost predicate Valid()
      reads this
    {
      && concurrency >= 1
      && Accounted(enqueued, started, pending, running, active, concurrency)
      && multiset(enqueued) + owed == submitted + SpawnedBy(enqueued[..started])
    }

    /** Between calls: all slots are busy, or nothing is waiting. */
    ghost predicate Settled()
      reads this
    {
      active == concurrency || pending == []
    }

    ghost function Past(): History
      reads this
    {
      History(enqueued, started, running, submitted)
    }

    constructor (requested: Option<int>)
      ensures Valid() && Settled() && owed == multiset{}
      ensures enqueued == [] && concurrency == if requested.Some? && requested.value >= 1 then requested.value else 1
    {
      concurrency := if requested.Some? && requested.value >= 1 then requested.value else 1;
      pending, active := [], 0;
      enqueued, started, running, submitted, owed := [], 0, {}, multiset{}, multiset{};
    }

    method Enqueue(t: Task)
      requires Valid() && t in owed
      modifies this
      ensures Valid() && Settled() && Continues(old(Past()), Past())
      ensures owed == old(owed) - multiset{t}
      ensures old(enqueued) + [t] <= enqueued
      ensures SizeAll(pending) <= old(SizeAll(pending)) + Size(t)
      decreases SizeAll(pending) + Size(t), 2
    {
      EnqueueAccounted(enqueued, started, pending, t);
      assert multiset{t} + (owed - multiset{t}) == owed;
      pending := pending + [t];
      enqueued := enqueued + [t];
      owed := owed - multiset{t};
      Drain();
    }

    method Drain()
      requires Valid()
      modifies this
      ensures Valid() && Settled() && Continues(old(Past()), Past())
      ensures owed == old(owed)
      ensures SizeAll(pending) <= old(SizeAll(pending))
      decreases SizeAll(pending), 1
    {
      while active < concurrency && |pending| > 0
        invariant Valid() && Continues(old(Past()), Past()) && owed == old(owed)
        invariant SizeAll(pending) <= old(SizeAll(pending))
        decreases SizeAll(pending)
      {
        ghost var before := Past();
        StartNext();
        ContinuesOn(old(Past()), before, Past());
      }
    }

    /** Takes the head of the queue and runs it up to its first suspension, its enqueue calls included. */
    method StartNext()
      requires Valid() && active < concurrency && |pending| > 0
      modifies this
      ensures Valid() && Continues(old(Past()), Past()) && started > old(started)
      ensures owed == old(owed)
      ensures SizeAll(pending) < old(SizeAll(pending))
      decreases SizeAll(pending), 0
    {
      ghost var before := SizeAll(pending);
      var next := pending[0];
      HeadSize(pending);
      Begin(next);
      var k := 0;
      assert next.spawns[0..] == next.spawns;
      while k < |next.spawns|
        invariant 0 <= k <= |next.spawns|
        invariant Valid() && Continues(old(Past()), Past()) && started > old(started)
        invariant owed == old(owed) + multiset(next.spawns[k..])
        invariant SizeAll(pending) + SizeAll(next.spawns[k..]) < before
        decreases |next.spawns| - k
      {
        ghost var so := Past();
        assert next.spawns[k..] == [next.spawns[k]] + next.spawns[k + 1..];
        assert SizeAll(next.spawns[k..]) == Size(next.spawns[k]) + SizeAll(next.spawns[k + 1..]);
        Enqueue(next.spawns[k]);
        ContinuesOn(old(Past()), so, Past());
        k := k + 1;
      }
    }

    /** Takes the head of the queue and counts it as running; its own enqueue calls come next. */
    method Begin(next: Task)
      requires Valid() && active < concurrency && |pending| > 0 && next == pending[0]
      modifies this
      ensures Valid() && Continues(old(Past()), Past())
      ensures pending == old(pending)[1..] && started == old(started) + 1 && enqueued[old(started)] == next
      ensures owed == old(owed) + multiset(next.spawns)
    {
      BeginAccounted(enqueued, started, pending, running, active, concurrency);
      BeginOwes(enqueued, started, owed, submitted, next);
      pending := pending[1..];
      active := active + 1;
      running := running + {started};
      started := started + 1;
      owed := owed + multiset(next.spawns);
    }

    /** A task enqueued from outside, or by a task that already suspended once. */
    method Submit(t: Task)
      requires Valid() && Settled() && owed == multiset{}
      modifies this
      ensures Valid() && Settled() && owed == multiset{}
      ensures Continues(old(Past()).(submitted := old(submitted) + multiset{t}), Past())
      ensures old(enqueued) + [t] <= enqueued
    {
      submitted := submitted + multiset{t};
      owed := owed + multiset{t};
      BothGain(multiset(enqueued), old(owed), old(submitted), SpawnedBy(enqueued[..started]), multiset{t});
      Enqueue(t);
      assert owed == multiset{};
    }

    /** A running task ends, with or without an error, and frees its slot, which a waiting task takes. */
    method Finish(i: nat)
      requires Valid() && Settled() && owed == multiset{} && i in running
      modifies this
      ensures Valid() && Settled() && owed == multiset{}
      ensures Continues(old(Past()).(running := old(running) - {i}), Past())
      ensures old(pending) != [] ==> started > old(started)
    {
      active := active - 1;
      running := running - {i};
      ghost var others := running;
      Drain();
      if started == old(started) {
        assert running == others;
        assert pending == enqueued[started..];
      }
    }

    /** Nothing running means nothing waiting: every task that was submitted or spawned has been
        started and has finished, and no other. */
    method OnIdle() returns (idle: bool)
      requires Valid() && Settled() && owed == multiset{}
      ensures idle <==> running == {}
      ensures idle ==> started == |enqueued| && multiset(enqueued) == submitted + SpawnedBy(enqueued)
    {
      idle := active == 0 && |pending| == 0;
      if active == 0 {
        assert pending == [] && started == |enqueued|;
        assert enqueued[..started] == enqueued;
        assert multiset(enqueued) + owed == multiset(enqueued);
      }
    }
  }
}
