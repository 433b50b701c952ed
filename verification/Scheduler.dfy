// Scheduler_ProcessTaskBatch and Scheduler_Sync as loops over the workers'
// queues, with each queue operation as one atomic step.
module Scheduler {
  import opened DequeHistory
  import opened TaskQueues
  import opened Arenas
  import opened RoundRobin

  // What pushing xs in order makes of contents q in a ring of n entries, with
  // the guard as written.
  function Fill(q: seq<Entry>, xs: seq<Entry>, n: nat): seq<Entry> {
    if xs == [] then q
    else
      var p := Fill(q, xs[..|xs| - 1], n);
      if |p| > n then p else Accept(p, xs[|xs| - 1], n)
  }

  // A share that fits is appended whole.
  lemma {:induction false} FillAppends(q: seq<Entry>, xs: seq<Entry>, n: nat)
    requires |q| + |xs| <= n
    ensures Fill(q, xs, n) == q + xs
  {
    if xs == [] {
    } else {
      FillAppends(q, xs[..|xs| - 1], n);
      assert xs == xs[..|xs| - 1] + [xs[|xs| - 1]];
    }
  }

  // A share that does not fit: one task too many is accepted, in place of the
  // oldest entry and again as the newest; all later ones run inline.
  lemma {:induction false} FillOverflows(q: seq<Entry>, xs: seq<Entry>, n: nat)
    requires 0 < n && |q| <= n < |q| + |xs|
    ensures var extra := xs[n - |q|];
            Fill(q, xs, n) == [extra] + (q + xs)[1..n] + [extra]
  {
    var m := |xs| - 1;
    if |q| + m == n {
      FillAppends(q, xs[..m], n);
      assert q + xs[..m] == (q + xs)[..n];
    } else {
      FillOverflows(q, xs[..m], n);
      assert (q + xs[..m])[1..n] == (q + xs)[1..n];
    }
  }

  // So a queue ends up with its old contents and a prefix of its share, the
  // rest running inline, iff the share fits or the overwritten entry equals
  // the one that overwrites it.
  lemma FillIsIntactIff(q: seq<Entry>, xs: seq<Entry>, n: nat)
    requires 0 < n && |q| <= n
    ensures (exists k | 0 <= k <= |xs| :: Fill(q, xs, n) == q + xs[..k])
            <==> |q| + |xs| <= n || (q + xs)[0] == xs[n - |q|]
  {
    if |q| + |xs| <= n {
      FillAppends(q, xs, n);
      assert xs[..|xs|] == xs;
    } else {
      FillOverflows(q, xs, n);
      var extra := xs[n - |q|];
      if (q + xs)[0] == extra {
        assert (q + xs)[..n] == [extra] + (q + xs)[1..n];
        assert Fill(q, xs, n) == q + xs[..n - |q| + 1];
      } else {
        forall k | 0 <= k <= |xs|
          ensures Fill(q, xs, n) != q + xs[..k]
        {
          assert Fill(q, xs, n)[0] == extra && |Fill(q, xs, n)| == n + 1;
          if |q + xs[..k]| == n + 1 {
            assert (q + xs[..k])[0] == (q + xs)[0];
          }
        }
      }
    }
  }

  // The contents of all queues after the batch has been offered.
  ghost function Distributed(qs: seq<seq<Entry>>, batch: seq<Entry>, n: nat): (r: seq<seq<Entry>>)
    ensures |r| == |qs|
    ensures forall w | 0 <= w < |qs| :: r[w] == Fill(qs[w], Share(batch, w, |qs|), n)
  {
    seq(|qs|, w requires 0 <= w < |qs| => Fill(qs[w], Share(batch, w, |qs|), n))
  }

  lemma ShareNext(batch: seq<Entry>, i: nat, w: nat, workers: nat)
    requires i < |batch| && w < workers
    ensures Share(batch[..i + 1], w, workers)
         == if i % workers == w then Share(batch[..i], w, workers) + [batch[i]] else Share(batch[..i], w, workers)
  {
    assert batch[..i + 1][..i] == batch[..i];
  }

  lemma FillNext(q: seq<Entry>, xs: seq<Entry>, x: Entry, n: nat)
    ensures Fill(q, xs + [x], n) == if |Fill(q, xs, n)| > n then Fill(q, xs, n) else Accept(Fill(q, xs, n), x, n)
  {
    assert (xs + [x])[..|xs|] == xs;
  }

  // What offering e to worker w does to the queues.
  function OfferTo(qs: seq<seq<Entry>>, w: nat, e: Entry, n: nat): seq<seq<Entry>>
    requires w < |qs|
  {
    if |qs[w]| > n then qs else qs[w := Accept(qs[w], e, n)]
  }

  lemma DistributeNext(qs: seq<seq<Entry>>, batch: seq<Entry>, i: nat, n: nat)
    requires |qs| >= 1 && i < |batch|
    ensures Distributed(qs, batch[..i + 1], n) == OfferTo(Distributed(qs, batch[..i], n), i % |qs|, batch[i], n)
  {
    var before, after := Distributed(qs, batch[..i], n), Distributed(qs, batch[..i + 1], n);
    forall w | 0 <= w < |qs| && w != i % |qs|
      ensures after[w] == before[w]
    {
      ShareNext(batch, i, w, |qs|);
    }
    var t := i % |qs|;
    ShareNext(batch, i, t, |qs|);
    FillNext(qs[t], Share(batch[..i], t, |qs|), batch[i], n);
  }

  // Task i finds its queue over-full and is run by main instead.
  ghost predicate RunsInline(qs: seq<seq<Entry>>, batch: seq<Entry>, n: nat, i: nat)
    requires |qs| >= 1 && i < |batch|
  {
    |Distributed(qs, batch[..i], n)[i % |qs|]| > n
  }

  // The inline tasks among the first `upTo`, each once and in batch order.
  ghost predicate InlineLog(inline: seq<nat>, qs: seq<seq<Entry>>, batch: seq<Entry>, n: nat, upTo: nat)
    requires |qs| >= 1
  {
    && (forall i | 0 <= i < |batch| :: i in inline <==> i < upTo && RunsInline(qs, batch, n, i))
    && (forall j | 0 <= j < |inline| :: inline[j] < upTo)
    && (forall j, k | 0 <= j < k < |inline| :: inline[j] < inline[k])
  }

  lemma InlineNext(inline: seq<nat>, ran: bool, qs: seq<seq<Entry>>, batch: seq<Entry>, n: nat, i: nat)
    requires |qs| >= 1 && i < |batch|
    requires InlineLog(inline, qs, batch, n, i)
    requires ran <==> RunsInline(qs, batch, n, i)
    ensures InlineLog(if ran then inline + [i] else inline, qs, batch, n, i + 1)
  {
  }

  // Semaphores after a batch: a sleeping worker is signalled once per task
  // offered to it.
  ghost function Raised(semaphores: seq<nat>, asleep: seq<bool>, batch: seq<Entry>): (r: seq<nat>)
    requires |semaphores| == |asleep|
    ensures |r| == |asleep|
    ensures forall w | 0 <= w < |asleep| ::
              r[w] == semaphores[w] + if asleep[w] then |Share(batch, w, |asleep|)| else 0
  {
    seq(|asleep|, w requires 0 <= w < |asleep| => semaphores[w] + if asleep[w] then |Share(batch, w, |asleep|)| else 0)
  }

  lemma RaisedNext(semaphores: seq<nat>, asleep: seq<bool>, batch: seq<Entry>, i: nat)
    requires |semaphores| == |asleep| >= 1 && i < |batch|
    ensures var t := i % |asleep|; var r := Raised(semaphores, asleep, batch[..i]);
            Raised(semaphores, asleep, batch[..i + 1]) == if asleep[t] then r[t := r[t] + 1] else r
  {
    var t, r, r' := i % |asleep|, Raised(semaphores, asleep, batch[..i]), Raised(semaphores, asleep, batch[..i + 1]);
    forall w | 0 <= w < |asleep|
      ensures r'[w] == if w == t && asleep[t] then r[w] + 1 else r[w]
    {
      ShareNext(batch, i, w, |asleep|);
    }
  }

  function TotalLength(qs: seq<seq<Entry>>): nat {
    if qs == [] then 0 else TotalLength(qs[..|qs| - 1]) + |qs[|qs| - 1]|
  }

  lemma {:induction false} TotalLengthUpdate(qs: seq<seq<Entry>>, w: nat, q: seq<Entry>)
    requires w < |qs|
    ensures TotalLength(qs[w := q]) == TotalLength(qs) - |qs[w]| + |q|
  {
    var n := |qs| - 1;
    if w == n {
      assert qs[w := q][..n] == qs[..n];
    } else {
      assert qs[w := q][..n] == qs[..n][w := q];
      TotalLengthUpdate(qs[..n], w, q);
    }
  }

  // The worker task i is offered to, counting from 0 (targetIx - 1).
  function Target(i: nat, workers: nat): (t: nat)
    requires workers >= 1
    ensures t < workers
  {
    i % workers
  }

  // The whole loop as a fold over the batch.
  datatype Progress = Progress(queues: seq<seq<Entry>>, semaphores: seq<nat>, inline: seq<nat>)

  function OfferTask(p: Progress, asleep: seq<bool>, n: nat, i: nat, e: Entry): (r: Progress)
    requires |p.queues| == |p.semaphores| == |asleep| >= 1
    ensures |r.queues| == |r.semaphores| == |asleep|
  {
    var t := Target(i, |asleep|);
    Progress(OfferTo(p.queues, t, e, n),
             if asleep[t] then p.semaphores[t := p.semaphores[t] + 1] else p.semaphores,
             if |p.queues[t]| > n then p.inline + [i] else p.inline)
  }

  function OfferTasks(p: Progress, asleep: seq<bool>, n: nat, batch: seq<Entry>): (r: Progress)
    requires |p.queues| == |p.semaphores| == |asleep| >= 1
    ensures |r.queues| == |r.semaphores| == |asleep|
  {
    if batch == [] then p
    else OfferTask(OfferTasks(p, asleep, n, batch[..|batch| - 1]), asleep, n, |batch| - 1, batch[|batch| - 1])
  }

  lemma OfferTasksNext(p: Progress, asleep: seq<bool>, n: nat, batch: seq<Entry>, i: nat)
    requires |p.queues| == |p.semaphores| == |asleep| >= 1 && i < |batch|
    ensures OfferTasks(p, asleep, n, batch[..i + 1])
         == OfferTask(OfferTasks(p, asleep, n, batch[..i]), asleep, n, i, batch[i])
  {
    assert batch[..i + 1][..i] == batch[..i];
  }

  // The loop after upTo tasks amounts to the distribution by shares.
  ghost predicate ByShares(p: Progress, r: Progress, asleep: seq<bool>, n: nat, batch: seq<Entry>, upTo: nat)
    requires |p.queues| == |p.semaphores| == |asleep| >= 1 && upTo <= |batch|
  {
    && r.queues == Distributed(p.queues, batch[..upTo], n)
    && r.semaphores == Raised(p.semaphores, asleep, batch[..upTo])
    && InlineLog(r.inline, p.queues, batch, n, upTo)
  }

  lemma OfferTaskExact(p: Progress, m: Progress, asleep: seq<bool>, n: nat, batch: seq<Entry>, i: nat)
    requires |p.queues| == |p.semaphores| == |asleep| >= 1 && i < |batch|
    requires |m.queues| == |m.semaphores| == |asleep| && ByShares(p, m, asleep, n, batch, i)
    ensures ByShares(p, OfferTask(m, asleep, n, i, batch[i]), asleep, n, batch, i + 1)
  {
    var r := OfferTask(m, asleep, n, i, batch[i]);
    assert r.queues == Distributed(p.queues, batch[..i + 1], n) by { DistributeNext(p.queues, batch, i, n); }
    assert r.semaphores == Raised(p.semaphores, asleep, batch[..i + 1]) by {
      RaisedNext(p.semaphores, asleep, batch, i);
    }
    assert InlineLog(r.inline, p.queues, batch, n, i + 1) by {
      InlineNext(m.inline, |m.queues[i % |asleep|]| > n, p.queues, batch, n, i);
    }
  }

  lemma {:induction false} OfferTasksExact(p: Progress, asleep: seq<bool>, n: nat, batch: seq<Entry>, upTo: nat)
    requires |p.queues| == |p.semaphores| == |asleep| >= 1 && p.inline == [] && upTo <= |batch|
    ensures var r := OfferTasks(p, asleep, n, batch[..upTo]);
            && r.queues == Distributed(p.queues, batch[..upTo], n)
            && r.semaphores == Raised(p.semaphores, asleep, batch[..upTo])
            && InlineLog(r.inline, p.queues, batch, n, upTo)
  {
    if upTo == 0 {
    } else {
      var i := upTo - 1;
      OfferTasksExact(p, asleep, n, batch, i);
      OfferTasksNext(p, asleep, n, batch, i);
      OfferTaskExact(p, OfferTasks(p, asleep, n, batch[..i]), asleep, n, batch, i);
    }
  }

  // No task is dropped: what was offered is what the queues grew by and what
  // ran inline.
  lemma {:induction false} OfferedIsQueuedOrInline(p: Progress, asleep: seq<bool>, n: nat, batch: seq<Entry>)
    requires |p.queues| == |p.semaphores| == |asleep| >= 1
    ensures var r := OfferTasks(p, asleep, n, batch);
            TotalLength(r.queues) + |r.inline| == TotalLength(p.queues) + |p.inline| + |batch|
  {
    if batch == [] {
    } else {
      var i := |batch| - 1;
      OfferedIsQueuedOrInline(p, asleep, n, batch[..i]);
      var m, t := OfferTasks(p, asleep, n, batch[..i]), Target(i, |asleep|);
      TotalLengthUpdate(m.queues, t, Accept(m.queues[t], batch[i], n));
    }
  }

  // If every share fits, nothing runs inline and each worker gets its share.
  lemma FittingBatch(qs: seq<seq<Entry>>, batch: seq<Entry>, n: nat)
    requires |qs| >= 1
    requires forall w | 0 <= w < |qs| :: |qs[w]| + |Share(batch, w, |qs|)| <= n
    ensures forall w | 0 <= w < |qs| :: Distributed(qs, batch, n)[w] == qs[w] + Share(batch, w, |qs|)
    ensures forall i | 0 <= i < |batch| :: !RunsInline(qs, batch, n, i)
  {
    forall w | 0 <= w < |qs|
      ensures Distributed(qs, batch, n)[w] == qs[w] + Share(batch, w, |qs|)
    {
      FillAppends(qs[w], Share(batch, w, |qs|), n);
    }
    forall i | 0 <= i < |batch|
      ensures !RunsInline(qs, batch, n, i)
    {
      SharePrefix(batch, i, i % |qs|, |qs|);
      FillAppends(qs[i % |qs|], Share(batch[..i], i % |qs|, |qs|), n);
    }
  }

  lemma {:induction false} SharePrefix(batch: seq<Entry>, i: nat, w: nat, workers: nat)
    requires i <= |batch| && w < workers
    ensures |Share(batch[..i], w, workers)| <= |Share(batch, w, workers)|
  {
    if i == |batch| {
      assert batch[..i] == batch;
    } else {
      assert batch[..|batch| - 1][..i] == batch[..i];
      SharePrefix(batch[..|batch| - 1], i, w, workers);
    }
  }

  lemma {:induction false} TotalLengthMonotone(qs: seq<seq<Entry>>, rs: seq<seq<Entry>>)
    requires |qs| == |rs| && forall w | 0 <= w < |qs| :: |rs[w]| <= |qs[w]|
    ensures TotalLength(rs) <= TotalLength(qs)
    ensures (exists w | 0 <= w < |qs| :: |rs[w]| < |qs[w]|) ==> TotalLength(rs) < TotalLength(qs)
  {
    if qs == [] {
    } else {
      TotalLengthMonotone(qs[..|qs| - 1], rs[..|qs| - 1]);
    }
  }

  // An arena after k tasks of a worker, each allocating what its body asks for.
  ghost function AfterTasks(g: Growth, a: Arena, bodies: nat -> seq<Request>, k: nat): (b: Arena)
    requires Within(a) && forall i :: AllSane(bodies(i))
    ensures Within(b)
  {
    if k == 0 then a else ServeAll(g, Heap(AfterTasks(g, a, bodies, k - 1), []), bodies(k - 1)).arena
  }

  lemma AfterTasksNext(g: Growth, a: Arena, bodies: nat -> seq<Request>, k: nat)
    requires Within(a) && forall i :: AllSane(bodies(i))
    ensures AfterTasks(g, a, bodies, k + 1) == ServeAll(g, Heap(AfterTasks(g, a, bodies, k), []), bodies(k)).arena
  {
  }

  // Main's arena after the stolen tasks of these visits, each in its own scope.
  ghost function AfterStolen(g: Growth, a: Arena, bodies: nat -> seq<Request>, visits: seq<Visit>): (b: Arena)
    requires Within(a) && forall i :: AllSane(bodies(i))
    ensures Within(b)
  {
    if visits == [] then a
    else
      var n := |visits| - 1;
      var m := AfterStolen(g, a, bodies, visits[..n]);
      if visits[n].got then Apply(g, Heap(m, []), Scope(bodies(n))).arena else m
  }

  lemma AfterStolenNext(g: Growth, a: Arena, bodies: nat -> seq<Request>, visits: seq<Visit>, visit: Visit)
    requires Within(a) && forall i :: AllSane(bodies(i))
    ensures AfterStolen(g, a, bodies, visits + [visit]) ==
            if visit.got then Apply(g, Heap(AfterStolen(g, a, bodies, visits), []), Scope(bodies(|visits|))).arena
            else AfterStolen(g, a, bodies, visits)
  {
    assert (visits + [visit])[..|visits|] == visits;
  }

  lemma {:induction false} StolenKeepOffset(g: Growth, a: Arena, bodies: nat -> seq<Request>, visits: seq<Visit>)
    requires Within(a) && forall i :: AllSane(bodies(i))
    ensures AfterStolen(g, a, bodies, visits).offset == a.offset
  {
    if visits == [] {
    } else {
      StolenKeepOffset(g, a, bodies, visits[..|visits| - 1]);
    }
  }

  // The loop's variables and the record of its turns agree.
  predicate Logged(visits: seq<Visit>, stolen: seq<seq<Entry>>, ix: nat, empties: nat) {
    && |stolen| >= 1 && OnWalk(visits, |stolen|)
    && ix == Walk(1, |visits|, |stolen|) && empties == Failures(visits)
    && forall w | 0 <= w < |stolen| :: |stolen[w]| == Successes(visits, w + 1)
  }

  lemma LoggedNext(visits: seq<Visit>, stolen: seq<seq<Entry>>, ix: nat, empties: nat, ok: bool, task: Entry)
    requires Logged(visits, stolen, ix, empties) && empties <= |stolen|
    ensures Logged(visits + [Visit(ix, ok)], if ok then stolen[ix - 1 := stolen[ix - 1] + [task]] else stolen,
                   Next(ix, |stolen|), if ok then 0 else empties + 1)
  {
    WalkGrows(visits, ok, |stolen|);
    SuccessesNext(visits, Visit(ix, ok));
  }

  class Scheduler {
    const workers: nat              // g_WorkerCount
    const size: nat                 // of every ring
    const transientArena: ThreadArena  // main's
    const growth: Growth            // how that arena grows
    var queues: seq<seq<Entry>>     // contents, oldest first
    var asleep: seq<bool>
    var semaphores: seq<nat>
    var count: nat                  // the dependency counter
    ghost var popped: seq<seq<Entry>>  // what each worker took itself, newest first

    ghost predicate Valid()
      reads this
    {
      && workers >= 1 && size >= 1
      && |queues| == |asleep| == |semaphores| == |popped| == workers
    }

    // After ThreadContext_Initialize: empty queues, everybody awake.
    constructor (workers: nat, size: nat, transientArena: ThreadArena, growth: Growth)
      requires workers >= 1 && size >= 1
      ensures Valid()
      ensures this.workers == workers && this.size == size && this.transientArena == transientArena
      ensures forall w | 0 <= w < workers ::
                queues[w] == [] && popped[w] == [] && !asleep[w] && semaphores[w] == 0
    {
      this.workers := workers;
      this.size := size;
      this.transientArena := transientArena;
      this.growth := growth;
      queues := seq(workers, w => []);
      popped := seq(workers, w => []);
      asleep := seq(workers, w => false);
      semaphores := seq(workers, w => 0);
      count := 0;
    }

    // TaskQueue_Push on worker w's queue (TaskQueues.TaskQueue.Push).
    method Push(w: nat, e: Entry) returns (ranInline: bool)
      requires Valid() && w < workers
      modifies this`queues
      ensures Valid()
      ensures queues == OfferTo(old(queues), w, e, size)
      ensures ranInline <==> |old(queues)[w]| > size
    {
      ranInline := |queues[w]| > size;
      if !ranInline {
        queues := queues[w := Accept(queues[w], e, size)];
      }
    }

    // The loop of Scheduler_ProcessTaskBatch.
    method OfferAll(batch: seq<Entry>) returns (inline: seq<nat>)
      requires Valid()
      modifies this`queues, this`semaphores
      ensures Valid()
      ensures Progress(queues, semaphores, inline)
           == OfferTasks(Progress(old(queues), old(semaphores), []), asleep, size, batch)
    {
      inline := [];
      ghost var p := Progress(queues, semaphores, []);
      for i := 0 to |batch|
        invariant Valid()
        invariant Progress(queues, semaphores, inline) == OfferTasks(p, asleep, size, batch[..i])
      {
        var target := Target(i, workers);
        OfferTasksNext(p, asleep, size, batch, i);
        var ran := Push(target, batch[i]);
        if ran {
          inline := inline + [i];
        }
        if asleep[target] {
          semaphores := semaphores[target := semaphores[target] + 1];
        }
      }
      assert batch[..|batch|] == batch;
    }

    // Scheduler_ProcessTaskBatch, undisturbed by the workers. The counter is a
    // uint32_t: it receives the length modulo 2^32. A sleeping worker is
    // signalled once per task offered to it. `inline` lists the tasks main
    // ran itself.
    method ProcessTaskBatch(batch: seq<Entry>) returns (inline: seq<nat>)
      requires Valid()
      modifies this`queues, this`semaphores, this`count
      ensures Valid()
      ensures count == |batch| % COUNTER_RANGE
      ensures queues == Distributed(old(queues), batch, size)
      ensures InlineLog(inline, old(queues), batch, size, |batch|)
      ensures TotalLength(queues) + |inline| == TotalLength(old(queues)) + |batch|
      ensures semaphores == Raised(old(semaphores), asleep, batch)
    {
      ghost var p := Progress(queues, semaphores, []);
      count := |batch| % COUNTER_RANGE;
      inline := OfferAll(batch);
      OfferTasksExact(p, asleep, size, batch, |batch|);
      OfferedIsQueuedOrInline(p, asleep, size, batch);
      assert batch[..|batch|] == batch;
    }

    // The workers run for a while: `pops` names who pops, in order.
    method WorkersRun(pops: seq<nat>)
      requires Valid()
      modifies this`queues, this`popped
      ensures Valid()
      ensures forall w | 0 <= w < workers :: queues[w] + popped[w] == old(queues)[w] + old(popped)[w]
      ensures Shrunk(old(queues), queues)
    {
      for t := 0 to |pops|
        invariant Valid()
        invariant forall w | 0 <= w < workers :: queues[w] + popped[w] == old(queues)[w] + old(popped)[w]
        invariant Shrunk(old(queues), queues)
      {
        var w := pops[t];
        if w < workers && queues[w] != [] {
          var q := queues[w];
          assert q == q[..|q| - 1] + [q[|q| - 1]];
          popped := popped[w := [q[|q| - 1]] + popped[w]];
          queues := queues[w := q[..|q| - 1]];
        }
      }
    }

    // WorkerProc of worker w + 1, undisturbed, from waking up until it waits on
    // its semaphore again: run what is queued, newest first, decrementing the
    // counter after each task; then reset the arena and announce the sleep.
    // `bodies(k)` are the allocations of the k-th task in the worker's arena.
    method WorkerBurst(w: nat, arena: ThreadArena, bodies: nat -> seq<Request>)
      requires Valid() && w < workers && count < COUNTER_RANGE
      requires Within(arena.State()) && forall k :: AllSane(bodies(k))
      modifies this`queues, this`popped, this`count, this`asleep, arena
      ensures Valid() && Within(arena.State())
      ensures queues == old(queues)[w := []]
      ensures popped == old(popped)[w := old(queues)[w] + old(popped)[w]]
      ensures count == CountedDown(old(count), |old(queues)[w]|)
      ensures asleep == old(asleep)[w := true]
      ensures arena.State()
           == AfterTasks(growth, old(arena.State()), bodies, |old(queues)[w]|).(offset := 0)
    {
      ghost var qs, ps := queues, popped;
      ghost var before, c := arena.State(), count;
      asleep := asleep[w := false];
      var k := 0;
      while queues[w] != []
        invariant Valid() && Within(arena.State())
        invariant queues == qs[w := queues[w]] && popped == ps[w := popped[w]]
        invariant asleep == old(asleep)[w := false]
        invariant queues[w] + popped[w] == qs[w] + ps[w] && |queues[w]| + k == |qs[w]|
        invariant count == CountedDown(c, k)
        invariant arena.State() == AfterTasks(growth, before, bodies, k)
        decreases |queues[w]|
      {
        AfterTasksNext(growth, before, bodies, k);
        WorkerTask(w, arena, bodies(k));
        k := k + 1;
      }
      assert queues[w] + popped[w] == popped[w];
      arena.Reset();
      asleep := asleep[w := true];
    }

    // One turn of WorkerProc that finds a task.
    method WorkerTask(w: nat, arena: ThreadArena, requests: seq<Request>)
      requires Valid() && w < workers && queues[w] != []
      requires Within(arena.State()) && AllSane(requests)
      modifies this`queues, this`popped, this`count, arena
      ensures Valid() && Within(arena.State())
      ensures queues == old(queues)[w := queues[w]] && popped == old(popped)[w := popped[w]]
      ensures queues[w] + popped[w] == old(queues)[w] + old(popped)[w]
      ensures |queues[w]| + 1 == |old(queues)[w]|
      ensures count == if old(count) == 0 then COUNTER_RANGE - 1 else old(count) - 1
      ensures arena.State() == ServeAll(growth, Heap(old(arena.State()), []), requests).arena
    {
      var q := queues[w];
      assert q == q[..|q| - 1] + [q[|q| - 1]];
      popped := popped[w := [q[|q| - 1]] + popped[w]];
      queues := queues[w := q[..|q| - 1]];
      RunTask(arena, requests);
      count := if count == 0 then COUNTER_RANGE - 1 else count - 1;
    }

    // A task run by a worker: what it allocates stays until the next reset.
    method RunTask(arena: ThreadArena, requests: seq<Request>)
      requires Within(arena.State()) && AllSane(requests)
      modifies arena
      ensures arena.State() == ServeAll(growth, Heap(old(arena.State()), []), requests).arena
    {
      ghost var h := Heap(arena.State(), []);
      for i := 0 to |requests|
        invariant arena.State() == ServeAll(growth, h, requests[..i]).arena
      {
        assert requests[..i + 1][..i] == requests[..i];
        var r := requests[i];
        var out := arena.Allocate(growth, r.size, r.alignment, r.commits, r.locks);
      }
      assert requests[..|requests|] == requests;
    }

    // TaskQueue_Steal on worker w's queue (TaskQueues.TaskQueue.Steal).
    method Steal(w: nat) returns (ok: bool, task: Entry)
      requires Valid() && w < workers
      modifies this`queues
      ensures Valid()
      ensures ok <==> old(queues)[w] != []
      ensures !ok ==> queues == old(queues)
      ensures ok ==> queues == old(queues)[w := queues[w]] && [task] + queues[w] == old(queues)[w]
    {
      ok, task := queues[w] != [], Entry(0, 0);
      if ok {
        task := queues[w][0];
        queues := queues[w := queues[w][1..]];
      }
    }

    // One turn of Scheduler_Sync at worker v + 1, after the workers have popped
    // for a while. A stolen task runs on main and may allocate from its
    // transient arena.
    method SyncTurn(v: nat, pops: seq<nat>, requests: seq<Request>) returns (ok: bool, task: Entry)
      requires Valid() && v < workers && Within(transientArena.State()) && AllSane(requests)
      modifies this`queues, this`popped, transientArena
      ensures Valid() && Within(transientArena.State())
      ensures transientArena.State()
           == if ok then Apply(growth, Heap(old(transientArena.State()), []), Scope(requests)).arena
              else old(transientArena.State())
      ensures transientArena.offset == old(transientArena.offset)
      ensures forall w | 0 <= w < workers ::
                Taken(ok && w == v, task) + (queues[w] + popped[w]) == old(queues)[w] + old(popped)[w]
      ensures Shrunk(old(queues), queues)
      ensures if ok then TotalLength(queues) < TotalLength(old(queues))
              else queues[v] == [] && TotalLength(queues) <= TotalLength(old(queues))
    {
      WorkersRun(pops);
      TotalLengthMonotone(old(queues), queues);
      ghost var before := queues;
      ok, task := Steal(v);
      if ok {
        TotalLengthMonotone(before, queues);
        assert [task] + (queues[v] + popped[v]) == before[v] + popped[v];
        transientArena.RunScoped(growth, requests);
      }
    }

    // One round of the loop of Scheduler_Sync.
    method SyncLap(stolen: seq<seq<Entry>>, visits: seq<Visit>, workerIx: nat, consecutiveEmptyQueues: nat,
                   pops: seq<nat>, bodies: nat -> seq<Request>, ghost all: seq<seq<Entry>>, ghost before: Arena)
      returns (stolen': seq<seq<Entry>>, visits': seq<Visit>, workerIx': nat, consecutiveEmptyQueues': nat)
      requires Valid() && |stolen| == workers && Within(before) && forall k :: AllSane(bodies(k))
      requires transientArena.State() == AfterStolen(growth, before, bodies, visits)
      requires SyncInv(stolen, queues, popped, all, visits, workerIx, consecutiveEmptyQueues)
      requires consecutiveEmptyQueues <= workers
      modifies this`queues, this`popped, transientArena
      ensures Valid() && |stolen'| == workers
      ensures SyncInv(stolen', queues, popped, all, visits', workerIx', consecutiveEmptyQueues')
      ensures |visits'| == |visits| + 1 && visits'[..|visits|] == visits
      ensures transientArena.State() == AfterStolen(growth, before, bodies, visits')
      ensures if visits'[|visits|].got
              then consecutiveEmptyQueues' == 0 && TotalLength(queues) < TotalLength(old(queues))
              else consecutiveEmptyQueues' == consecutiveEmptyQueues + 1
                   && TotalLength(queues) <= TotalLength(old(queues))
    {
      ghost var qs, ps := queues, popped;
      var ok, task := SyncTurn(workerIx - 1, pops, bodies(|visits|));
      AfterStolenNext(growth, before, bodies, visits, Visit(workerIx, ok));
      SyncInvNext(stolen, qs, ps, queues, popped, all, visits, workerIx, consecutiveEmptyQueues, ok, task);
      if ok {
        stolen' := stolen[workerIx - 1 := stolen[workerIx - 1] + [task]];
        consecutiveEmptyQueues' := 0;
      } else {
        stolen' := stolen;
        consecutiveEmptyQueues' := consecutiveEmptyQueues + 1;
      }
      visits' := visits + [Visit(workerIx, ok)];
      workerIx' := Next(workerIx, workers);
    }

    // Scheduler_Sync against workers that keep popping: `pops(k)` are their
    // pops before main's k-th turn, `bodies(k)` the allocations of the task
    // stolen in turn k. `stolen[w]` is what main took from worker w + 1, and
    // `visits` the turns in order.
    method Sync(pops: nat -> seq<nat>, bodies: nat -> seq<Request>)
      returns (stolen: seq<seq<Entry>>, visits: seq<Visit>)
      requires Valid() && Within(transientArena.State()) && forall k :: AllSane(bodies(k))
      modifies this`queues, this`popped, transientArena
      ensures Valid()
      ensures forall w | 0 <= w < workers :: queues[w] == []
      ensures |stolen| == workers
      ensures forall w | 0 <= w < workers :: stolen[w] + popped[w] == old(queues)[w] + old(popped)[w]
      ensures OnWalk(visits, workers) && Failures(visits) == workers + 1
      ensures forall w | 0 <= w < workers :: |stolen[w]| == Successes(visits, w + 1)
      ensures transientArena.State() == AfterStolen(growth, old(transientArena.State()), bodies, visits)
      ensures transientArena.offset == old(transientArena.offset)
    {
      visits := [];
      stolen := seq(workers, w => []);
      ghost var before := transientArena.State();
      var workerIx, consecutiveEmptyQueues: nat := 1, 0;
      ghost var all := Joined(queues, popped);
      SyncInvStart(queues, popped, stolen, all);
      while consecutiveEmptyQueues < workers + 1
        invariant Valid() && |stolen| == workers
        invariant consecutiveEmptyQueues <= workers + 1
        invariant SyncInv(stolen, queues, popped, all, visits, workerIx, consecutiveEmptyQueues)
        invariant transientArena.State() == AfterStolen(growth, before, bodies, visits)
        decreases TotalLength(queues), workers + 1 - consecutiveEmptyQueues
      {
        stolen, visits, workerIx, consecutiveEmptyQueues :=
          SyncLap(stolen, visits, workerIx, consecutiveEmptyQueues, pops(|visits|), bodies, all, before);
      }
      StolenKeepOffset(growth, before, bodies, visits);
      SyncInvDone(stolen, queues, popped, all, visits, workerIx);
    }
  }

  function Taken(yes: bool, task: Entry): seq<Entry> {
    if yes then [task] else []
  }

  const COUNTER_RANGE: nat := 0x1_0000_0000

  // A uint32_t after k decrements.
  function CountedDown(c: nat, k: nat): (r: nat)
    requires c < COUNTER_RANGE
    ensures r < COUNTER_RANGE
  {
    if k == 0 then c
    else
      var r := CountedDown(c, k - 1);
      if r == 0 then COUNTER_RANGE - 1 else r - 1
  }

  // The counter reaches zero after exactly as many decrements as it held.
  lemma {:induction false} CountedDownExact(c: nat, k: nat)
    requires k <= c < COUNTER_RANGE
    ensures CountedDown(c, k) == c - k
  {
    if k == 0 {
    } else {
      CountedDownExact(c, k - 1);
    }
  }

  predicate Shrunk(qs: seq<seq<Entry>>, rs: seq<seq<Entry>>) {
    |rs| == |qs| && forall w | 0 <= w < |qs| :: |rs[w]| <= |qs[w]|
  }

  ghost function Joined(qs: seq<seq<Entry>>, rs: seq<seq<Entry>>): (r: seq<seq<Entry>>)
    requires |qs| == |rs|
    ensures |r| == |qs| && forall w | 0 <= w < |qs| :: r[w] == qs[w] + rs[w]
  {
    seq(|qs|, w requires 0 <= w < |qs| => qs[w] + rs[w])
  }

  // Main's, the queues' and the workers' parts make up each initial queue.
  ghost predicate Balanced(stolen: seq<seq<Entry>>, qs: seq<seq<Entry>>, popped: seq<seq<Entry>>,
                           all: seq<seq<Entry>>) {
    && |stolen| == |qs| == |popped| == |all|
    && forall w | 0 <= w < |all| :: stolen[w] + qs[w] + popped[w] == all[w]
  }

  lemma BalancedNext(stolen: seq<seq<Entry>>, qs: seq<seq<Entry>>, popped: seq<seq<Entry>>,
                     qs': seq<seq<Entry>>, popped': seq<seq<Entry>>, all: seq<seq<Entry>>,
                     v: nat, ok: bool, task: Entry)
    requires Balanced(stolen, qs, popped, all) && |qs'| == |popped'| == |qs| && v < |qs|
    requires forall w | 0 <= w < |qs| :: Taken(ok && w == v, task) + (qs'[w] + popped'[w]) == qs[w] + popped[w]
    ensures Balanced(if ok then stolen[v := stolen[v] + [task]] else stolen, qs', popped', all)
  {
    forall w | 0 <= w < |all|
      ensures (stolen[w] + Taken(ok && w == v, task)) + qs'[w] + popped'[w] == all[w]
    {
      assert (stolen[w] + Taken(ok && w == v, task)) + qs'[w] + popped'[w]
          == stolen[w] + (Taken(ok && w == v, task) + (qs'[w] + popped'[w]));
      assert stolen[w] + qs[w] + popped[w] == stolen[w] + (qs[w] + popped[w]);
    }
    if !ok {
      forall w | 0 <= w < |all|
        ensures stolen[w] + qs'[w] + popped'[w] == all[w]
      {
        assert stolen[w] + Taken(false, task) == stolen[w];
      }
    } else {
      forall w | 0 <= w < |all| && w != v
        ensures stolen[w] + qs'[w] + popped'[w] == all[w]
      {
        assert stolen[w] + Taken(false, task) == stolen[w];
      }
    }
  }

  // Queues visited since the last success are empty; any other lies within
  // the visits to come.
  predicate Covered(qs: seq<seq<Entry>>, ix: nat, empties: nat)
    requires 1 <= ix <= |qs|
  {
    forall w | 0 <= w < |qs| :: qs[w] == [] || Distance(ix, w + 1, |qs|) + empties < |qs|
  }

  lemma CoveredNext(qs: seq<seq<Entry>>, rs: seq<seq<Entry>>, ix: nat, empties: nat, ok: bool)
    requires 1 <= ix <= |qs| && Shrunk(qs, rs) && Covered(qs, ix, empties)
    requires ok || rs[ix - 1] == []
    ensures Covered(rs, Next(ix, |qs|), if ok then 0 else empties + 1)
  {
    forall w | 0 <= w < |rs|
      ensures rs[w] == [] || Distance(Next(ix, |rs|), w + 1, |rs|) + (if ok then 0 else empties + 1) < |rs|
    {
      assert |rs[w]| <= |qs[w]|;
      NextDistance(ix, w + 1, |qs|);
    }
  }

  // What the loop of Scheduler_Sync keeps.
  ghost predicate SyncInv(stolen: seq<seq<Entry>>, qs: seq<seq<Entry>>, popped: seq<seq<Entry>>,
                          all: seq<seq<Entry>>, visits: seq<Visit>, ix: nat, empties: nat) {
    && Balanced(stolen, qs, popped, all) && 1 <= ix <= |qs|
    && Covered(qs, ix, empties) && Logged(visits, stolen, ix, empties)
  }

  lemma SyncInvStart(qs: seq<seq<Entry>>, popped: seq<seq<Entry>>, stolen: seq<seq<Entry>>, all: seq<seq<Entry>>)
    requires |qs| == |popped| == |stolen| == |all| >= 1
    requires forall w | 0 <= w < |qs| :: stolen[w] == [] && all[w] == qs[w] + popped[w]
    ensures SyncInv(stolen, qs, popped, all, [], 1, 0)
  {
    forall w | 0 <= w < |qs|
      ensures stolen[w] + qs[w] + popped[w] == all[w]
    {
      assert [] + qs[w] == qs[w];
    }
  }

  // At the end every queue is empty.
  lemma SyncInvDone(stolen: seq<seq<Entry>>, qs: seq<seq<Entry>>, popped: seq<seq<Entry>>,
                    all: seq<seq<Entry>>, visits: seq<Visit>, ix: nat)
    requires SyncInv(stolen, qs, popped, all, visits, ix, |qs| + 1)
    ensures forall w | 0 <= w < |qs| :: qs[w] == [] && stolen[w] + popped[w] == all[w]
  {
    forall w | 0 <= w < |qs|
      ensures qs[w] == [] && stolen[w] + popped[w] == all[w]
    {
      assert stolen[w] + [] == stolen[w];
    }
  }

  lemma SyncInvNext(stolen: seq<seq<Entry>>, qs: seq<seq<Entry>>, popped: seq<seq<Entry>>,
                    qs': seq<seq<Entry>>, popped': seq<seq<Entry>>, all: seq<seq<Entry>>,
                    visits: seq<Visit>, ix: nat, empties: nat, ok: bool, task: Entry)
    requires SyncInv(stolen, qs, popped, all, visits, ix, empties) && empties <= |qs|
    requires |popped'| == |popped| && Shrunk(qs, qs') && (ok || qs'[ix - 1] == [])
    requires forall w | 0 <= w < |qs| :: Taken(ok && w == ix - 1, task) + (qs'[w] + popped'[w]) == qs[w] + popped[w]
    ensures SyncInv(if ok then stolen[ix - 1 := stolen[ix - 1] + [task]] else stolen, qs', popped', all,
                    visits + [Visit(ix, ok)], Next(ix, |qs|), if ok then 0 else empties + 1)
  {
    BalancedNext(stolen, qs, popped, qs', popped', all, ix - 1, ok, task);
    CoveredNext(qs, qs', ix, empties, ok);
    LoggedNext(visits, stolen, ix, empties, ok, task);
  }
}
