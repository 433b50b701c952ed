// Modular walks over the workers: the index arithmetic shared by the batch
// distribution and by the draining loop.
module RoundRobin {
  import opened Bits

  // workerIx = 1 + (workerIx % g_WorkerCount)
  function Next(ix: nat, workers: nat): (r: nat)
    requires 1 <= ix <= workers
    ensures 1 <= r <= workers
    ensures r == if ix == workers then 1 else ix + 1
  {
    if ix < workers then assert ix % workers == ix; 1 + ix % workers else 1 + ix % workers
  }

  // Turns until the walk standing at `from` reaches `to`.
  function Distance(from: nat, to: nat, workers: nat): (d: nat)
    requires 1 <= from <= workers && 1 <= to <= workers
    ensures d < workers
  {
    if from <= to then to - from else to + workers - from
  }

  lemma NextDistance(ix: nat, to: nat, workers: nat)
    requires 1 <= ix <= workers && 1 <= to <= workers
    ensures Distance(Next(ix, workers), to, workers) == if to == ix then workers - 1 else Distance(ix, to, workers) - 1
  {
  }

  // Where the walk stands after k turns.
  function Walk(ix: nat, k: nat, workers: nat): (r: nat)
    requires 1 <= ix <= workers
    ensures 1 <= r <= workers
  {
    if k == 0 then ix else Next(Walk(ix, k - 1, workers), workers)
  }

  // Any `workers` consecutive turns visit every worker exactly once.
  lemma {:induction false} WalkVisitsOnce(ix: nat, to: nat, k: nat, workers: nat)
    requires 1 <= ix <= workers && 1 <= to <= workers && k < workers
    ensures Walk(ix, k, workers) == to <==> k == Distance(ix, to, workers)
  {
    WalkPosition(ix, k, workers);
  }

  lemma {:induction false} WalkPosition(ix: nat, k: nat, workers: nat)
    requires 1 <= ix <= workers && k < workers
    ensures Walk(ix, k, workers) == if ix + k <= workers then ix + k else ix + k - workers
  {
    if k == 0 {
    } else {
      WalkPosition(ix, k - 1, workers);
    }
  }

  // ------------------------------------------------------ the draining loop

  // One completed attempt to steal: from worker ix, successful or not.
  datatype Visit = Visit(ix: nat, got: bool)

  // Unsuccessful visits since the last successful one.
  function Failures(visits: seq<Visit>): nat {
    if visits == [] || visits[|visits| - 1].got then 0 else Failures(visits[..|visits| - 1]) + 1
  }

  function Successes(visits: seq<Visit>, ix: nat): nat {
    if visits == [] then 0
    else
      Successes(visits[..|visits| - 1], ix)
      + if visits[|visits| - 1].got && visits[|visits| - 1].ix == ix then 1 else 0
  }

  lemma SuccessesNext(visits: seq<Visit>, visit: Visit)
    ensures forall ix :: Successes(visits + [visit], ix)
                      == Successes(visits, ix) + if visit.got && visit.ix == ix then 1 else 0
  {
    assert (visits + [visit])[..|visits|] == visits;
  }

  // The walk of Scheduler_Sync: round robin from worker 1, one worker on after
  // every visit, never beyond workers + 1 unsuccessful visits in a row.
  predicate OnWalk(visits: seq<Visit>, workers: nat)
    requires workers >= 1
  {
    && (forall k | 0 <= k < |visits| :: visits[k].ix == Walk(1, k, workers))
    && (forall k | 0 <= k < |visits| :: Failures(visits[..k]) <= workers)
  }

  lemma WalkGrows(visits: seq<Visit>, got: bool, workers: nat)
    requires workers >= 1 && OnWalk(visits, workers) && Failures(visits) <= workers
    ensures var more := visits + [Visit(Walk(1, |visits|, workers), got)];
            && OnWalk(more, workers)
            && Failures(more) == (if got then 0 else Failures(visits) + 1)
            && Walk(1, |more|, workers) == Next(Walk(1, |visits|, workers), workers)
  {
    var more := visits + [Visit(Walk(1, |visits|, workers), got)];
    assert more[..|visits|] == visits;
    forall k | 0 <= k < |more|
      ensures Failures(more[..k]) <= workers
    {
      assert more[..k] == visits[..k];
      if k == |visits| { assert visits[..k] == visits; }
    }
  }

  // ------------------------------------------------- distribution of a batch

  // The part of a batch offered to worker w (counting from 0), in order: task
  // i goes to worker i mod `workers`.
  function Share<T>(batch: seq<T>, w: nat, workers: nat): seq<T>
    requires w < workers
  {
    if batch == [] then []
    else
      var n := |batch| - 1;
      Share(batch[..n], w, workers) + if n % workers == w then [batch[n]] else []
  }

  function ShareSize(n: nat, w: nat, workers: nat): nat
    requires w < workers
  {
    n / workers + if w < n % workers then 1 else 0
  }

  lemma ShareSizeStep(n: nat, w: nat, workers: nat)
    requires w < workers
    ensures ShareSize(n + 1, w, workers) == ShareSize(n, w, workers) + if n % workers == w then 1 else 0
    ensures n % workers == w ==> ShareSize(n, w, workers) == n / workers
  {
    var q, r := n / workers, n % workers;
    assert n == workers * q + r;
    if r + 1 < workers {
      DivModUnique(n + 1, workers, q, r + 1);
    } else {
      assert workers * (q + 1) == workers * q + workers;
      DivModUnique(n + 1, workers, q + 1, 0);
    }
  }

  // Every share has floor(n/W) tasks or one more.
  lemma {:induction false} ShareLength<T>(batch: seq<T>, w: nat, workers: nat)
    requires w < workers
    ensures |Share(batch, w, workers)| == ShareSize(|batch|, w, workers)
  {
    if batch == [] {
      DivModUnique(0, workers, 0, 0);
    } else {
      ShareLength(batch[..|batch| - 1], w, workers);
      ShareSizeStep(|batch| - 1, w, workers);
    }
  }

  lemma ShareEnd(n: nat, w: nat, workers: nat, j: nat)
    requires w < workers && n % workers == w && j == n / workers
    ensures w + j * workers == n
  {
    assert n == workers * (n / workers) + n % workers;
  }

  // The j-th task of worker w's share is the batch's task w + j*W.
  lemma {:induction false} ShareAt<T>(batch: seq<T>, w: nat, workers: nat, j: nat)
    requires w < workers && j < |Share(batch, w, workers)|
    ensures w + j * workers < |batch| && Share(batch, w, workers)[j] == batch[w + j * workers]
  {
    var n := |batch| - 1;
    if j < |Share(batch[..n], w, workers)| {
      ShareAt(batch[..n], w, workers, j);
    } else {
      ShareLength(batch[..n], w, workers);
      ShareSizeStep(n, w, workers);
      ShareEnd(n, w, workers, j);
    }
  }

  // All shares together.
  function AllShares<T>(batch: seq<T>, upTo: nat, workers: nat): multiset<T>
    requires upTo <= workers
  {
    if upTo == 0 then multiset{} else AllShares(batch, upTo - 1, workers) + multiset(Share(batch, upTo - 1, workers))
  }

  lemma {:induction false} AllSharesStep<T>(batch: seq<T>, upTo: nat, workers: nat)
    requires batch != [] && upTo <= workers
    ensures AllShares(batch, upTo, workers)
         == AllShares(batch[..|batch| - 1], upTo, workers)
            + if upTo > 0 && (|batch| - 1) % workers < upTo then multiset{batch[|batch| - 1]} else multiset{}
  {
    if upTo == 0 {
    } else {
      AllSharesStep(batch, upTo - 1, workers);
    }
  }

  lemma OneMoreShared<T>(batch: seq<T>, workers: nat)
    requires workers >= 1 && batch != []
    ensures AllShares(batch, workers, workers)
         == AllShares(batch[..|batch| - 1], workers, workers) + multiset{batch[|batch| - 1]}
  {
    AllSharesStep(batch, workers, workers);
  }

  lemma LastElement<T>(batch: seq<T>)
    requires batch != []
    ensures multiset(batch) == multiset(batch[..|batch| - 1]) + multiset{batch[|batch| - 1]}
  {
    assert batch == batch[..|batch| - 1] + [batch[|batch| - 1]];
  }

  // The shares partition the batch: every task is offered exactly once.
  lemma {:induction false} SharesPartition<T>(batch: seq<T>, workers: nat)
    requires workers >= 1
    ensures AllShares(batch, workers, workers) == multiset(batch)
  {
    if batch == [] {
      NoShares<T>(workers, workers);
    } else {
      var n := |batch| - 1;
      SharesPartition(batch[..n], workers);
      OneMoreShared(batch, workers);
      LastElement(batch);
    }
  }

  lemma {:induction false} NoShares<T>(upTo: nat, workers: nat)
    requires upTo <= workers
    ensures AllShares<T>([], upTo, workers) == multiset{}
  {
    if upTo == 0 {
    } else {
      NoShares<T>(upTo - 1, workers);
    }
  }
}
