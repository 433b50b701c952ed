// One batch from ProcessTaskBatch to the return of Sync, with the workers
// running WorkerProc all along: sleeping, being woken, popping, decrementing
// the dependency counter. Each queue operation is one atomic step, and the
// counter is bound to every queue.
module BatchProtocol {
  import opened DequeHistory
  import opened DequeMachine
  import opened TaskQueues
  import opened RoundRobin
  import S = Scheduler

  // WorkerProc, by what the worker does next.
  datatype Worker =
    | Polling                   // pop
    | Running(task: Entry)      // run the task
    | Finished(task: Entry)     // decrement the counter
    | Drowsy                    // store isAsleep = true
    | Rechecking                // look at the queue once more; only the repaired loop does
    | Waiting                   // wait for the semaphore
    | Woken                     // store isAsleep = false

  datatype Main =
    | Storing                           // store the length into the counter
    | Offering(i: nat)                  // push task i, or leave the loop
    | Looking(i: nat)                   // load isAsleep of task i's worker
    | Turn(ix: nat, empties: nat)       // Sync's loop test and steal
    | RunningStolen(ix: nat)            // run what was stolen from worker ix
    | Returned

  // What became of the tasks offered to one worker.
  datatype Books = Books(done: seq<Entry>, inline: seq<Entry>, stolen: seq<Entry>)

  // `recheck` selects the worker loop: false as written, true with a second
  // look at the queue after announcing the sleep.
  datatype State = State(
    batch: seq<Entry>, size: nat, guard: Guard, recheck: bool,
    queues: seq<seq<Entry>>, workers: seq<Worker>, asleep: seq<bool>, semaphores: seq<nat>,
    count: nat, books: seq<Books>, main: Main)
  {
    function Workers(): nat { |workers| }

    predicate Valid() {
      && |workers| == |queues| == |asleep| == |semaphores| == |books| >= 1
      && size >= 1
      && (main.Offering? ==> main.i <= |batch|)
      && (main.Looking? ==> main.i < |batch|)
      && (main.Turn? || main.RunningStolen? ==> 1 <= main.ix <= Workers())
    }

    // How many tasks have been offered so far.
    function Offered(): nat {
      match main
      case Storing => 0
      case Offering(i) => i
      case Looking(i) => i + 1
      case _ => |batch|
    }
  }

  const COUNTER_RANGE: nat := S.COUNTER_RANGE

  // fetch_sub(1) on a uint32_t.
  function Decrement(c: nat): nat {
    if c == 0 then COUNTER_RANGE - 1 else c - 1
  }

  predicate SameSetup(s: State, r: State) {
    r.batch == s.batch && r.size == s.size && r.guard == s.guard && r.recheck == s.recheck
  }

  function MainStep(s: State): (r: State)
    requires s.Valid()
    ensures r.Valid() && r.Workers() == s.Workers() && SameSetup(s, r)
  {
    match s.main
    case Storing => s.(count := |s.batch| % COUNTER_RANGE, main := Offering(0))
    case Offering(i) =>
      if i == |s.batch| then s.(main := Turn(1, 0))
      else
        var t, e := S.Target(i, s.Workers()), s.batch[i];
        if Full(s.guard, |s.queues[t]|, 0, s.size) then
          s.(books := s.books[t := s.books[t].(inline := s.books[t].inline + [e])], main := Looking(i))
        else
          s.(queues := s.queues[t := Accept(s.queues[t], e, s.size)], main := Looking(i))
    case Looking(i) =>
      var t := S.Target(i, s.Workers());
      s.(semaphores := if s.asleep[t] then s.semaphores[t := s.semaphores[t] + 1] else s.semaphores,
          main := Offering(i + 1))
    case Turn(ix, k) =>
      var q := s.queues[ix - 1];
      if k >= s.Workers() + 1 then s.(main := Returned)
      else if q == [] then s.(main := Turn(Next(ix, s.Workers()), k + 1))
      else s.(queues := s.queues[ix - 1 := q[1..]],
              books := s.books[ix - 1 := s.books[ix - 1].(stolen := s.books[ix - 1].stolen + [q[0]])],
              main := RunningStolen(ix))
    case RunningStolen(ix) => s.(main := Turn(Next(ix, s.Workers()), 0))
    case Returned => s
  }

  function WorkerStep(s: State, w: nat): (r: State)
    requires s.Valid() && w < s.Workers()
    ensures r.Valid() && r.Workers() == s.Workers() && r.main == s.main
    ensures SameSetup(s, r)
  {
    match s.workers[w]
    case Polling =>
      var q := s.queues[w];
      if q == [] then s.(workers := s.workers[w := Drowsy])
      else s.(queues := s.queues[w := q[..|q| - 1]], workers := s.workers[w := Running(q[|q| - 1])])
    case Running(e) => s.(workers := s.workers[w := Finished(e)])
    case Finished(e) =>
      s.(count := Decrement(s.count), books := s.books[w := s.books[w].(done := s.books[w].done + [e])],
         workers := s.workers[w := Polling])
    case Drowsy =>
      s.(asleep := s.asleep[w := true], workers := s.workers[w := if s.recheck then Rechecking else Waiting])
    case Rechecking => s.(workers := s.workers[w := if s.queues[w] == [] then Waiting else Woken])
    case Waiting =>
      if s.semaphores[w] == 0 then s
      else s.(semaphores := s.semaphores[w := s.semaphores[w] - 1], workers := s.workers[w := Woken])
    case Woken => s.(asleep := s.asleep[w := false], workers := s.workers[w := Polling])
  }

  datatype Action = MainAct | WorkerAct(w: nat)

  function Step(s: State, a: Action): (r: State)
    requires s.Valid()
    ensures r.Valid() && r.Workers() == s.Workers() && SameSetup(s, r)
  {
    match a
    case MainAct => MainStep(s)
    case WorkerAct(w) => if w < s.Workers() then WorkerStep(s, w) else s
  }

  function Exec(s: State, acts: seq<Action>): (r: State)
    requires s.Valid()
    ensures r.Valid() && r.Workers() == s.Workers() && SameSetup(s, r)
  {
    if acts == [] then s else Step(Exec(s, acts[..|acts| - 1]), acts[|acts| - 1])
  }

  // ---------------------------------------------------------------- starting

  predicate Holds(p: Worker) { p.Running? || p.Finished? }

  // The worker has announced its sleep and not yet its waking.
  predicate Announced(p: Worker) { p.Rechecking? || p.Waiting? || p.Woken? }

  predicate FlagInv(s: State, w: nat)
    requires s.Valid() && w < s.Workers()
  {
    s.asleep[w] <==> Announced(s.workers[w])
  }

  // A batch is about to start: the queues are empty, the workers anywhere in
  // their loops, with any number of stale signals.
  predicate Fresh(s: State) {
    && s.Valid() && s.main == Storing
    && forall w | 0 <= w < s.Workers() ::
         s.queues[w] == [] && s.books[w] == Books([], [], []) && FlagInv(s, w)
  }

  // Besides, no worker still holds a task of an earlier batch.
  predicate Quiescent(s: State) {
    Fresh(s) && forall w | 0 <= w < s.Workers() :: !Holds(s.workers[w])
  }

  // Pushes never meet an exactly full ring: always so with the repaired guard,
  // and as written if no worker is offered more than its ring holds.
  predicate Roomy(s: State)
    requires s.Valid()
  {
    s.guard.Repaired? || forall w | 0 <= w < s.Workers() :: |Share(s.batch, w, s.Workers())| <= s.size
  }

  // ---------------------------------------------------------------- invariant

  function OfferedTo(s: State, w: nat): seq<Entry>
    requires s.Valid() && w < s.Workers() && s.Offered() <= |s.batch|
  {
    Share(s.batch[..s.Offered()], w, s.Workers())
  }

  function Held(p: Worker): seq<Entry> {
    if Holds(p) then [p.task] else []
  }

  // Copies of x among worker w's tasks, wherever they are.
  function Tally(s: State, w: nat, x: Entry): nat
    requires s.Valid() && w < s.Workers()
  {
    Holding(s.queues[w], x) + Holding(Held(s.workers[w]), x)
    + Holding(s.books[w].done, x) + Holding(s.books[w].inline, x) + Holding(s.books[w].stolen, x)
  }

  // Tasks of worker w that did not end in a counter decrement.
  function Undecremented(s: State, w: nat): nat
    requires s.Valid() && w < s.Workers()
  {
    |s.queues[w]| + |Held(s.workers[w])| + |s.books[w].inline| + |s.books[w].stolen|
  }

  // Every copy of x offered to worker w is in exactly one place.
  predicate Tallied(s: State, w: nat, x: Entry)
    requires s.Valid() && w < s.Workers()
  {
    Tally(s, w, x) == Holding(OfferedTo(s, w), x)
  }

  predicate WorkerInv(s: State, w: nat)
    requires s.Valid() && w < s.Workers()
  {
    && Undecremented(s, w) + |s.books[w].done| == |OfferedTo(s, w)|
    && FlagInv(s, w)
  }

  function Completed(books: seq<Books>): nat {
    if books == [] then 0 else Completed(books[..|books| - 1]) + |books[|books| - 1].done|
  }

  ghost predicate Draining(s: State)
    requires s.Valid()
  {
    match s.main
    case Turn(ix, k) => S.Covered(s.queues, ix, k)
    case RunningStolen(ix) => s.books[ix - 1].stolen != []
    case Returned => forall w | 0 <= w < s.Workers() :: s.queues[w] == []
    case _ => true
  }

  ghost predicate CounterInv(s: State) {
    !s.main.Storing? ==>
      && s.count < COUNTER_RANGE
      && (s.count + Completed(s.books)) % COUNTER_RANGE == |s.batch| % COUNTER_RANGE
  }

  ghost predicate Inv(s: State) {
    && s.Valid()
    && (forall w | 0 <= w < s.Workers() :: WorkerInv(s, w))
    && Draining(s)
    && CounterInv(s)
    && (s.main.Storing? ==> Completed(s.books) == 0)
  }

  lemma HoldingParts(q: seq<Entry>, x: Entry)
    requires q != []
    ensures Holding(q, x) == Holding(q[..|q| - 1], x) + if q[|q| - 1] == x then 1 else 0
    ensures Holding(q, x) == Holding(q[1..], x) + if q[0] == x then 1 else 0
  {
    assert q == q[..|q| - 1] + [q[|q| - 1]];
    assert q == [q[0]] + q[1..];
  }

  lemma HoldingSnoc(q: seq<Entry>, e: Entry, x: Entry)
    ensures Holding(q + [e], x) == Holding(q, x) + if e == x then 1 else 0
  {
  }

  lemma {:induction false} CompletedUpdate(books: seq<Books>, w: nat, b: Books)
    requires w < |books|
    ensures Completed(books[w := b]) == Completed(books) - |books[w].done| + |b.done|
  {
    var n := |books| - 1;
    if w == n {
      assert books[w := b][..n] == books[..n];
    } else {
      assert books[w := b][..n] == books[..n][w := b];
      CompletedUpdate(books[..n], w, b);
    }
  }

  // ------------------------------------------------------------- worker steps

  lemma OtherWorkerFrame(s: State, v: nat, w: nat)
    requires s.Valid() && v < s.Workers() && w < s.Workers() && v != w
    ensures var r := WorkerStep(s, v);
            && r.queues[w] == s.queues[w] && r.workers[w] == s.workers[w]
            && r.books[w] == s.books[w] && r.asleep[w] == s.asleep[w]
  {
  }

  lemma WorkerStepKeepsWorker(s: State, v: nat, w: nat)
    requires s.Valid() && v < s.Workers() && w < s.Workers() && WorkerInv(s, w)
    ensures WorkerInv(WorkerStep(s, v), w)
  {
    assert OfferedTo(WorkerStep(s, v), w) == OfferedTo(s, w);
    if v != w { OtherWorkerFrame(s, v, w); }
  }

  lemma SameTally(s: State, r: State, w: nat, x: Entry)
    requires s.Valid() && r.Valid() && w < s.Workers() && w < r.Workers()
    requires r.queues[w] == s.queues[w] && r.workers[w] == s.workers[w] && r.books[w] == s.books[w]
    ensures Tally(r, w, x) == Tally(s, w, x)
  {
  }

  lemma IdleFrame(s: State, v: nat, w: nat)
    requires s.Valid() && v < s.Workers() && w < s.Workers()
    requires v == w ==> !s.workers[w].Finished? && (s.workers[w].Polling? ==> s.queues[w] == [])
    ensures var r := WorkerStep(s, v);
            r.queues[w] == s.queues[w] && Held(r.workers[w]) == Held(s.workers[w]) && r.books[w] == s.books[w]
  {
  }

  lemma IdleKeepsTally(s: State, v: nat, w: nat, x: Entry)
    requires s.Valid() && v < s.Workers() && w < s.Workers()
    requires v == w ==> !s.workers[w].Finished? && (s.workers[w].Polling? ==> s.queues[w] == [])
    ensures Tally(WorkerStep(s, v), w, x) == Tally(s, w, x)
  {
    IdleFrame(s, v, w);
  }

  lemma PopKeepsTally(s: State, w: nat, x: Entry)
    requires s.Valid() && w < s.Workers() && s.workers[w].Polling? && s.queues[w] != []
    ensures Tally(WorkerStep(s, w), w, x) == Tally(s, w, x)
  {
    var q, r := s.queues[w], WorkerStep(s, w);
    HoldingParts(q, x);
    assert r.queues[w] == q[..|q| - 1] && Held(r.workers[w]) == [q[|q| - 1]] && Held(s.workers[w]) == [];
    assert r.books[w] == s.books[w];
  }

  lemma FinishKeepsTally(s: State, w: nat, x: Entry)
    requires s.Valid() && w < s.Workers() && s.workers[w].Finished?
    ensures Tally(WorkerStep(s, w), w, x) == Tally(s, w, x)
  {
    var e, r := s.workers[w].task, WorkerStep(s, w);
    HoldingSnoc(s.books[w].done, e, x);
    assert r.queues[w] == s.queues[w] && Held(r.workers[w]) == [] && Held(s.workers[w]) == [e];
    assert r.books[w].done == s.books[w].done + [e];
  }

  lemma WorkerStepKeepsTally(s: State, v: nat, w: nat, x: Entry)
    requires s.Valid() && v < s.Workers() && w < s.Workers() && Tallied(s, w, x)
    ensures Tallied(WorkerStep(s, v), w, x)
  {
    assert OfferedTo(WorkerStep(s, v), w) == OfferedTo(s, w);
    if v == w && s.workers[w].Polling? && s.queues[w] != [] {
      PopKeepsTally(s, w, x);
    } else if v == w && s.workers[w].Finished? {
      FinishKeepsTally(s, w, x);
    } else {
      IdleKeepsTally(s, v, w, x);
    }
  }

  lemma DecrementMod(c: nat, done: nat, total: nat)
    requires c < COUNTER_RANGE && (c + done) % COUNTER_RANGE == total % COUNTER_RANGE
    ensures Decrement(c) < COUNTER_RANGE && (Decrement(c) + done + 1) % COUNTER_RANGE == total % COUNTER_RANGE
  {
  }

  lemma WorkerStepKeepsCounter(s: State, v: nat)
    requires s.Valid() && v < s.Workers() && CounterInv(s)
    ensures CounterInv(WorkerStep(s, v))
  {
    if s.workers[v].Finished? && !s.main.Storing? {
      var r := WorkerStep(s, v);
      CompletedUpdate(s.books, v, r.books[v]);
      DecrementMod(s.count, Completed(s.books), |s.batch|);
    }
  }

  lemma WorkerStepKeepsDraining(s: State, v: nat)
    requires s.Valid() && v < s.Workers() && Draining(s)
    ensures Draining(WorkerStep(s, v))
  {
  }

  lemma WorkerStepKeepsInv(s: State, v: nat)
    requires Inv(s) && v < s.Workers()
    ensures Inv(WorkerStep(s, v))
  {
    assert WorkerInv(s, v);
    WorkerStepKeepsCounter(s, v);
    WorkerStepKeepsDraining(s, v);
    CompletedUpdate(s.books, v, WorkerStep(s, v).books[v]);
    assert s.books[v := s.books[v]] == s.books;
    forall w | 0 <= w < s.Workers()
      ensures WorkerInv(WorkerStep(s, v), w)
    {
      WorkerStepKeepsWorker(s, v, w);
    }
  }

  // --------------------------------------------------------------- main steps

  // A push that is accepted does not meet an exactly full ring.
  predicate PushFits(s: State)
    requires s.Valid()
  {
    s.main.Offering? && s.main.i < |s.batch| ==>
      var q := s.queues[S.Target(s.main.i, s.Workers())];
      !Full(s.guard, |q|, 0, s.size) ==> |q| < s.size
  }

  lemma PushHasRoom(s: State)
    requires Inv(s) && Roomy(s)
    ensures PushFits(s)
  {
    if s.main.Offering? && s.main.i < |s.batch| {
      var i, t := s.main.i, S.Target(s.main.i, s.Workers());
      assert WorkerInv(s, t);
      S.ShareNext(s.batch, i, t, s.Workers());
      S.SharePrefix(s.batch, i + 1, t, s.Workers());
    }
  }

  lemma AcceptAddsOne(q: seq<Entry>, e: Entry, n: nat)
    ensures |Accept(q, e, n)| == |q| + 1
  {
  }

  lemma OfferKeepsTarget(s: State)
    requires s.Valid() && s.main.Offering? && s.main.i < |s.batch|
    requires WorkerInv(s, S.Target(s.main.i, s.Workers()))
    ensures WorkerInv(MainStep(s), S.Target(s.main.i, s.Workers()))
  {
    var w := S.Target(s.main.i, s.Workers());
    S.ShareNext(s.batch, s.main.i, w, s.Workers());
    AcceptAddsOne(s.queues[w], s.batch[s.main.i], s.size);
    assert |OfferedTo(MainStep(s), w)| == |OfferedTo(s, w)| + 1;
  }

  lemma OfferKeepsOther(s: State, w: nat)
    requires s.Valid() && s.main.Offering? && s.main.i < |s.batch|
    requires w < s.Workers() && w != S.Target(s.main.i, s.Workers()) && WorkerInv(s, w)
    ensures WorkerInv(MainStep(s), w)
  {
    assert OfferedTo(MainStep(s), w) == OfferedTo(s, w) by { S.ShareNext(s.batch, s.main.i, w, s.Workers()); }
    MainFrame(s, w);
  }

  lemma MainStepKeepsWorker(s: State, w: nat)
    requires s.Valid() && w < s.Workers() && WorkerInv(s, w)
    ensures WorkerInv(MainStep(s), w)
  {
    if s.main.Offering? && s.main.i < |s.batch| {
      if w == S.Target(s.main.i, s.Workers()) { OfferKeepsTarget(s); } else { OfferKeepsOther(s, w); }
    } else {
      assert MainStep(s).Offered() == s.Offered();
    }
  }

  lemma InlineKeepsTally(s: State, r: State, w: nat, e: Entry, x: Entry)
    requires s.Valid() && r.Valid() && w < s.Workers() && w < r.Workers()
    requires r.queues[w] == s.queues[w] && r.workers[w] == s.workers[w]
    requires r.books[w] == s.books[w].(inline := s.books[w].inline + [e])
    ensures Tally(r, w, x) == Tally(s, w, x) + if e == x then 1 else 0
  {
    HoldingSnoc(s.books[w].inline, e, x);
  }

  lemma QueuedKeepsTally(s: State, r: State, w: nat, e: Entry, x: Entry)
    requires s.Valid() && r.Valid() && w < s.Workers() && w < r.Workers()
    requires r.queues[w] == s.queues[w] + [e] && r.workers[w] == s.workers[w] && r.books[w] == s.books[w]
    ensures Tally(r, w, x) == Tally(s, w, x) + if e == x then 1 else 0
  {
    HoldingSnoc(s.queues[w], e, x);
  }

  predicate OffersTo(s: State, w: nat)
    requires s.Valid() && w < s.Workers()
  {
    s.main.Offering? && s.main.i < |s.batch| && S.Target(s.main.i, s.Workers()) == w
  }

  // Copies of x that main's next access offers to worker w.
  function Arriving(s: State, w: nat, x: Entry): nat
    requires s.Valid() && w < s.Workers()
  {
    if OffersTo(s, w) && s.batch[s.main.i] == x then 1 else 0
  }

  lemma OfferAddsToTally(s: State, w: nat, x: Entry)
    requires s.Valid() && PushFits(s) && w < s.Workers() && OffersTo(s, w)
    ensures Tally(MainStep(s), w, x) == Tally(s, w, x) + Arriving(s, w, x)
  {
    var e, r := s.batch[s.main.i], MainStep(s);
    if Full(s.guard, |s.queues[w]|, 0, s.size) {
      InlineKeepsTally(s, r, w, e, x);
    } else {
      QueuedKeepsTally(s, r, w, e, x);
    }
  }

  lemma OfferMoves(s: State)
    requires s.Valid() && s.main.Offering? && s.main.i < |s.batch|
    ensures MainStep(s).main == Looking(s.main.i)
  {
  }

  lemma SharesGrow(batch: seq<Entry>, i: nat, w: nat, workers: nat, x: Entry)
    requires i < |batch| && w < workers
    ensures Holding(Share(batch[..i + 1], w, workers), x)
         == Holding(Share(batch[..i], w, workers), x) + if S.Target(i, workers) == w && batch[i] == x then 1 else 0
  {
    S.ShareNext(batch, i, w, workers);
    HoldingSnoc(Share(batch[..i], w, workers), batch[i], x);
  }

  lemma OfferGrowsShare(s: State, w: nat, x: Entry)
    requires s.Valid() && w < s.Workers() && s.main.Offering? && s.main.i < |s.batch|
    ensures Holding(OfferedTo(MainStep(s), w), x) == Holding(OfferedTo(s, w), x) + Arriving(s, w, x)
  {
    OfferMoves(s);
    SharesGrow(s.batch, s.main.i, w, s.Workers(), x);
  }

  lemma MainStepOffered(s: State, w: nat, x: Entry)
    requires s.Valid() && w < s.Workers()
    ensures Holding(OfferedTo(MainStep(s), w), x) == Holding(OfferedTo(s, w), x) + Arriving(s, w, x)
  {
    if s.main.Offering? && s.main.i < |s.batch| {
      OfferGrowsShare(s, w, x);
    } else {
      assert MainStep(s).Offered() == s.Offered();
    }
  }

  lemma StealKeepsTally(s: State, x: Entry)
    requires s.Valid() && s.main.Turn? && s.main.empties <= s.Workers() && s.queues[s.main.ix - 1] != []
    ensures Tally(MainStep(s), s.main.ix - 1, x) == Tally(s, s.main.ix - 1, x)
  {
    var w, r := s.main.ix - 1, MainStep(s);
    var q := s.queues[w];
    HoldingParts(q, x);
    HoldingSnoc(s.books[w].stolen, q[0], x);
    assert r.queues[w] == q[1..] && r.books[w].stolen == s.books[w].stolen + [q[0]];
  }

  predicate StealsFrom(s: State, w: nat)
    requires s.Valid() && w < s.Workers()
  {
    s.main.Turn? && s.main.empties <= s.Workers() && s.queues[s.main.ix - 1] != [] && s.main.ix - 1 == w
  }

  lemma MainFrame(s: State, w: nat)
    requires s.Valid() && w < s.Workers() && !OffersTo(s, w) && !StealsFrom(s, w)
    ensures var r := MainStep(s); r.queues[w] == s.queues[w] && r.workers[w] == s.workers[w] && r.books[w] == s.books[w]
  {
  }

  lemma MainStepTally(s: State, w: nat, x: Entry)
    requires s.Valid() && PushFits(s) && w < s.Workers()
    ensures Tally(MainStep(s), w, x) == Tally(s, w, x) + Arriving(s, w, x)
  {
    if OffersTo(s, w) {
      OfferAddsToTally(s, w, x);
    } else if StealsFrom(s, w) {
      StealKeepsTally(s, x);
    } else {
      MainFrame(s, w);
      SameTally(s, MainStep(s), w, x);
    }
  }

  lemma MainStepKeepsTally(s: State, w: nat, x: Entry)
    requires s.Valid() && PushFits(s) && w < s.Workers() && Tallied(s, w, x)
    ensures Tallied(MainStep(s), w, x)
  {
    MainStepOffered(s, w, x);
    MainStepTally(s, w, x);
  }

  lemma {:induction false} SameCompleted(books: seq<Books>, books': seq<Books>)
    requires |books| == |books'| && forall w | 0 <= w < |books| :: books[w].done == books'[w].done
    ensures Completed(books) == Completed(books')
  {
    if books == [] {
    } else {
      SameCompleted(books[..|books| - 1], books'[..|books| - 1]);
    }
  }

  lemma MainStepKeepsCounter(s: State)
    requires Inv(s)
    ensures CounterInv(MainStep(s))
  {
    SameCompleted(s.books, MainStep(s).books);
  }

  lemma MainStepKeepsDraining(s: State)
    requires s.Valid() && Draining(s)
    ensures Draining(MainStep(s))
  {
    match s.main
    case Turn(ix, k) =>
      if k < s.Workers() + 1 && s.queues[ix - 1] == [] {
        S.CoveredNext(s.queues, s.queues, ix, k, false);
      }
    case _ =>
  }

  lemma MainStepKeepsInv(s: State)
    requires Inv(s)
    ensures Inv(MainStep(s))
  {
    MainStepKeepsCounter(s);
    MainStepKeepsDraining(s);
    forall w | 0 <= w < s.Workers()
      ensures WorkerInv(MainStep(s), w)
    {
      MainStepKeepsWorker(s, w);
    }
  }

  lemma QuiescentInv(s: State)
    requires Quiescent(s)
    ensures Inv(s)
  {
    NothingCompleted(s.books);
  }

  lemma {:induction false} NothingCompleted(books: seq<Books>)
    requires forall w | 0 <= w < |books| :: books[w].done == []
    ensures Completed(books) == 0
  {
    if books == [] {
    } else {
      NothingCompleted(books[..|books| - 1]);
    }
  }

  // ------------------------------------------------------------------- runs

  lemma {:induction false} RunKeepsInv(s: State, acts: seq<Action>)
    requires Quiescent(s)
    ensures Inv(Exec(s, acts))
  {
    if acts == [] {
      QuiescentInv(s);
    } else {
      RunKeepsInv(s, acts[..|acts| - 1]);
      var m := Exec(s, acts[..|acts| - 1]);
      match acts[|acts| - 1]
      case MainAct => MainStepKeepsInv(m);
      case WorkerAct(w) => if w < m.Workers() { WorkerStepKeepsInv(m, w); }
    }
  }

  lemma {:induction false} RunKeepsTally(s: State, acts: seq<Action>, w: nat, x: Entry)
    requires Quiescent(s) && Roomy(s) && w < s.Workers()
    ensures Tallied(Exec(s, acts), w, x)
  {
    if acts == [] {
    } else {
      RunKeepsTally(s, acts[..|acts| - 1], w, x);
      RunKeepsInv(s, acts[..|acts| - 1]);
      var m := Exec(s, acts[..|acts| - 1]);
      match acts[|acts| - 1]
      case MainAct =>
        PushHasRoom(m);
        MainStepKeepsTally(m, w, x);
      case WorkerAct(v) => if v < m.Workers() { WorkerStepKeepsTally(m, v, w, x); }
    }
  }

  // For every interleaving, wakeups missed or not: when Sync returns, each
  // task of each worker's share has been completed by the worker, is the one
  // the worker is just running, was run inline or was stolen; exactly one of
  // these, and the queues are empty.
  lemma EveryTaskClaimedOnce(s: State, acts: seq<Action>, w: nat, x: Entry)
    requires Quiescent(s) && Roomy(s) && w < s.Workers() && Exec(s, acts).main.Returned?
    ensures var r := Exec(s, acts); var b := r.books[w];
            && r.queues[w] == []
            && Holding(Share(s.batch, w, s.Workers()), x)
            == Holding(Held(r.workers[w]), x) + Holding(b.done, x) + Holding(b.inline, x) + Holding(b.stolen, x)
  {
    RunKeepsInv(s, acts);
    RunKeepsTally(s, acts, w, x);
    assert s.batch[..|s.batch|] == s.batch;
  }

  // ----------------------------------------------------- dependency counter

  // All offered tasks without a decrement: queued, held, run by main.
  function Open(s: State, upTo: nat): nat
    requires s.Valid() && upTo <= s.Workers()
  {
    if upTo == 0 then 0 else Open(s, upTo - 1) + Undecremented(s, upTo - 1)
  }

  lemma {:induction false} OfferedIsSum(s: State, upTo: nat)
    requires s.Valid() && upTo <= s.Workers() && forall w | 0 <= w < upTo :: WorkerInv(s, w)
    ensures |AllShares(s.batch[..s.Offered()], upTo, s.Workers())| == Open(s, upTo) + Completed(s.books[..upTo])
  {
    if upTo == 0 {
    } else {
      OfferedIsSum(s, upTo - 1);
      assert WorkerInv(s, upTo - 1);
      assert s.books[..upTo][..upTo - 1] == s.books[..upTo - 1];
    }
  }

  lemma OfferedSplits(s: State)
    requires Inv(s)
    ensures s.Offered() == Open(s, s.Workers()) + Completed(s.books)
  {
    OfferedIsSum(s, s.Workers());
    SharesPartition(s.batch[..s.Offered()], s.Workers());
    assert s.books[..s.Workers()] == s.books;
  }

  lemma CounterAt(r: State)
    requires Inv(r) && !r.main.Storing? && |r.batch| < COUNTER_RANGE
    ensures r.count + Completed(r.books) == |r.batch|
    ensures r.count == (|r.batch| - r.Offered()) + Open(r, r.Workers())
  {
    OfferedSplits(r);
    SmallMod(r.count, Completed(r.books), |r.batch|);
  }

  // In every state after the store, for batches a uint32_t can count: the
  // counter is the batch length minus the tasks completed by workers. It never
  // falls below the tasks that lack a decrement, and zero means that workers
  // have completed the whole batch.
  lemma CounterIsExact(s: State, acts: seq<Action>)
    requires Quiescent(s) && |s.batch| < COUNTER_RANGE
    requires !Exec(s, acts).main.Storing?
    ensures var r := Exec(s, acts);
            && r.count + Completed(r.books) == |s.batch|
            && r.count == (|s.batch| - r.Offered()) + Open(r, r.Workers())
            && (r.count == 0 ==> r.Offered() == Completed(r.books) == |s.batch|)
  {
    RunKeepsInv(s, acts);
    CounterAt(Exec(s, acts));
  }

  lemma SmallMod(c: nat, done: nat, total: nat)
    requires c < COUNTER_RANGE && done <= total < COUNTER_RANGE
    requires (c + done) % COUNTER_RANGE == total % COUNTER_RANGE
    ensures c + done == total
  {
    assert total % COUNTER_RANGE == total;
  }

  // Once Sync has returned, what is left in the counter is exactly the inline,
  // the stolen and the still held tasks.
  lemma ResidueAfterSync(s: State, acts: seq<Action>)
    requires Quiescent(s) && |s.batch| < COUNTER_RANGE
    requires Exec(s, acts).main.Returned?
    ensures var r := Exec(s, acts);
            && r.count == Open(r, r.Workers())
            && forall w | 0 <= w < r.Workers() ::
                 Undecremented(r, w) == |Held(r.workers[w])| + |r.books[w].inline| + |r.books[w].stolen|
  {
    CounterIsExact(s, acts);
    RunKeepsInv(s, acts);
  }

  lemma ExecNext(s: State, acts: seq<Action>, i: nat)
    requires s.Valid() && i < |acts|
    ensures Exec(s, acts[..i + 1]) == Step(Exec(s, acts[..i]), acts[i])
  {
    assert acts[..i + 1][..i] == acts[..i];
  }

  lemma {:induction false} ExecConcat(s: State, a: seq<Action>, b: seq<Action>)
    requires s.Valid()
    ensures Exec(s, a + b) == Exec(Exec(s, a), b)
  {
    if b == [] {
      assert a + b == a;
    } else {
      ExecConcat(s, a, b[..|b| - 1]);
      assert (a + b)[..|a + b| - 1] == a + b[..|b| - 1];
    }
  }

  lemma ExecTwo(s: State, a: seq<Action>)
    requires s.Valid() && |a| == 2
    ensures Exec(s, a) == Step(Step(s, a[0]), a[1])
  {
    ExecNext(s, a, 0); ExecNext(s, a, 1);
    assert a[..0] == [] && a[..2] == a;
  }

  lemma ExecThree(s: State, a: seq<Action>)
    requires s.Valid() && |a| == 3
    ensures Exec(s, a) == Step(Step(Step(s, a[0]), a[1]), a[2])
  {
    ExecTwo(s, a[..2]);
    ExecNext(s, a, 2);
    assert a[..3] == a;
  }

  lemma ExecFive(s: State, a: seq<Action>)
    requires s.Valid() && |a| == 5
    ensures Exec(s, a) == Step(Step(Step(Step(Step(s, a[0]), a[1]), a[2]), a[3]), a[4])
  {
    ExecThree(s, a[..3]);
    ExecNext(s, a, 3); ExecNext(s, a, 4);
    assert a[..5] == a;
  }

  // ------------------------------------------------- one batch after another

  // The next call of ProcessTaskBatch.
  function NextBatch(s: State, batch: seq<Entry>): State {
    s.(batch := batch, books := seq(s.Workers(), i => Books([], [], [])), main := Storing)
  }

  lemma {:induction false} RunDrains(s: State, acts: seq<Action>)
    requires Fresh(s)
    ensures Draining(Exec(s, acts))
  {
    if acts == [] {
    } else {
      RunDrains(s, acts[..|acts| - 1]);
      var m := Exec(s, acts[..|acts| - 1]);
      match acts[|acts| - 1]
      case MainAct => MainStepKeepsDraining(m);
      case WorkerAct(v) => if v < m.Workers() { WorkerStepKeepsDraining(m, v); }
    }
  }

  lemma StepKeepsFlag(s: State, a: Action, w: nat)
    requires s.Valid() && w < s.Workers() && FlagInv(s, w)
    ensures FlagInv(Step(s, a), w)
  {
    if a.MainAct? {
      assert MainStep(s).workers == s.workers && MainStep(s).asleep == s.asleep;
    }
  }

  lemma {:induction false} RunKeepsFlag(s: State, acts: seq<Action>, w: nat)
    requires Fresh(s) && w < s.Workers()
    ensures FlagInv(Exec(s, acts), w)
  {
    if acts == [] {
    } else {
      RunKeepsFlag(s, acts[..|acts| - 1], w);
      StepKeepsFlag(Exec(s, acts[..|acts| - 1]), acts[|acts| - 1], w);
    }
  }

  // Whatever the workers are still doing, a batch ends where the next can
  // start, with its queues drained.
  lemma NextBatchIsFresh(s: State, acts: seq<Action>, batch: seq<Entry>)
    requires Fresh(s) && Exec(s, acts).main.Returned?
    ensures Fresh(NextBatch(Exec(s, acts), batch))
  {
    RunDrains(s, acts);
    var n := NextBatch(Exec(s, acts), batch);
    forall w | 0 <= w < n.Workers()
      ensures n.queues[w] == [] && n.books[w] == Books([], [], []) && FlagInv(n, w)
    {
      RunKeepsFlag(s, acts, w);
    }
  }

  // The worker is still busy with the task it held when the batch began.
  predicate OnLeftover(s: State, r: State, w: nat)
    requires s.Valid() && r.Valid() && w < s.Workers() == r.Workers()
  {
    Holds(s.workers[w]) && r.books[w].done == []
  }

  // Tasks offered to worker w in the batch begun in s that have not run to
  // their end in r: queued, running on the worker, or running on main.
  function UnfinishedOf(s: State, r: State, w: nat): nat
    requires s.Valid() && r.Valid() && w < s.Workers() == r.Workers()
  {
    |r.queues[w]|
    + (if r.workers[w].Running? && !OnLeftover(s, r, w) then 1 else 0)
    + (if r.main == RunningStolen(w + 1) then 1 else 0)
  }

  function UnfinishedUpTo(s: State, r: State, upTo: nat): nat
    requires s.Valid() && r.Valid() && upTo <= s.Workers() == r.Workers()
  {
    if upTo == 0 then 0 else UnfinishedUpTo(s, r, upTo - 1) + UnfinishedOf(s, r, upTo - 1)
  }

  // The whole batch: those, and what is still to be offered.
  function Unfinished(s: State, r: State): int
    requires s.Valid() && r.Valid() && s.Workers() == r.Workers()
  {
    |r.batch| - r.Offered() + UnfinishedUpTo(s, r, s.Workers())
  }

  // After the run the counter is not below the batch's unfinished tasks, so
  // that zero means they are all done.
  predicate CounterCovers(s: State, acts: seq<Action>)
    requires s.Valid()
  {
    var r := Exec(s, acts);
    !r.main.Storing? ==> Unfinished(s, r) <= r.count
  }

  lemma {:induction false} UnfinishedBelowOpen(s: State, r: State, upTo: nat)
    requires s.Valid() && Inv(r) && upTo <= s.Workers() == r.Workers()
    ensures UnfinishedUpTo(s, r, upTo) <= Open(r, upTo)
  {
    if upTo == 0 {
    } else {
      UnfinishedBelowOpen(s, r, upTo - 1);
      assert UnfinishedOf(s, r, upTo - 1) <= Undecremented(r, upTo - 1);
    }
  }

  lemma QuiescentCounterCovers(s: State, acts: seq<Action>)
    requires Quiescent(s) && |s.batch| < COUNTER_RANGE
    ensures CounterCovers(s, acts)
  {
    var r := Exec(s, acts);
    if !r.main.Storing? {
      RunKeepsInv(s, acts);
      CounterIsExact(s, acts);
      UnfinishedBelowOpen(s, r, s.Workers());
    }
  }

  // Main stores the length and the worker gets rid of the task it holds.
  function LeftoverRun(s: State, w: nat): seq<Action>
    requires w < s.Workers()
  {
    if s.workers[w].Running? then [MainAct, WorkerAct(w), WorkerAct(w)] else [MainAct, WorkerAct(w)]
  }

  lemma LeftoverDecrements(s: State, m: State, w: nat)
    requires s.Valid() && m.Valid() && w < s.Workers() == m.Workers()
    requires m.main == Offering(0) && m.workers[w].Finished? && 0 < m.count <= |m.batch|
    ensures var r := WorkerStep(m, w);
            r.main == Offering(0) && r.count == m.count - 1 && Unfinished(s, r) >= |m.batch|
  {
  }

  function AfterLeftover(s: State, w: nat): (r: State)
    requires s.Valid() && w < s.Workers()
    ensures r.Valid() && r.Workers() == s.Workers()
  {
    var m := WorkerStep(MainStep(s), w);
    if s.workers[w].Running? then WorkerStep(m, w) else m
  }

  lemma LeftoverRunIs(s: State, w: nat)
    requires s.Valid() && w < s.Workers()
    ensures Exec(s, LeftoverRun(s, w)) == AfterLeftover(s, w)
  {
    if s.workers[w].Running? { ExecThree(s, LeftoverRun(s, w)); } else { ExecTwo(s, LeftoverRun(s, w)); }
  }

  lemma AfterLeftoverIsShort(s: State, w: nat)
    requires s.Valid() && s.main == Storing && w < s.Workers() && Holds(s.workers[w])
    requires 0 < |s.batch| < COUNTER_RANGE
    ensures var r := AfterLeftover(s, w);
            r.main == Offering(0) && r.count == |s.batch| - 1 && Unfinished(s, r) >= |s.batch|
  {
    var m := MainStep(s);
    assert m.main == Offering(0) && m.count == |s.batch| && m.workers == s.workers;
    if s.workers[w].Running? {
      LeftoverDecrements(s, WorkerStep(m, w), w);
    } else {
      LeftoverDecrements(s, m, w);
    }
  }

  // A task left over from an earlier batch takes one off the counter: before
  // the new batch is even offered, the count is one short of its length.
  lemma LeftoverTaskCorruptsCounter(s: State, w: nat)
    requires s.Valid() && s.main == Storing && w < s.Workers() && Holds(s.workers[w])
    requires 0 < |s.batch| < COUNTER_RANGE
    ensures var r := Exec(s, LeftoverRun(s, w)); r.count == |s.batch| - 1 && r.main == Offering(0)
    ensures !CounterCovers(s, LeftoverRun(s, w))
  {
    LeftoverRunIs(s, w);
    AfterLeftoverIsShort(s, w);
  }

  lemma LongBatchOverflowsCounter(s: State)
    requires Fresh(s) && |s.batch| >= COUNTER_RANGE
    ensures !CounterCovers(s, [MainAct])
  {
    assert [MainAct][..0] == [];
    assert Exec(s, [MainAct]) == MainStep(s);
  }

  // With nothing to offer, workers only finish what they held.
  ghost predicate Unoffered(s: State, r: State)
    requires s.Valid() && r.Valid() && s.Workers() == r.Workers()
  {
    && r.batch == [] && !r.main.RunningStolen?
    && forall w | 0 <= w < s.Workers() :: r.queues[w] == [] && (Holds(r.workers[w]) ==> OnLeftover(s, r, w))
  }

  lemma StepOffersNothing(s: State, r: State, a: Action)
    requires s.Valid() && r.Valid() && s.Workers() == r.Workers() && Unoffered(s, r)
    ensures Unoffered(s, Step(r, a))
  {
    if a.MainAct? { MainOffersNothing(s, r); }
  }

  lemma MainOffersNothing(s: State, r: State)
    requires s.Valid() && r.Valid() && s.Workers() == r.Workers() && Unoffered(s, r)
    ensures Unoffered(s, MainStep(r))
  {
    assert MainStep(r).workers == r.workers && MainStep(r).queues == r.queues && MainStep(r).books == r.books;
  }

  lemma {:induction false} EmptyBatchRuns(s: State, acts: seq<Action>)
    requires Fresh(s) && s.batch == []
    ensures Unoffered(s, Exec(s, acts))
  {
    if acts == [] {
    } else {
      EmptyBatchRuns(s, acts[..|acts| - 1]);
      StepOffersNothing(s, Exec(s, acts[..|acts| - 1]), acts[|acts| - 1]);
    }
  }

  lemma {:induction false} NothingUnfinished(s: State, r: State, upTo: nat)
    requires s.Valid() && r.Valid() && upTo <= s.Workers() == r.Workers() && Unoffered(s, r)
    ensures UnfinishedUpTo(s, r, upTo) == 0
  {
    if upTo == 0 {
    } else {
      NothingUnfinished(s, r, upTo - 1);
    }
  }

  lemma EmptyBatchCovers(s: State, acts: seq<Action>)
    requires Fresh(s) && s.batch == []
    ensures CounterCovers(s, acts)
  {
    EmptyBatchRuns(s, acts);
    NothingUnfinished(s, Exec(s, acts), s.Workers());
  }

  // The counter can be relied on in every run exactly if the batch is one a
  // uint32_t can count and no worker still holds a task of an earlier batch.
  lemma CounterCoversIff(s: State)
    requires Fresh(s)
    ensures (forall acts :: CounterCovers(s, acts)) <==> s.batch == [] || (Quiescent(s) && |s.batch| < COUNTER_RANGE)
  {
    if s.batch == [] {
      forall acts
        ensures CounterCovers(s, acts)
      {
        EmptyBatchCovers(s, acts);
      }
    } else if |s.batch| >= COUNTER_RANGE {
      LongBatchOverflowsCounter(s);
    } else if Quiescent(s) {
      forall acts
        ensures CounterCovers(s, acts)
      {
        QuiescentCounterCovers(s, acts);
      }
    } else {
      var w :| 0 <= w < s.Workers() && Holds(s.workers[w]);
      LeftoverTaskCorruptsCounter(s, w);
    }
  }

  // Store, push, look, leave the loop; the worker pops; three turns of Sync.
  function BusyRun(): seq<Action> {
    [MainAct, MainAct, MainAct, MainAct, WorkerAct(0)] + [MainAct, MainAct, MainAct]
  }

  lemma PoppedBeforeSync(s: State, e: Entry)
    requires Quiescent(s) && s.batch == [e] && s.Workers() == 1 && s.workers[0] == Polling
    ensures var m := WorkerStep(MainStep(MainStep(MainStep(MainStep(s)))), 0);
            m.main == Turn(1, 0) && m.queues[0] == [] && m.workers[0] == Running(e)
  {
    var s1 := MainStep(s);
    var s2 := MainStep(s1);
    assert s2.queues[0] == [e] && s2.main == Looking(0) && s2.workers[0] == Polling;
    var s4 := MainStep(MainStep(s2));
    assert s4.main == Turn(1, 0) && s4.queues[0] == [e] && s4.workers[0] == Polling;
  }

  lemma EmptySync(m: State)
    requires m.Valid() && m.Workers() == 1 && m.main == Turn(1, 0) && m.queues[0] == []
    ensures var r := MainStep(MainStep(MainStep(m))); r.main.Returned? && r.workers == m.workers
  {
  }

  lemma BusyRunIs(s: State)
    requires s.Valid()
    ensures Exec(s, BusyRun())
            == MainStep(MainStep(MainStep(WorkerStep(MainStep(MainStep(MainStep(MainStep(s)))), 0))))
  {
    var a, b := [MainAct, MainAct, MainAct, MainAct, WorkerAct(0)], [MainAct, MainAct, MainAct];
    var m := WorkerStep(MainStep(MainStep(MainStep(MainStep(s)))), 0);
    assert Exec(s, a) == m by { ExecFive(s, a); }
    assert Exec(m, b) == MainStep(MainStep(MainStep(m))) by { ExecThree(m, b); }
    ExecConcat(s, a, b);
  }

  lemma BusyRunReturns(s: State, e: Entry)
    requires Quiescent(s) && s.batch == [e] && s.Workers() == 1 && s.workers[0] == Polling
    ensures var r := Exec(s, BusyRun()); r.main.Returned? && r.workers[0] == Running(e)
  {
    BusyRunIs(s);
    PoppedBeforeSync(s, e);
    EmptySync(WorkerStep(MainStep(MainStep(MainStep(MainStep(s)))), 0));
  }

  // Such a start is what Sync leaves behind: main finds the queue empty while
  // the worker is still running the task it popped.
  lemma SyncReturnsOverRunningTask(s: State, e: Entry, batch: seq<Entry>)
    requires Quiescent(s) && s.batch == [e] && s.Workers() == 1 && s.workers[0] == Polling
    requires batch != []
    ensures var r := Exec(s, BusyRun());
            && r.main.Returned? && Held(r.workers[0]) == [e]
            && Fresh(NextBatch(r, batch)) && exists acts :: !CounterCovers(NextBatch(r, batch), acts)
  {
    BusyRunReturns(s, e);
    NextBatchIsFresh(s, BusyRun(), batch);
    var n := NextBatch(Exec(s, BusyRun()), batch);
    assert Holds(n.workers[0]);
    CounterCoversIff(n);
  }

  // ---------------------------------------------------------- missed wakeups

  // Waiting without a signal: only main's next look at it can wake the worker.
  predicate Stuck(s: State, w: nat)
    requires s.Valid() && w < s.Workers()
  {
    s.workers[w].Waiting? && s.semaphores[w] == 0
  }

  // Main has pushed onto worker w's queue and is about to look at it.
  predicate LooksAt(s: State, w: nat)
    requires s.Valid() && w < s.Workers()
  {
    s.main.Looking? && S.Target(s.main.i, s.Workers()) == w
  }

  // The wakeup is lost: the worker waits over a task and nobody will signal it.
  predicate Missed(s: State, w: nat)
    requires s.Valid() && w < s.Workers()
  {
    Stuck(s, w) && s.queues[w] != [] && !LooksAt(s, w)
  }

  // The worker is about to announce its sleep over a task, too late for main.
  predicate DozingOnWork(s: State, w: nat)
    requires s.Valid() && w < s.Workers()
  {
    s.workers[w].Drowsy? && s.queues[w] != [] && s.semaphores[w] == 0 && !LooksAt(s, w)
  }

  predicate EverMissed(s: State, acts: seq<Action>, w: nat)
    requires s.Valid() && w < s.Workers()
  {
    Missed(Exec(s, acts), w) || (acts != [] && EverMissed(s, acts[..|acts| - 1], w))
  }

  predicate EverDozedOnWork(s: State, acts: seq<Action>, w: nat)
    requires s.Valid() && w < s.Workers()
  {
    acts != [] &&
    var front := acts[..|acts| - 1];
    EverDozedOnWork(s, front, w) || (acts[|acts| - 1] == WorkerAct(w) && DozingOnWork(Exec(s, front), w))
  }

  lemma MainMissesNothing(m: State, w: nat)
    requires m.Valid() && w < m.Workers() && FlagInv(m, w) && Missed(MainStep(m), w)
    ensures Missed(m, w)
  {
  }

  lemma WorkerMissesIff(m: State, v: nat, w: nat)
    requires m.Valid() && v < m.Workers() && w < m.Workers()
    ensures !(v == w && m.workers[w].Drowsy?) && Missed(WorkerStep(m, v), w) ==> Missed(m, w)
    ensures v == w && m.workers[w].Drowsy? ==> (Missed(WorkerStep(m, v), w) <==> !m.recheck && DozingOnWork(m, w))
  {
  }

  // In every run of the loop as written a wakeup is missed exactly if at some
  // point the worker announces its sleep over a nonempty queue, with no signal
  // and no look of main's to come. With a second look at the queue none is.
  lemma {:induction false} WakeupMissedIff(s: State, acts: seq<Action>, w: nat)
    requires Fresh(s) && w < s.Workers()
    ensures EverMissed(s, acts, w) <==> !s.recheck && EverDozedOnWork(s, acts, w)
  {
    if acts == [] {
    } else {
      var front, a := acts[..|acts| - 1], acts[|acts| - 1];
      var m := Exec(s, front);
      WakeupMissedIff(s, front, w);
      RunKeepsFlag(s, front, w);
      match a
      case MainAct => if Missed(MainStep(m), w) { MainMissesNothing(m, w); }
      case WorkerAct(v) => if v < m.Workers() { WorkerMissesIff(m, v, w); }
    }
  }

  // ------------------------------------------------- the same by access order

  predicate PushesTo(s: State, w: nat)
    requires s.Valid() && w < s.Workers()
  {
    OffersTo(s, w) && !Full(s.guard, |s.queues[w]|, 0, s.size)
  }

  // How many tasks main has pushed onto worker w's queue, and stolen from it,
  // since the worker's last access.
  function PushedSince(s: State, acts: seq<Action>, w: nat): nat
    requires s.Valid() && w < s.Workers()
  {
    if acts == [] || acts[|acts| - 1] == WorkerAct(w) then 0
    else
      var front := acts[..|acts| - 1];
      PushedSince(s, front, w) + if acts[|acts| - 1].MainAct? && PushesTo(Exec(s, front), w) then 1 else 0
  }

  function StolenSince(s: State, acts: seq<Action>, w: nat): nat
    requires s.Valid() && w < s.Workers()
  {
    if acts == [] || acts[|acts| - 1] == WorkerAct(w) then 0
    else
      var front := acts[..|acts| - 1];
      StolenSince(s, front, w) + if acts[|acts| - 1].MainAct? && StealsFrom(Exec(s, front), w) then 1 else 0
  }

  // Since then main has also looked at the worker, and offered it nothing later.
  predicate LookedSince(s: State, acts: seq<Action>, w: nat)
    requires s.Valid() && w < s.Workers()
  {
    if acts == [] || acts[|acts| - 1] == WorkerAct(w) then false
    else
      var front := acts[..|acts| - 1];
      if acts[|acts| - 1].MainAct? && LooksAt(Exec(s, front), w) then true
      else if acts[|acts| - 1].MainAct? && OffersTo(Exec(s, front), w) then false
      else LookedSince(s, front, w)
  }

  // The worker's next access is its store of isAsleep, the last one was its pop
  // of an empty queue, and in between fall main's push and main's look, without
  // the task being stolen again. No older signal is waiting.
  predicate SleptThrough(s: State, acts: seq<Action>, w: nat)
    requires s.Valid() && w < s.Workers()
  {
    && Exec(s, acts).workers[w].Drowsy? && Exec(s, acts).semaphores[w] == 0
    && PushedSince(s, acts, w) > StolenSince(s, acts, w)
    && LookedSince(s, acts, w)
  }

  predicate EverSleptThrough(s: State, acts: seq<Action>, w: nat)
    requires s.Valid() && w < s.Workers()
  {
    acts != [] &&
    var front := acts[..|acts| - 1];
    EverSleptThrough(s, front, w) || (acts[|acts| - 1] == WorkerAct(w) && SleptThrough(s, front, w))
  }

  lemma MainChangesQueue(m: State, w: nat)
    requires m.Valid() && w < m.Workers()
    ensures |MainStep(m).queues[w]| + (if StealsFrom(m, w) then 1 else 0)
            == |m.queues[w]| + (if PushesTo(m, w) then 1 else 0)
    ensures MainStep(m).workers[w] == m.workers[w]
  {
  }

  lemma DrowsyOnEmpty(m: State, w: nat)
    requires m.Valid() && w < m.Workers() && WorkerStep(m, w).workers[w].Drowsy?
    ensures WorkerStep(m, w).queues[w] == []
  {
  }

  // While the worker is about to announce its sleep its queue holds what main
  // pushed and did not steal back since the failed pop.
  lemma {:induction false} DrowsyQueue(s: State, acts: seq<Action>, w: nat)
    requires Fresh(s) && w < s.Workers() && Exec(s, acts).workers[w].Drowsy?
    ensures |Exec(s, acts).queues[w]| + StolenSince(s, acts, w) == PushedSince(s, acts, w)
  {
    if acts == [] {
    } else {
      var front := acts[..|acts| - 1];
      var m := Exec(s, front);
      match acts[|acts| - 1]
      case MainAct =>
        MainChangesQueue(m, w);
        DrowsyQueue(s, front, w);
      case WorkerAct(v) =>
        if v == w {
          DrowsyOnEmpty(m, w);
        } else {
          if v < m.Workers() { OtherWorkerFrame(m, v, w); }
          DrowsyQueue(s, front, w);
        }
    }
  }

  lemma OfferThenLook(m: State, w: nat)
    requires m.Valid() && w < m.Workers()
    ensures LooksAt(MainStep(m), w) <==> OffersTo(m, w)
  {
  }

  // A push is followed by main's look, which is either still to come or was
  // the last main did for the worker.
  lemma {:induction false} LookFollowsPush(s: State, acts: seq<Action>, w: nat)
    requires Fresh(s) && w < s.Workers()
    ensures PushedSince(s, acts, w) > 0 ==> (LookedSince(s, acts, w) <==> !LooksAt(Exec(s, acts), w))
    ensures LookedSince(s, acts, w) ==> !LooksAt(Exec(s, acts), w)
  {
    if acts == [] {
    } else {
      var front := acts[..|acts| - 1];
      LookFollowsPush(s, front, w);
      if acts[|acts| - 1].MainAct? { OfferThenLook(Exec(s, front), w); }
    }
  }

  lemma SleptThroughIff(s: State, acts: seq<Action>, w: nat)
    requires Fresh(s) && w < s.Workers()
    ensures SleptThrough(s, acts, w) <==> DozingOnWork(Exec(s, acts), w)
  {
    LookFollowsPush(s, acts, w);
    if Exec(s, acts).workers[w].Drowsy? { DrowsyQueue(s, acts, w); }
  }

  lemma {:induction false} DozedIffSleptThrough(s: State, acts: seq<Action>, w: nat)
    requires Fresh(s) && w < s.Workers()
    ensures EverDozedOnWork(s, acts, w) <==> EverSleptThrough(s, acts, w)
  {
    if acts == [] {
    } else {
      var front := acts[..|acts| - 1];
      DozedIffSleptThrough(s, front, w);
      SleptThroughIff(s, front, w);
    }
  }

  // So the order of accesses decides: a run of the loop as written misses a
  // wakeup exactly if main's push and look both fall between a worker's empty
  // pop and its store of isAsleep.
  lemma WakeupMissedByOrder(s: State, acts: seq<Action>, w: nat)
    requires Fresh(s) && w < s.Workers()
    ensures EverMissed(s, acts, w) <==> !s.recheck && EverSleptThrough(s, acts, w)
  {
    WakeupMissedIff(s, acts, w);
    DozedIffSleptThrough(s, acts, w);
  }

  // In other words: after any run of the repaired loop a worker that waits
  // unsignalled over a nonempty queue is one main is about to look at.
  lemma RecheckMissesNoWakeup(s: State, acts: seq<Action>, w: nat)
    requires Fresh(s) && s.recheck && w < s.Workers()
    ensures var r := Exec(s, acts); Stuck(r, w) && r.queues[w] != [] ==> LooksAt(r, w)
  {
    WakeupMissedIff(s, acts, w);
  }

  // When the worker last announced that it sleeps, its queue held a task.
  predicate DozedOffOnWork(s: State, acts: seq<Action>, w: nat)
    requires s.Valid() && w < s.Workers()
  {
    if acts == [] then false
    else
      var front := acts[..|acts| - 1];
      var m := Exec(s, front);
      if acts[|acts| - 1] == WorkerAct(w) && m.workers[w].Drowsy? then m.queues[w] != []
      else DozedOffOnWork(s, front, w)
  }

  // A worker that misses its wakeup does so since its latest announcement:
  // the queue was nonempty then.
  lemma {:induction false} WakeupMissedOnlyWhenDozingOff(s: State, acts: seq<Action>, w: nat)
    requires Fresh(s) && w < s.Workers()
    ensures Missed(Exec(s, acts), w) ==> DozedOffOnWork(s, acts, w)
  {
    if acts == [] {
    } else {
      var front, a := acts[..|acts| - 1], acts[|acts| - 1];
      var m := Exec(s, front);
      WakeupMissedOnlyWhenDozingOff(s, front, w);
      RunKeepsFlag(s, front, w);
      match a
      case MainAct => if Missed(MainStep(m), w) { MainMissesNothing(m, w); }
      case WorkerAct(v) => if v < m.Workers() { WorkerMissesIff(m, v, w); }
    }
  }

  // From the store on: main pushes and looks before the worker has announced
  // that it sleeps.
  lemma PushedUnseen(s: State, e: Entry)
    requires s.Valid() && s.batch == [e] && s.Workers() == 1 && s.main == Offering(0)
    requires s.workers[0] == Drowsy && s.semaphores[0] == 0 && !s.asleep[0] && s.queues[0] == []
    requires !s.recheck
    ensures var r := WorkerStep(MainStep(MainStep(s)), 0);
            r.workers[0] == Waiting && r.semaphores[0] == 0 && r.queues[0] == [e]
  {
    var s1 := MainStep(s);
    assert s1.queues[0] == [e] && s1.workers == s.workers && s1.asleep == s.asleep && s1.semaphores == s.semaphores;
  }

  // Main's look falls between the worker's failed pop and its store: the
  // worker goes to wait on a nonempty queue without a signal.
  lemma WakeupCanBeMissed(s: State, e: Entry)
    requires Quiescent(s) && s.batch == [e] && s.Workers() == 1
    requires s.workers[0] == Polling && s.semaphores[0] == 0 && !s.recheck
    ensures var r := Exec(s, [WorkerAct(0), MainAct, MainAct, MainAct, WorkerAct(0)]);
            && r.workers[0] == Waiting && r.semaphores[0] == 0 && r.queues[0] == [e]
            && WorkerStep(r, 0) == r
  {
    var a := [WorkerAct(0), MainAct, MainAct, MainAct, WorkerAct(0)];
    ExecFive(s, a);
    var s2 := MainStep(WorkerStep(s, 0));
    assert s2.main == Offering(0) && s2.workers[0] == Drowsy;
    PushedUnseen(s2, e);
  }
}
