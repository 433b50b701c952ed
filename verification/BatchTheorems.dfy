// What runs of the batch protocol do: the order in which Scheduler_Sync visits
// the workers, where the signals go, what the queues hold, and what main or a
// worker does left alone.
module BatchTheorems {
  import opened Options
  import opened DequeHistory
  import opened DequeStrict
  import opened TaskQueues
  import opened RoundRobin
  import opened BatchProtocol
  import D = DequeMachine
  import S = Scheduler

  // ------------------------------------------------------------------ visits

  // The steal attempted by this access, if one is; it got a task iff the queue
  // main stood at became shorter.
  function VisitBy(m: State, a: Action): seq<Visit>
    requires m.Valid()
  {
    var r := Step(m, a);
    if a.MainAct? && m.main.Turn? && !r.main.Returned?
    then [Visit(m.main.ix, |r.queues[m.main.ix - 1]| < |m.queues[m.main.ix - 1]|)]
    else []
  }

  function Visits(s: State, acts: seq<Action>): seq<Visit>
    requires s.Valid()
  {
    if acts == [] then []
    else Visits(s, acts[..|acts| - 1]) + VisitBy(Exec(s, acts[..|acts| - 1]), acts[|acts| - 1])
  }

  // Where main stands is where the visits so far have brought it.
  predicate Placed(s: State, visits: seq<Visit>)
    requires s.Valid()
  {
    && OnWalk(visits, s.Workers())
    && match s.main
       case Turn(ix, k) => ix == Walk(1, |visits|, s.Workers()) && k == Failures(visits) <= s.Workers() + 1
       case RunningStolen(ix) =>
         visits != [] && visits[|visits| - 1].got && ix == Walk(1, |visits| - 1, s.Workers())
       case Returned => Failures(visits) == s.Workers() + 1
       case _ => visits == []
  }

  lemma StepWalks(m: State, a: Action, visits: seq<Visit>)
    requires m.Valid() && Placed(m, visits)
    ensures Placed(Step(m, a), visits + VisitBy(m, a))
  {
    assert visits + [] == visits;
    if a.MainAct? && m.main.Turn? && !MainStep(m).main.Returned? {
      WalkGrows(visits, m.queues[m.main.ix - 1] != [], m.Workers());
    }
  }

  // At any moment of a batch: the steals so far went round robin from worker 1,
  // each one worker on from the last, successful or not, and Sync returns after
  // exactly one failure more in a row than there are workers.
  lemma {:induction false} SyncWalks(s: State, acts: seq<Action>)
    requires s.Valid() && s.main == Storing
    ensures Placed(Exec(s, acts), Visits(s, acts))
  {
    if acts == [] {
    } else {
      SyncWalks(s, acts[..|acts| - 1]);
      StepWalks(Exec(s, acts[..|acts| - 1]), acts[|acts| - 1], Visits(s, acts[..|acts| - 1]));
    }
  }

  // ----------------------------------------------------------------- signals

  // Looks of main that found worker w asleep.
  function SleepersSeen(s: State, acts: seq<Action>, w: nat): nat
    requires s.Valid() && w < s.Workers()
  {
    if acts == [] then 0
    else
      var m := Exec(s, acts[..|acts| - 1]);
      SleepersSeen(s, acts[..|acts| - 1], w)
      + if acts[|acts| - 1].MainAct? && LooksAt(m, w) && m.asleep[w] then 1 else 0
  }

  // Returns of worker w from its wait.
  function Wakeups(s: State, acts: seq<Action>, w: nat): nat
    requires s.Valid() && w < s.Workers()
  {
    if acts == [] then 0
    else
      var m, r := Exec(s, acts[..|acts| - 1]), Exec(s, acts);
      Wakeups(s, acts[..|acts| - 1], w) + if m.workers[w].Waiting? && !r.workers[w].Waiting? then 1 else 0
  }

  lemma StepKeepsSignals(m: State, a: Action, w: nat)
    requires m.Valid() && w < m.Workers()
    ensures var r := Step(m, a);
            m.semaphores[w] + (if a.MainAct? && LooksAt(m, w) && m.asleep[w] then 1 else 0)
            == r.semaphores[w] + (if m.workers[w].Waiting? && !r.workers[w].Waiting? then 1 else 0)
  {
  }

  // Signals are conserved: what was in the semaphore and one for every look that
  // found the worker asleep is what is in it now and one for every wakeup.
  lemma {:induction false} SignalsAreConserved(s: State, acts: seq<Action>, w: nat)
    requires s.Valid() && w < s.Workers()
    ensures s.semaphores[w] + SleepersSeen(s, acts, w) == Exec(s, acts).semaphores[w] + Wakeups(s, acts, w)
  {
    if acts == [] {
    } else {
      SignalsAreConserved(s, acts[..|acts| - 1], w);
      StepKeepsSignals(Exec(s, acts[..|acts| - 1]), acts[|acts| - 1], w);
    }
  }

  // ----------------------------------------------------------- what queues hold

  // What the access does to worker w's queue, as an operation with its outcome:
  // read off what main offers or has stolen and what the worker then holds.
  function OutcomeAt(m: State, a: Action, w: nat): Option<Event>
    requires m.Valid() && w < m.Workers()
  {
    var r := Step(m, a);
    if a.MainAct? && OffersTo(m, w) then
      var e := m.batch[m.main.i];
      Some(Lin(TheOwner, if |r.books[w].inline| > |m.books[w].inline| then RanInline(e) else Pushed(e)))
    else if a.MainAct? && m.main.Turn? && m.main.ix == w + 1 && r.main.RunningStolen? then
      var stolen := r.books[w].stolen;
      if stolen == [] then None else Some(Lin(TheThief(0), Stolen(stolen[|stolen| - 1])))
    else if a.MainAct? && m.main.Turn? && m.main.ix == w + 1 && r.main.Turn? then
      Some(Lin(TheThief(0), StealEmpty))
    else if a == WorkerAct(w) && m.workers[w].Polling? then
      Some(Lin(TheOwner, if Holds(r.workers[w]) then Popped(r.workers[w].task) else PopEmpty))
    else None
  }

  function HistoryOf(s: State, acts: seq<Action>, w: nat): History
    requires s.Valid() && w < s.Workers()
  {
    if acts == [] then Start
    else
      var h := HistoryOf(s, acts[..|acts| - 1], w);
      match OutcomeAt(Exec(s, acts[..|acts| - 1]), acts[|acts| - 1], w)
      case None => h
      case Some(event) => Then(h, event)
  }

  lemma MainReplays(m: State, w: nat, h: History)
    requires m.Valid() && w < m.Workers() && PushFits(m) && StrictReplay(h, m.size) == Some(m.queues[w])
    requires |m.queues[w]| <= m.size
    ensures var event := OutcomeAt(m, MainAct, w); var h' := if event.Some? then Then(h, event.value) else h;
            StrictReplay(h', m.size) == Some(MainStep(m).queues[w]) && |MainStep(m).queues[w]| <= m.size
  {
  }

  lemma WorkerReplays(m: State, v: nat, w: nat, h: History)
    requires m.Valid() && v < m.Workers() && w < m.Workers() && StrictReplay(h, m.size) == Some(m.queues[w])
    requires |m.queues[w]| <= m.size
    ensures var event := OutcomeAt(m, WorkerAct(v), w); var h' := if event.Some? then Then(h, event.value) else h;
            StrictReplay(h', m.size) == Some(WorkerStep(m, v).queues[w]) && |WorkerStep(m, v).queues[w]| <= m.size
  {
  }

  // Each queue behaves as the strict sequential deque the queue's own machine
  // implements: offers go in at the right, the worker takes from the right, main
  // steals from the left, and both fail only on an empty queue.
  lemma {:induction false} QueuesAreDeques(s: State, acts: seq<Action>, w: nat)
    requires Quiescent(s) && Roomy(s) && w < s.Workers()
    ensures StrictReplay(HistoryOf(s, acts, w), s.size) == Some(Exec(s, acts).queues[w])
    ensures |Exec(s, acts).queues[w]| <= s.size
  {
    if acts == [] {
    } else {
      var front := acts[..|acts| - 1];
      var m := Exec(s, front);
      QueuesAreDeques(s, front, w);
      RunKeepsInv(s, front);
      PushHasRoom(m);
      match acts[|acts| - 1]
      case MainAct => MainReplays(m, w, HistoryOf(s, front, w));
      case WorkerAct(v) => if v < m.Workers() { WorkerReplays(m, v, w, HistoryOf(s, front, w)); }
    }
  }

  // ------------------------------------------------------------ a worker alone

  function Alone(a: Action, n: nat): (acts: seq<Action>)
    ensures |acts| == n
  {
    seq(n, i => a)
  }

  function Reversed(q: seq<Entry>): seq<Entry> {
    if q == [] then [] else [q[|q| - 1]] + Reversed(q[..|q| - 1])
  }

  // Waiting, and nobody has signalled: the worker's accesses change nothing.
  predicate Settled(s: State, w: nat)
    requires s.Valid() && w < s.Workers()
  {
    s.workers[w].Waiting? && s.semaphores[w] == 0
  }

  // Left alone, the worker will poll its queue again before it settles.
  predicate Polls(s: State, w: nat)
    requires s.Valid() && w < s.Workers()
  {
    match s.workers[w]
    case Waiting => s.semaphores[w] > 0
    case Rechecking => s.semaphores[w] > 0 || s.queues[w] != []
    case Drowsy => s.semaphores[w] > 0 || (s.recheck && s.queues[w] != [])
    case _ => true
  }

  // Where it settles: if it polls again, everything queued has been run, newest
  // first, and counted down, and all signals are spent; if not, the queue stays.
  function SettledAlone(s: State, w: nat): State
    requires s.Valid() && w < s.Workers() && s.count < COUNTER_RANGE
  {
    var todo := if Polls(s, w) then Held(s.workers[w]) + Reversed(s.queues[w]) else [];
    s.(queues := if Polls(s, w) then s.queues[w := []] else s.queues,
       books := s.books[w := s.books[w].(done := s.books[w].done + todo)],
       count := S.CountedDown(s.count, |todo|),
       workers := s.workers[w := Waiting], asleep := s.asleep[w := true], semaphores := s.semaphores[w := 0])
  }

  // An upper bound on the accesses until then.
  function Effort(s: State, w: nat): nat
    requires s.Valid() && w < s.Workers()
  {
    var busy := s.queues[w] != [];
    if Settled(s, w) then 0
    else
      8 * |s.queues[w]| + 6 * s.semaphores[w]
      + match s.workers[w]
        case Waiting => 0
        case Rechecking => if busy then 6 else 1
        case Drowsy => if busy then 7 else 2
        case Polling => 3
        case Woken => 4
        case Finished(_) => 4
        case Running(_) => 5
  }

  lemma StepSpendsEffort(s: State, w: nat)
    requires s.Valid() && w < s.Workers() && !Settled(s, w)
    ensures Effort(WorkerStep(s, w), w) < Effort(s, w)
  {
  }

  lemma {:induction false} CountedDownFirst(c: nat, k: nat)
    requires c < COUNTER_RANGE
    ensures Decrement(c) < COUNTER_RANGE && S.CountedDown(c, k + 1) == S.CountedDown(Decrement(c), k)
  {
    if k == 0 {
      assert S.CountedDown(c, 0) == c;
    } else {
      CountedDownFirst(c, k - 1);
    }
  }

  lemma PopLeadsThere(s: State, w: nat)
    requires s.Valid() && w < s.Workers() && s.count < COUNTER_RANGE
    requires s.workers[w].Polling? && s.queues[w] != []
    ensures SettledAlone(WorkerStep(s, w), w) == SettledAlone(s, w)
  {
    var q, r := s.queues[w], WorkerStep(s, w);
    assert Held(r.workers[w]) + Reversed(r.queues[w]) == Reversed(q) == Held(s.workers[w]) + Reversed(q);
    assert r.queues[w := []] == s.queues[w := []];
    assert r.workers[w := Waiting] == s.workers[w := Waiting];
  }

  lemma FinishLeadsThere(s: State, w: nat)
    requires s.Valid() && w < s.Workers() && s.count < COUNTER_RANGE && s.workers[w].Finished?
    ensures WorkerStep(s, w).count < COUNTER_RANGE && SettledAlone(WorkerStep(s, w), w) == SettledAlone(s, w)
  {
    var q, r, e := s.queues[w], WorkerStep(s, w), s.workers[w].task;
    CountedDownFirst(s.count, |Reversed(q)|);
    assert s.books[w].done + ([e] + Reversed(q)) == (s.books[w].done + [e]) + ([] + Reversed(q));
    assert r.workers[w := Waiting] == s.workers[w := Waiting];
  }

  lemma OtherStepLeadsThere(s: State, w: nat)
    requires s.Valid() && w < s.Workers() && s.count < COUNTER_RANGE && FlagInv(s, w) && !Settled(s, w)
    requires !s.workers[w].Finished? && (s.workers[w].Polling? ==> s.queues[w] == [])
    ensures SettledAlone(WorkerStep(s, w), w) == SettledAlone(s, w)
  {
    var r := WorkerStep(s, w);
    assert r.workers[w := Waiting] == s.workers[w := Waiting];
    assert r.asleep[w := true] == s.asleep[w := true];
    assert r.semaphores[w := 0] == s.semaphores[w := 0];
  }

  lemma StepLeadsThere(s: State, w: nat)
    requires s.Valid() && w < s.Workers() && s.count < COUNTER_RANGE && FlagInv(s, w) && !Settled(s, w)
    ensures WorkerStep(s, w).count < COUNTER_RANGE && FlagInv(WorkerStep(s, w), w)
    ensures SettledAlone(WorkerStep(s, w), w) == SettledAlone(s, w)
  {
    StepKeepsFlag(s, WorkerAct(w), w);
    if s.workers[w].Polling? && s.queues[w] != [] { PopLeadsThere(s, w); }
    else if s.workers[w].Finished? { FinishLeadsThere(s, w); }
    else { OtherStepLeadsThere(s, w); }
  }

  lemma SettledIsThere(s: State, w: nat)
    requires s.Valid() && w < s.Workers() && s.count < COUNTER_RANGE && FlagInv(s, w) && Settled(s, w)
    ensures SettledAlone(s, w) == s && WorkerStep(s, w) == s
  {
    assert s.workers[w := Waiting] == s.workers && s.asleep[w := true] == s.asleep;
    assert s.semaphores[w := 0] == s.semaphores && s.books[w := s.books[w]] == s.books;
    assert s.books[w].done + [] == s.books[w].done;
  }

  lemma OneStep(s: State, a: Action)
    requires s.Valid()
    ensures Exec(s, [a]) == Step(s, a)
  {
    assert [a][..0] == [];
  }

  lemma AloneFirst(s: State, a: Action, n: nat)
    requires s.Valid() && n > 0
    ensures Exec(s, Alone(a, n)) == Exec(Step(s, a), Alone(a, n - 1))
  {
    assert [a] + Alone(a, n - 1) == Alone(a, n);
    assert Exec(s, [a]) == Step(s, a) by { OneStep(s, a); }
    ExecConcat(s, [a], Alone(a, n - 1));
  }

  // A worker left alone settles within a bound fixed at the start, in the state
  // given, and stays there.
  lemma {:induction false} WorkerAlone(s: State, w: nat, n: nat)
    requires s.Valid() && w < s.Workers() && s.count < COUNTER_RANGE && FlagInv(s, w) && n >= Effort(s, w)
    ensures Exec(s, Alone(WorkerAct(w), n)) == SettledAlone(s, w)
    decreases n
  {
    if n == 0 {
      SettledIsThere(s, w);
    } else {
      AloneFirst(s, WorkerAct(w), n);
      if Settled(s, w) {
        SettledIsThere(s, w);
      } else {
        StepLeadsThere(s, w);
        StepSpendsEffort(s, w);
      }
      WorkerAlone(WorkerStep(s, w), w, n - 1);
    }
  }

  // ---------------------------------------------------------------- main alone

  function SeenBy(s: State): S.Progress { S.Progress(s.queues, s.semaphores, []) }

  // Where main's loop is after offering the first i tasks.
  predicate HasOffered(s: State, m: State, i: nat)
    requires s.Valid() && i <= |s.batch|
  {
    var p := S.OfferTasks(SeenBy(s), s.asleep, s.size, s.batch[..i]);
    && m.Valid() && m.main == Offering(i) && m.batch == s.batch && m.size == s.size && m.guard == s.guard
    && m.queues == p.queues && m.semaphores == p.semaphores
    && m.workers == s.workers && m.asleep == s.asleep
    && m.count == |s.batch| % COUNTER_RANGE
  }

  lemma PushesOne(s: State, m: State, i: nat)
    requires s.Valid() && s.guard.AsWritten? && i < |s.batch| && HasOffered(s, m, i)
    ensures var r, t := MainStep(m), S.Target(i, s.Workers());
            && r.main == Looking(i) && r.count == m.count && r.semaphores == m.semaphores
            && r.queues == S.OfferTo(m.queues, t, s.batch[i], s.size)
            && r.workers == m.workers && r.asleep == m.asleep
  {
  }

  lemma OffersOne(s: State, m: State, i: nat)
    requires s.Valid() && s.guard.AsWritten? && i < |s.batch| && HasOffered(s, m, i)
    ensures HasOffered(s, MainStep(MainStep(m)), i + 1)
  {
    PushesOne(s, m, i);
    S.OfferTasksNext(SeenBy(s), s.asleep, s.size, s.batch, i);
  }

  lemma StoresFirst(s: State)
    requires s.Valid() && s.main == Storing
    ensures HasOffered(s, MainStep(s), 0)
  {
    assert s.batch[..0] == [];
  }

  // Main at the top of Scheduler_Sync, with the whole batch distributed.
  ghost predicate Distributes(s: State, r: State)
    requires s.Valid()
  {
    && r.main == Turn(1, 0) && r.count == |s.batch| % COUNTER_RANGE
    && r.queues == S.Distributed(s.queues, s.batch, s.size)
    && r.semaphores == S.Raised(s.semaphores, s.asleep, s.batch)
    && r.workers == s.workers && r.asleep == s.asleep
  }

  lemma LeavesLoop(s: State, m: State)
    requires s.Valid() && HasOffered(s, m, |s.batch|)
    ensures Distributes(s, MainStep(m))
  {
    S.OfferTasksExact(SeenBy(s), s.asleep, s.size, s.batch, |s.batch|);
    assert s.batch[..|s.batch|] == s.batch;
  }

  lemma AloneNone(s: State, a: Action)
    requires s.Valid()
    ensures Exec(s, Alone(a, 0)) == s
  {
  }

  lemma {:induction false} OffersTheRest(s: State, m: State, i: nat, n: nat)
    requires s.Valid() && s.guard.AsWritten? && i <= |s.batch| && HasOffered(s, m, i) && n == 2 * (|s.batch| - i) + 1
    ensures Distributes(s, Exec(m, Alone(MainAct, n)))
    decreases n
  {
    AloneFirst(m, MainAct, n);
    if i == |s.batch| {
      AloneNone(MainStep(m), MainAct);
      LeavesLoop(s, m);
    } else {
      AloneFirst(MainStep(m), MainAct, n - 1);
      OffersOne(s, m, i);
      OffersTheRest(s, MainStep(MainStep(m)), i + 1, n - 2);
    }
  }

  // Main left alone does what the loop of Scheduler_ProcessTaskBatch is proved to
  // do: the counter, the distribution by shares, and a signal for every task
  // offered to a sleeper. Then it is at the top of Scheduler_Sync.
  lemma MainAlone(s: State)
    requires s.Valid() && s.main == Storing && s.guard.AsWritten?
    ensures Distributes(s, Exec(s, Alone(MainAct, 2 * |s.batch| + 2)))
  {
    AloneFirst(s, MainAct, 2 * |s.batch| + 2);
    StoresFirst(s);
    OffersTheRest(s, MainStep(s), 0, 2 * |s.batch| + 1);
  }
}
