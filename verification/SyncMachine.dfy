// Scheduler_Sync against the real queues: main walks the workers' queues and
// steals, one access at a time, while every worker keeps popping its own.
// Nobody pushes in this phase. Worker i owns queues[i - 1].
module SyncMachine {
  import opened DequeHistory
  import opened DequeMachine
  import opened DequeInvariant
  import opened DequeTheorems
  import opened RoundRobin

  // `ix` and `empties` are workerIx and consecutiveEmptyQueues.
  datatype Main =
    | Turn(ix: nat, empties: nat)       // at the loop test
    | Stealing(ix: nat, empties: nat)   // inside TaskQueue_Steal on worker ix
    | Returned

  datatype System = System(queues: seq<State>, main: Main) {
    function Workers(): nat { |queues| }
  }

  datatype Action = MainAccess | WorkerPop(w: nat) | WorkerAccess(w: nat)

  // Nobody is pushing onto the queue.
  predicate NoPush(pc: Owner) {
    !IsPushing(pc)
  }

  ghost predicate ValidQueue(q: State) {
    q.Valid() && |q.thieves| == 1
  }

  ghost predicate Valid(s: System) {
    && s.Workers() >= 1
    && (forall i | 0 <= i < s.Workers() :: ValidQueue(s.queues[i]))
    && (!s.main.Returned? ==> 1 <= s.main.ix <= s.Workers())
  }

  predicate GotTask(q: State) {
    q.h.Then? && q.h.event.Ret? && q.h.event.out.Stolen?
  }

  function MainStep(s: System): (r: System)
    requires Valid(s)
    ensures Valid(r) && r.Workers() == s.Workers()
  {
    match s.main
    case Returned => s
    case Turn(ix, k) =>
      if k < s.Workers() + 1 then
        System(s.queues[ix - 1 := ThiefStep(s.queues[ix - 1], 0)], Stealing(ix, k))
      else
        s.(main := Returned)
    case Stealing(ix, k) =>
      var q := ThiefStep(s.queues[ix - 1], 0);
      System(s.queues[ix - 1 := q],
             if !q.thieves[0].Away? then s.main
             else Turn(Next(ix, s.Workers()), if GotTask(q) then 0 else k + 1))
  }

  function Step(s: System, a: Action): (r: System)
    requires Valid(s)
    ensures Valid(r) && r.Workers() == s.Workers()
  {
    match a
    case MainAccess => MainStep(s)
    case WorkerPop(w) =>
      if w < s.Workers() then s.(queues := s.queues[w := DequeMachine.Step(AsWritten, s.queues[w], StartPop)]) else s
    case WorkerAccess(w) =>
      if w < s.Workers() then s.(queues := s.queues[w := OwnerStep(AsWritten, s.queues[w])]) else s
  }

  function Exec(s: System, acts: seq<Action>): (r: System)
    requires Valid(s)
    ensures Valid(r) && r.Workers() == s.Workers()
  {
    if acts == [] then s else Step(Exec(s, acts[..|acts| - 1]), acts[|acts| - 1])
  }

  // The steal main completes by this access, if it does; it got a task iff it
  // moved the `top` of the queue main stood at.
  function VisitBy(m: System, a: Action): seq<Visit>
    requires Valid(m)
  {
    var r := Step(m, a);
    if a.MainAccess? && m.main.Stealing? && !r.main.Stealing?
    then [Visit(m.main.ix, r.queues[m.main.ix - 1].sh.top > m.queues[m.main.ix - 1].sh.top)]
    else []
  }

  // All it has completed along the run.
  function Visits(s: System, acts: seq<Action>): seq<Visit>
    requires Valid(s)
  {
    if acts == [] then []
    else Visits(s, acts[..|acts| - 1]) + VisitBy(Exec(s, acts[..|acts| - 1]), acts[|acts| - 1])
  }

  // What an access does to queue i, in that queue's own terms.
  function QueueAction(m: System, a: Action, i: nat): seq<DequeMachine.Action>
    requires Valid(m) && i < m.Workers()
  {
    match a
    case WorkerPop(w) => if w == i then [StartPop] else []
    case WorkerAccess(w) => if w == i then [OwnerAccess] else []
    case MainAccess =>
      if !m.main.Returned? && m.main.ix == i + 1 && (m.main.Turn? ==> m.main.empties <= m.Workers())
      then [ThiefAccess(0)]
      else []
  }

  function QueueActions(s: System, acts: seq<Action>, i: nat): seq<DequeMachine.Action>
    requires Valid(s) && i < s.Workers()
  {
    if acts == [] then []
    else QueueActions(s, acts[..|acts| - 1], i) + QueueAction(Exec(s, acts[..|acts| - 1]), acts[|acts| - 1], i)
  }

  // ---------------------------------------------------------- a single queue

  // The pop in progress has lowered `bottom` onto the last entry and will
  // settle its fate by compare-exchange.
  predicate Claiming(pc: Owner) {
    || pc.PopTop?
    || (pc.PopTask? && pc.t == pc.b)
    || (pc.PopPayload? && pc.t == pc.b)
    || pc.PopCas?
  }

  // Nothing is left, or only the entry the owner's pop is claiming.
  predicate Exhausted(q: State) {
    || High(q) == q.sh.top
    || (High(q) == q.sh.top + 1 && Claiming(q.owner))
  }

  ghost predicate QueueInv(q: State) {
    && Inv(q)
    && |q.thieves| == 1
    && NoPush(q.owner)
    // Only the owner can outrun main, and only by taking the last entry.
    && (!q.thieves[0].Away? && q.thieves[0].t < q.sh.top ==> High(q) == q.sh.top)
  }

  predicate IsPop(a: DequeMachine.Action) {
    a.StartPop? || a.OwnerAccess?
  }

  lemma WorkerKeepsQueueInv(q: State, a: DequeMachine.Action)
    requires QueueInv(q) && IsPop(a)
    ensures var r := DequeMachine.Step(AsWritten, q, a);
            && QueueInv(r)
            && r.thieves == q.thieves
            && High(r) - r.sh.top <= High(q) - q.sh.top
            && (Exhausted(q) ==> Exhausted(r))
  {
    StepKeepsInv(AsWritten, q, a);
    StepKeepsHigh(AsWritten, q, a);
    assert ThiefInv(q, 0);
  }

  lemma StealKeepsQueueInv(q: State)
    requires QueueInv(q)
    ensures var r := ThiefStep(q, 0);
            && QueueInv(r)
            && High(r) == High(q)
            && (Exhausted(q) ==> Exhausted(r))
  {
    ThiefStepKeepsInv(q, 0);
    assert ThiefInv(q, 0);
  }

  // A steal that comes back empty-handed, for either reason, leaves a queue
  // with nothing in it but an entry its owner is already claiming.
  lemma FailedStealMeansExhausted(q: State)
    requires QueueInv(q) && !q.thieves[0].Away?
    requires ThiefStep(q, 0).thieves[0].Away? && !GotTask(ThiefStep(q, 0))
    ensures Exhausted(ThiefStep(q, 0))
  {
    assert ThiefInv(q, 0);
  }

  // ------------------------------------------------------------- the system

  // Queues main has visited since its last success are exhausted; a queue that
  // is not lies ahead within the visits still to come.
  predicate Ahead(s: System, i: nat)
    requires i < s.Workers() && (!s.main.Returned? ==> 1 <= s.main.ix <= s.Workers())
  {
    || Exhausted(s.queues[i])
    || (!s.main.Returned? && Distance(s.main.ix, i + 1, s.Workers()) + s.main.empties < s.Workers())
  }

  ghost predicate SystemInv(s: System) {
    && Valid(s)
    && (!s.main.Returned? ==> s.main.empties <= s.Workers() + 1)
    && (s.main.Stealing? ==> s.main.empties <= s.Workers())
    && (forall i | 0 <= i < s.Workers() :: QueueInv(s.queues[i]))
    && (forall i | 0 <= i < s.Workers() :: s.queues[i].thieves[0].Away? <==> !(s.main.Stealing? && s.main.ix == i + 1))
    && (forall i | 0 <= i < s.Workers() :: Ahead(s, i))
  }

  lemma WorkerStepKeepsInv(s: System, a: Action)
    requires SystemInv(s) && !a.MainAccess?
    ensures SystemInv(Step(s, a))
  {
    if a.w < s.Workers() {
      WorkerKeepsQueueInv(s.queues[a.w], if a.WorkerPop? then StartPop else OwnerAccess);
      var r := Step(s, a);
      forall i | 0 <= i < r.Workers()
        ensures Ahead(r, i)
      {
        assert Ahead(s, i);
      }
    }
  }

  lemma MainStepKeepsAhead(s: System, i: nat)
    requires SystemInv(s) && i < s.Workers()
    ensures Ahead(MainStep(s), i)
  {
    assert Ahead(s, i);
    if !s.main.Returned? {
      var ix := s.main.ix;
      NextDistance(ix, i + 1, s.Workers());
      if ix == i + 1 {
        StealKeepsQueueInv(s.queues[i]);
        if s.main.Stealing? && ThiefStep(s.queues[i], 0).thieves[0].Away? && !GotTask(ThiefStep(s.queues[i], 0)) {
          FailedStealMeansExhausted(s.queues[i]);
        }
      }
    }
  }

  lemma MainStepKeepsQueues(s: System, i: nat)
    requires SystemInv(s) && i < s.Workers()
    ensures var r := MainStep(s);
            QueueInv(r.queues[i]) && (r.queues[i].thieves[0].Away? <==> !(r.main.Stealing? && r.main.ix == i + 1))
  {
    StealKeepsQueueInv(s.queues[i]);
  }

  lemma MainStepKeepsInv(s: System)
    requires SystemInv(s)
    ensures SystemInv(MainStep(s))
  {
    forall i | 0 <= i < s.Workers()
      ensures Ahead(MainStep(s), i) && QueueInv(MainStep(s).queues[i])
      ensures MainStep(s).queues[i].thieves[0].Away? <==> !(MainStep(s).main.Stealing? && MainStep(s).main.ix == i + 1)
    {
      MainStepKeepsAhead(s, i);
      MainStepKeepsQueues(s, i);
    }
  }

  lemma StealMovesTop(q: State)
    requires QueueInv(q) && !q.thieves[0].Away? && ThiefStep(q, 0).thieves[0].Away?
    ensures GotTask(ThiefStep(q, 0)) <==> ThiefStep(q, 0).sh.top > q.sh.top
  {
  }

  // Where main stands is where the visits so far have brought it.
  predicate Placed(s: System, visits: seq<Visit>)
    requires s.Workers() >= 1
  {
    && OnWalk(visits, s.Workers())
    && Failures(visits) <= s.Workers() + 1
    && match s.main
       case Returned => Failures(visits) == s.Workers() + 1
       case Turn(ix, k) => ix == Walk(1, |visits|, s.Workers()) && k == Failures(visits)
       case Stealing(ix, k) => ix == Walk(1, |visits|, s.Workers()) && k == Failures(visits) <= s.Workers()
  }

  lemma {:induction false} RunKeepsSystemInv(s: System, acts: seq<Action>)
    requires SystemInv(s)
    ensures SystemInv(Exec(s, acts))
  {
    if acts == [] {
    } else {
      RunKeepsSystemInv(s, acts[..|acts| - 1]);
      var m, a := Exec(s, acts[..|acts| - 1]), acts[|acts| - 1];
      if a.MainAccess? { MainStepKeepsInv(m); } else { WorkerStepKeepsInv(m, a); }
    }
  }

  // ----------------------------------------------------------------- the walk

  lemma AccessWithinSteal(m: System, visits: seq<Visit>)
    requires SystemInv(m) && Placed(m, visits) && !m.main.Stealing?
    ensures Placed(MainStep(m), visits)
  {
  }

  lemma StealGoesOn(m: System)
    requires Valid(m) && m.main.Stealing? && !ThiefStep(m.queues[m.main.ix - 1], 0).thieves[0].Away?
    ensures MainStep(m).main == m.main && VisitBy(m, MainAccess) == []
  {
  }

  lemma StealEnds(m: System)
    requires SystemInv(m) && m.main.Stealing? && ThiefStep(m.queues[m.main.ix - 1], 0).thieves[0].Away?
    ensures var got := GotTask(ThiefStep(m.queues[m.main.ix - 1], 0));
            && MainStep(m).main == Turn(Next(m.main.ix, m.Workers()), if got then 0 else m.main.empties + 1)
            && VisitBy(m, MainAccess) == [Visit(m.main.ix, got)]
  {
    var q := m.queues[m.main.ix - 1];
    assert QueueInv(q) && !q.thieves[0].Away?;
    StealMovesTop(q);
  }

  lemma AccessEndsSteal(m: System, visits: seq<Visit>)
    requires SystemInv(m) && Placed(m, visits) && m.main.Stealing?
    ensures Placed(MainStep(m), visits + VisitBy(m, MainAccess))
  {
    var q := m.queues[m.main.ix - 1];
    if ThiefStep(q, 0).thieves[0].Away? {
      StealEnds(m);
      WalkGrows(visits, GotTask(ThiefStep(q, 0)), m.Workers());
    } else {
      StealGoesOn(m);
      assert visits + [] == visits;
    }
  }

  lemma WorkerKeepsPlaced(m: System, a: Action, visits: seq<Visit>)
    requires Valid(m) && Placed(m, visits) && !a.MainAccess?
    ensures Placed(Step(m, a), visits)
  {
    assert Step(m, a).main == m.main;
  }

  // At any moment of any run: the steals completed so far went round robin from
  // worker 1, each one worker on from the last, successful or not; main is at
  // the next; and it returns after exactly workers + 1 failures in a row.
  lemma {:induction false} SyncWalks(s: System, acts: seq<Action>)
    requires SystemInv(s) && s.main == Turn(1, 0)
    ensures Placed(Exec(s, acts), Visits(s, acts))
  {
    if acts == [] {
    } else {
      var front, a := acts[..|acts| - 1], acts[|acts| - 1];
      SyncWalks(s, front);
      RunKeepsSystemInv(s, front);
      var m := Exec(s, front);
      assert Visits(s, front) + [] == Visits(s, front);
      if !a.MainAccess? { WorkerKeepsPlaced(m, a, Visits(s, front)); }
      else if m.main.Stealing? { AccessEndsSteal(m, Visits(s, front)); }
      else { AccessWithinSteal(m, Visits(s, front)); }
    }
  }

  lemma AccessOnQueue(m: System, a: Action, i: nat)
    requires Valid(m) && i < m.Workers()
    ensures var so := QueueAction(m, a, i);
            Step(m, a).queues[i] ==
            if so == [] then m.queues[i] else DequeMachine.Step(AsWritten, m.queues[i], so[0])
  {
  }

  lemma DequeExecOn(q: State, acts: seq<DequeMachine.Action>, more: seq<DequeMachine.Action>)
    requires q.Valid() && |more| <= 1
    ensures var m := DequeMachine.Exec(AsWritten, q, acts);
            DequeMachine.Exec(AsWritten, q, acts + more) ==
            if more == [] then m else DequeMachine.Step(AsWritten, m, more[0])
  {
    if more == [] {
      assert acts + more == acts;
    } else {
      assert (acts + more)[..|acts|] == acts;
    }
  }

  // Each queue sees a run of the single queue's machine: the worker as its
  // owner, main as its thief.
  lemma {:induction false} QueueRunsAlone(s: System, acts: seq<Action>, i: nat)
    requires Valid(s) && i < s.Workers()
    ensures Exec(s, acts).queues[i] == DequeMachine.Exec(AsWritten, s.queues[i], QueueActions(s, acts, i))
  {
    if acts == [] {
    } else {
      var front, a := acts[..|acts| - 1], acts[|acts| - 1];
      QueueRunsAlone(s, front, i);
      AccessOnQueue(Exec(s, front), a, i);
      DequeExecOn(s.queues[i], QueueActions(s, front, i), QueueAction(Exec(s, front), a, i));
    }
  }
}
