// Scheduler_Sync terminates under every interleaving with the workers and
// leaves nothing unclaimed.
module SyncTheorems {
  import opened Bits
  import opened DequeHistory
  import opened DequeMachine
  import opened DequeInvariant
  import opened DequeTheorems
  import opened SyncMachine

  // -------------------------------------------------------------- termination

  function Backlog(queues: seq<State>): int {
    if queues == [] then 0
    else Backlog(queues[..|queues| - 1]) + High(queues[|queues| - 1]) - queues[|queues| - 1].sh.top
  }

  // Accesses main can still make before the backlog shrinks again.
  function Patience(s: System): int
    requires Shaped(s)
  {
    var w := s.Workers();
    match s.main
    case Returned => 0
    case Turn(_, k) => (w + 1 - k) * 5 + 1
    case Stealing(ix, k) =>
      (w - k) * 5 + 1 + match s.queues[ix - 1].thieves[0]
                        case Away => 0
                        case StealBottom(_) => 4
                        case StealTask(_) => 3
                        case StealPayload(_, _) => 2
                        case StealCas(_, _) => 1
  }

  predicate Shaped(s: System) {
    && (forall i | 0 <= i < s.Workers() :: |s.queues[i].thieves| == 1)
    && (!s.main.Returned? ==> 1 <= s.main.ix <= s.Workers())
  }

  function Round(s: System): nat { 5 * s.Workers() + 6 }

  // An upper bound on the accesses main has left, for any worker behaviour.
  function Budget(s: System): int
    requires Shaped(s)
  {
    Backlog(s.queues) * Round(s) + Patience(s)
  }

  lemma {:induction false} BacklogUpdate(queues: seq<State>, i: nat, q: State)
    requires i < |queues|
    ensures Backlog(queues[i := q]) ==
            Backlog(queues) - (High(queues[i]) - queues[i].sh.top) + (High(q) - q.sh.top)
  {
    var n := |queues| - 1;
    if i == n {
      assert queues[i := q][..n] == queues[..n];
    } else {
      assert queues[i := q][..n] == queues[..n][i := q];
      BacklogUpdate(queues[..n], i, q);
    }
  }

  lemma {:induction false} BacklogNatural(queues: seq<State>)
    requires forall i | 0 <= i < |queues| :: QueueInv(queues[i])
    ensures Backlog(queues) >= 0
  {
    if queues == [] {
    } else {
      BacklogNatural(queues[..|queues| - 1]);
      assert QueueInv(queues[|queues| - 1]);
    }
  }

  lemma BudgetNatural(s: System)
    requires SystemInv(s)
    ensures Budget(s) >= 0
  {
    BacklogNatural(s.queues);
    assert Backlog(s.queues) * Round(s) >= 0;
    if s.main.Turn? {
      assert (s.Workers() + 1 - s.main.empties) * 5 >= 0;
    }
  }

  lemma Fewer(a: int, b: int, c: nat)
    requires a <= b
    ensures a * c <= b * c
    ensures a < b ==> a * c + c <= b * c
  {
    var d := b - a;
    assert b * c == a * c + d * c by { assert (a + d) * c == a * c + d * c; }
    if d > 0 {
      MulAtLeast(c, d);
      assert c * d == d * c;
    }
  }

  lemma WorkerStepBacklog(s: System, a: SyncMachine.Action)
    requires SystemInv(s) && !a.MainAccess?
    ensures Backlog(SyncMachine.Step(s, a).queues) <= Backlog(s.queues)
  {
    if a.w < s.Workers() {
      var act := if a.WorkerPop? then StartPop else OwnerAccess;
      WorkerKeepsQueueInv(s.queues[a.w], act);
      BacklogUpdate(s.queues, a.w, DequeMachine.Step(AsWritten, s.queues[a.w], act));
    }
  }

  lemma SamePatience(s: System, queues: seq<State>)
    requires Shaped(s) && |queues| == s.Workers()
    requires forall i | 0 <= i < |queues| :: queues[i].thieves == s.queues[i].thieves
    ensures Patience(s.(queues := queues)) == Patience(s)
  {
  }

  lemma WorkerStepPatience(s: System, a: SyncMachine.Action)
    requires SystemInv(s) && !a.MainAccess?
    ensures Patience(SyncMachine.Step(s, a)) == Patience(s)
  {
    if a.w < s.Workers() {
      var q := DequeMachine.Step(AsWritten, s.queues[a.w], if a.WorkerPop? then StartPop else OwnerAccess);
      assert q.thieves == s.queues[a.w].thieves;
      SamePatience(s, s.queues[a.w := q]);
    }
  }

  lemma SmallerBudget(s: System, r: System)
    requires Shaped(s) && Shaped(r) && s.Workers() == r.Workers()
    requires Backlog(r.queues) <= Backlog(s.queues) && Patience(r) <= Patience(s)
    ensures Budget(r) <= Budget(s)
  {
    Fewer(Backlog(r.queues), Backlog(s.queues), Round(s));
  }

  // Nothing a worker does buys main more work.
  lemma WorkerStepKeepsBudget(s: System, a: SyncMachine.Action)
    requires SystemInv(s) && !a.MainAccess?
    ensures Budget(SyncMachine.Step(s, a)) <= Budget(s)
  {
    WorkerStepBacklog(s, a);
    WorkerStepPatience(s, a);
    SmallerBudget(s, SyncMachine.Step(s, a));
  }

  lemma StealTop(q: State)
    requires QueueInv(q)
    ensures var r := ThiefStep(q, 0);
            && High(r) == High(q)
            && q.sh.top <= r.sh.top
            && (!q.thieves[0].Away? && r.thieves[0].Away? && GotTask(r) ==> q.sh.top < r.sh.top)
  {
  }

  // Main's access is one access of its thief in the queue it stands at.
  lemma MainStepStep(s: System)
    requires SystemInv(s) && !s.main.Returned? && (s.main.Stealing? || s.main.empties <= s.Workers())
    ensures var i := s.main.ix - 1;
            && i < s.Workers() && QueueInv(s.queues[i])
            && (s.queues[i].thieves[0].Away? <==> s.main.Turn?)
            && MainStep(s).queues == s.queues[i := ThiefStep(s.queues[i], 0)]
            && (MainStep(s).main.Turn? ==> ThiefStep(s.queues[i], 0).thieves[0].Away?)
  {
    assert QueueInv(s.queues[s.main.ix - 1]);
  }

  // Its effect on the backlog depends on that queue alone.
  lemma ThiefBacklog(queues: seq<State>, i: nat)
    requires i < |queues| && QueueInv(queues[i])
    ensures var q, r := queues[i], ThiefStep(queues[i], 0);
            && Backlog(queues[i := r]) <= Backlog(queues)
            && (!q.thieves[0].Away? && r.thieves[0].Away? && GotTask(r) ==> Backlog(queues[i := r]) < Backlog(queues))
  {
    StealTop(queues[i]);
    BacklogUpdate(queues, i, ThiefStep(queues[i], 0));
  }

  lemma MainStepBacklog(s: System)
    requires SystemInv(s) && !s.main.Returned?
    ensures var r := MainStep(s);
            && Backlog(r.queues) <= Backlog(s.queues)
            && (s.main.Stealing? && r.main.Turn? && GotTask(r.queues[s.main.ix - 1])
                ==> Backlog(r.queues) < Backlog(s.queues))
  {
    if s.main.Stealing? || s.main.empties <= s.Workers() {
      MainStepStep(s);
      ThiefBacklog(s.queues, s.main.ix - 1);
      assert MainStep(s).queues[s.main.ix - 1] == ThiefStep(s.queues[s.main.ix - 1], 0);
    } else {
      assert MainStep(s).queues == s.queues;
    }
  }

  lemma MainStepPatience(s: System)
    requires SystemInv(s) && !s.main.Returned?
    ensures var r := MainStep(s);
            if s.main.Stealing? && r.main.Turn? && GotTask(r.queues[s.main.ix - 1])
            then Patience(r) < Patience(s) + Round(s)
            else Patience(r) < Patience(s)
  {
    var i := s.main.ix - 1;
    assert QueueInv(s.queues[i]) && (s.queues[i].thieves[0].Away? <==> s.main.Turn?);
  }

  // Every access by main spends at least one unit.
  lemma MainStepSpendsBudget(s: System)
    requires SystemInv(s) && !s.main.Returned?
    ensures Budget(MainStep(s)) < Budget(s)
  {
    MainStepBacklog(s);
    MainStepPatience(s);
    Fewer(Backlog(MainStep(s).queues), Backlog(s.queues), Round(s));
  }

  function MainAccesses(acts: seq<SyncMachine.Action>): nat {
    if acts == [] then 0
    else MainAccesses(acts[..|acts| - 1]) + if acts[|acts| - 1].MainAccess? then 1 else 0
  }

  lemma {:induction false} RunSpendsBudget(s: System, acts: seq<SyncMachine.Action>)
    requires SystemInv(s)
    ensures var r := SyncMachine.Exec(s, acts);
            r.main.Returned? || Budget(r) + MainAccesses(acts) <= Budget(s)
  {
    if acts == [] {
    } else {
      var front := acts[..|acts| - 1];
      RunSpendsBudget(s, front);
      RunKeepsSystemInv(s, front);
      var m := SyncMachine.Exec(s, front);
      if !m.main.Returned? {
        if acts[|acts| - 1].MainAccess? { MainStepSpendsBudget(m); }
        else { WorkerStepKeepsBudget(m, acts[|acts| - 1]); }
      }
    }
  }

  // The loop returns once main has made Budget + 1 accesses, whatever the
  // workers do in between.
  lemma SyncTerminates(s: System, acts: seq<SyncMachine.Action>)
    requires SystemInv(s) && MainAccesses(acts) > Budget(s)
    ensures SyncMachine.Exec(s, acts).main.Returned?
  {
    RunSpendsBudget(s, acts);
    RunKeepsSystemInv(s, acts);
    BudgetNatural(SyncMachine.Exec(s, acts));
  }

  // ------------------------------------------------------------------ draining

  // At the call: main at the top of the loop, no push in progress anywhere.
  ghost predicate SyncEntry(s: System) {
    && Valid(s)
    && s.main == Turn(1, 0)
    && forall i | 0 <= i < s.Workers() ::
         && Inv(s.queues[i]) && NoPush(s.queues[i].owner)
         && s.queues[i].thieves == [Away]
         && forall x :: TakesAccounted(s.queues[i], x)
  }

  lemma EntryInv(s: System)
    requires SyncEntry(s)
    ensures SystemInv(s)
  {
    forall i | 0 <= i < s.Workers()
      ensures QueueInv(s.queues[i]) && s.queues[i].thieves[0].Away? && Ahead(s, i)
    {
      assert Inv(s.queues[i]);
    }
  }

  // Any queue reached by a legal run whose push phase is over can enter.
  lemma ReachedQueueEnters(g: Guard, s0: State, acts: seq<DequeMachine.Action>, x: Entry)
    requires Initial(s0) && SafeRun(g, s0, acts)
    ensures Inv(DequeMachine.Exec(g, s0, acts)) && TakesAccounted(DequeMachine.Exec(g, s0, acts), x)
  {
    InitialInv(s0);
    RunKeepsInv(g, s0, acts);
    RunKeepsAccounts(g, s0, acts, x);
  }

  function Final(g: Guard, inits: seq<State>, runs: seq<seq<DequeMachine.Action>>): (qs: seq<State>)
    requires |inits| == |runs| && forall i | 0 <= i < |inits| :: inits[i].Valid()
    ensures |qs| == |inits| && forall i | 0 <= i < |qs| :: qs[i] == DequeMachine.Exec(g, inits[i], runs[i])
  {
    seq(|inits|, i requires 0 <= i < |inits| => DequeMachine.Exec(g, inits[i], runs[i]))
  }

  // One legal run per worker, each ending with no push in progress and main's
  // thief away, leads to a state in which Scheduler_Sync can be called.
  lemma RunsEnterSync(g: Guard, inits: seq<State>, runs: seq<seq<DequeMachine.Action>>)
    requires |inits| == |runs| >= 1 && forall i | 0 <= i < |inits| :: inits[i].Valid()
    requires forall i | 0 <= i < |inits| :: Initial(inits[i]) && SafeRun(g, inits[i], runs[i])
    requires forall i | 0 <= i < |inits| ::
               var q := DequeMachine.Exec(g, inits[i], runs[i]); NoPush(q.owner) && q.thieves == [Away]
    ensures SyncEntry(System(Final(g, inits, runs), Turn(1, 0)))
  {
    var s := System(Final(g, inits, runs), Turn(1, 0));
    forall i | 0 <= i < s.Workers()
      ensures Inv(s.queues[i]) && forall x :: TakesAccounted(s.queues[i], x)
    {
      forall x
        ensures Inv(s.queues[i]) && TakesAccounted(s.queues[i], x)
      {
        ReachedQueueEnters(g, inits[i], runs[i], x);
      }
      ReachedQueueEnters(g, inits[i], runs[i], Entry(0, 0));
    }
  }

  ghost predicate Conserved(q0: State, q: State, x: Entry)
    requires q0.Valid() && q.Valid()
  {
    && Count(q.h, Accepts, x) == Count(q0.h, Accepts, x)
    && TakesAccounted(q, x)
  }

  lemma PopConserves(q0: State, q: State, a: DequeMachine.Action, x: Entry)
    requires q0.Valid() && QueueInv(q) && IsPop(a) && Conserved(q0, q, x)
    ensures Conserved(q0, DequeMachine.Step(AsWritten, q, a), x)
  {
    if a.OwnerAccess? { OwnerKeepsTakes(AsWritten, q, x); }
  }

  lemma StealConserves(q0: State, q: State, x: Entry)
    requires q0.Valid() && QueueInv(q) && Conserved(q0, q, x)
    ensures Conserved(q0, ThiefStep(q, 0), x)
  {
    StealKeepsTakes(q, x);
  }

  lemma StealKeepsTakes(q: State, x: Entry)
    requires QueueInv(q) && TakesAccounted(q, x)
    ensures TakesAccounted(ThiefStep(q, 0), x)
  {
  }

  lemma {:induction false} RunConserves(s: System, acts: seq<SyncMachine.Action>, i: nat, x: Entry)
    requires SyncEntry(s) && i < s.Workers()
    ensures Conserved(s.queues[i], SyncMachine.Exec(s, acts).queues[i], x)
  {
    assert TakesAccounted(s.queues[i], x);
    if acts == [] {
    } else {
      var front, a := acts[..|acts| - 1], acts[|acts| - 1];
      RunConserves(s, front, i, x);
      EntryInv(s);
      RunKeepsSystemInv(s, front);
      var m := SyncMachine.Exec(s, front);
      assert QueueInv(m.queues[i]);
      match a
      case MainAccess => StealConserves(s.queues[i], m.queues[i], x);
      case WorkerPop(w) => PopConserves(s.queues[i], m.queues[i], StartPop, x);
      case WorkerAccess(w) => PopConserves(s.queues[i], m.queues[i], OwnerAccess, x);
    }
  }

  // The entry a worker's pop in progress holds: chosen but not yet returned,
  // or the last one, already cut off from every thief main could send.
  function HeldByPop(q: State): seq<Entry>
    requires q.Valid()
  {
    var p := OwnerPhase(q);
    if p.Done? && p.out.Popped? then [p.out.entry] else Live(q)
  }

  lemma SettledQueue(q: State, x: Entry)
    requires QueueInv(q) && Exhausted(q) && TakesAccounted(q, x)
    ensures |HeldByPop(q)| <= 1
    ensures HeldByPop(q) != [] ==> OwnerPhase(q) == Called(Pop) || OwnerPhase(q).Done?
    ensures Holding(HeldByPop(q), x) == Holding(Live(q), x) + InFlight(q, x)
  {
  }

  lemma AcceptedWhereabouts(q: State, x: Entry)
    requires Inv(q) && TakesAccounted(q, x)
    ensures Count(q.h, Accepts, x) == Holding(Live(q), x) + InFlight(q, x) + Count(q.h, Delivers, x)
  {
    ReplayConserves(q.h, q.sh.Size(), x);
  }

  // On return every task that was in a queue at the call has been delivered
  // exactly once, except at most one per worker, held by that worker's pop.
  lemma SyncDrains(s: System, acts: seq<SyncMachine.Action>, i: nat, x: Entry)
    requires SyncEntry(s) && i < s.Workers()
    requires SyncMachine.Exec(s, acts).main.Returned?
    ensures var q0, q := s.queues[i], SyncMachine.Exec(s, acts).queues[i];
            && |HeldByPop(q)| <= 1
            && (HeldByPop(q) != [] ==> OwnerPhase(q) == Called(Pop) || OwnerPhase(q).Done?)
            && Holding(Live(q0), x) + InFlight(q0, x) + Count(q0.h, Delivers, x)
                 == Holding(HeldByPop(q), x) + Count(q.h, Delivers, x)
  {
    EntryInv(s);
    RunKeepsSystemInv(s, acts);
    RunConserves(s, acts, i, x);
    var q0, q := s.queues[i], SyncMachine.Exec(s, acts).queues[i];
    assert Ahead(SyncMachine.Exec(s, acts), i);
    assert Inv(q0) && TakesAccounted(q0, x);
    AcceptedWhereabouts(q0, x);
    AcceptedWhereabouts(q, x);
    SettledQueue(q, x);
  }
}
