// What every run of the queue's step machine satisfies.
module DequeTheorems {
  import Bits
  import opened Options
  import opened DequeHistory
  import opened DequeMachine
  import opened DequeInvariant

  // Whenever a push writes its slot along the run, the ring has a free one.
  ghost predicate SafeRun(g: Guard, s: State, acts: seq<Action>)
    requires s.Valid()
  {
    acts != [] ==>
      && SafeRun(g, s, acts[..|acts| - 1])
      && Safe(Exec(g, s, acts[..|acts| - 1]))
  }

  lemma {:induction false} RunKeepsInv(g: Guard, s: State, acts: seq<Action>)
    requires Inv(s) && SafeRun(g, s, acts)
    ensures Inv(Exec(g, s, acts))
  {
    if acts == [] {
    } else {
      var front := acts[..|acts| - 1];
      RunKeepsInv(g, s, front);
      StepKeepsInv(g, Exec(g, s, front), acts[|acts| - 1]);
    }
  }

  // The repaired guard leaves room at the load of `top`, and thieves only make
  // more of it.
  lemma RepairedStepIsSafe(s: State, a: Action)
    requires s.Valid() && Safe(s)
    ensures Safe(Step(Repaired, s, a))
  {
  }

  lemma {:induction false} RepairedRunsAreSafe(s: State, acts: seq<Action>)
    requires s.Valid() && Safe(s)
    ensures SafeRun(Repaired, s, acts) && Safe(Exec(Repaired, s, acts))
  {
    if acts == [] {
    } else {
      RepairedRunsAreSafe(s, acts[..|acts| - 1]);
      RepairedStepIsSafe(Exec(Repaired, s, acts[..|acts| - 1]), acts[|acts| - 1]);
    }
  }

  // So with the repaired guard no run writes a slot, or publishes a push, while
  // the deque is full.
  lemma AcceptedPushHasRoom(s: State, acts: seq<Action>)
    requires Initial(s)
    ensures var r := Exec(Repaired, s, acts);
            r.owner.PushTask? || r.owner.PushPayload? || r.owner.PushStore? ==> |Live(r)| < r.sh.Size()
  {
    InitialInv(s);
    RepairedRunsAreSafe(s, acts);
    RunKeepsInv(Repaired, s, acts);
  }

  // ------------------------------------------------------- linearizability

  // Each thread alternates call, one linearization point, return of exactly
  // that outcome; and the linearization points in order are a run of the
  // sequential deque.
  ghost predicate Linearizable(h: History, n: nat) {
    && Replay(h, n).Some?
    && forall who :: PhaseOf(h, who) != Broken
  }

  ghost predicate StrangersOut(s: State) {
    forall id: nat | id >= |s.thieves| :: PhaseOf(s.h, TheThief(id)) == Out
  }

  lemma StepKeepsStrangersOut(g: Guard, s: State, a: Action)
    requires s.Valid() && StrangersOut(s)
    ensures StrangersOut(Step(g, s, a))
  {
  }

  lemma {:induction false} RunKeepsStrangersOut(g: Guard, s: State, acts: seq<Action>)
    requires s.Valid() && StrangersOut(s)
    ensures StrangersOut(Exec(g, s, acts))
  {
    if acts == [] {
    } else {
      RunKeepsStrangersOut(g, s, acts[..|acts| - 1]);
      StepKeepsStrangersOut(g, Exec(g, s, acts[..|acts| - 1]), acts[|acts| - 1]);
    }
  }

  lemma EveryRunLinearizes(g: Guard, s: State, acts: seq<Action>)
    requires Initial(s) && SafeRun(g, s, acts)
    ensures var r := Exec(g, s, acts);
            && Linearizable(r.h, r.sh.Size())
            && Replay(r.h, r.sh.Size()).value == Live(r)
  {
    InitialInv(s);
    RunKeepsInv(g, s, acts);
    RunKeepsStrangersOut(g, s, acts);
    var r := Exec(g, s, acts);
    forall who
      ensures PhaseOf(r.h, who) != Broken
    {
      if who.TheThief? && who.id < |r.thieves| {
        assert ThiefInv(r, who.id);
      }
    }
  }

  // ----------------------------------------------------------- exactly once

  // Is x the push in progress; is x claimed by a pop that has not returned?
  function Pending(s: State, x: Entry): nat
    requires s.Valid()
  {
    if OwnerPhase(s) == Called(Push(x)) then 1 else 0
  }

  function InFlight(s: State, x: Entry): nat
    requires s.Valid()
  {
    if OwnerPhase(s) == Done(Popped(x)) then 1 else 0
  }

  predicate OffersAccounted(s: State, x: Entry)
    requires s.Valid()
  {
    Count(s.h, Offers, x) == Count(s.h, Accepts, x) + Count(s.h, Inlines, x) + Pending(s, x)
  }

  predicate TakesAccounted(s: State, x: Entry)
    requires s.Valid()
  {
    Count(s.h, Takes, x) == Count(s.h, Delivers, x) + InFlight(s, x)
  }

  predicate Accounted(s: State, x: Entry)
    requires s.Valid()
  {
    OffersAccounted(s, x) && TakesAccounted(s, x)
  }

  lemma OwnerKeepsOffers(g: Guard, s: State, x: Entry)
    requires s.Valid() && OffersAccounted(s, x)
    ensures OffersAccounted(OwnerStep(g, s), x)
  {
  }

  lemma OwnerKeepsTakes(g: Guard, s: State, x: Entry)
    requires Inv(s) && Safe(s) && TakesAccounted(s, x)
    ensures TakesAccounted(OwnerStep(g, s), x)
  {
  }

  lemma ThiefKeepsAccounts(s: State, i: nat, x: Entry)
    requires s.Valid() && Accounted(s, x) && i < |s.thieves|
    ensures Accounted(ThiefStep(s, i), x)
  {
    assert OwnerPhase(ThiefStep(s, i)) == OwnerPhase(s);
  }

  lemma StepKeepsAccounts(g: Guard, s: State, a: Action, x: Entry)
    requires Inv(s) && Safe(s) && Accounted(s, x)
    ensures Accounted(Step(g, s, a), x)
  {
    match a
    case OwnerAccess =>
      OwnerKeepsOffers(g, s, x);
      OwnerKeepsTakes(g, s, x);
    case ThiefAccess(i) => if i < |s.thieves| { ThiefKeepsAccounts(s, i, x); }
    case _ =>
  }

  lemma {:induction false} RunKeepsAccounts(g: Guard, s: State, acts: seq<Action>, x: Entry)
    requires Inv(s) && Accounted(s, x) && SafeRun(g, s, acts)
    ensures Accounted(Exec(g, s, acts), x)
  {
    if acts == [] {
    } else {
      var front := acts[..|acts| - 1];
      RunKeepsAccounts(g, s, front, x);
      RunKeepsInv(g, s, front);
      StepKeepsAccounts(g, Exec(g, s, front), acts[|acts| - 1], x);
    }
  }

  // Every task ever offered is in exactly one place: still being pushed, run
  // inline, live in the ring, claimed by the pop in progress, or delivered.
  lemma ExactlyOnePlace(g: Guard, s: State, acts: seq<Action>, x: Entry)
    requires Initial(s) && SafeRun(g, s, acts)
    ensures var r := Exec(g, s, acts);
            Count(r.h, Offers, x) == Pending(r, x) + Count(r.h, Inlines, x) + Holding(Live(r), x)
                                     + InFlight(r, x) + Count(r.h, Delivers, x)
  {
    InitialInv(s);
    RunKeepsInv(g, s, acts);
    RunKeepsAccounts(g, s, acts, x);
    ReplayConserves(Exec(g, s, acts).h, s.sh.Size(), x);
  }

  // ---------------------------------------------------- indices and contention

  lemma IndexInvariant(g: Guard, s: State, acts: seq<Action>)
    requires Initial(s) && SafeRun(g, s, acts)
    ensures var r := Exec(g, s, acts);
            && 0 <= r.sh.top <= r.sh.bottom + 1
            && (r.owner.Idle? ==> r.sh.top <= r.sh.bottom)
            && r.sh.bottom - r.sh.top <= r.sh.Size()
            && (r.owner.PushTask? || r.owner.PushPayload? || r.owner.PopTask? || r.owner.PopPayload? ==> r.owner.b >= 0)
            && forall i | 0 <= i < |r.thieves| :: !r.thieves[i].Away? ==> r.thieves[i].t >= 0
  {
    InitialInv(s);
    RunKeepsInv(g, s, acts);
    var r := Exec(g, s, acts);
    forall i | 0 <= i < |r.thieves|
      ensures !r.thieves[i].Away? ==> r.thieves[i].t >= 0
    {
      assert ThiefInv(r, i);
    }
  }

  lemma {:induction false} TopNeverDecreases(g: Guard, s: State, acts: seq<Action>)
    requires s.Valid()
    ensures s.sh.top <= Exec(g, s, acts).sh.top
  {
    if acts == [] {
    } else {
      TopNeverDecreases(g, s, acts[..|acts| - 1]);
    }
  }

  // The index of a compare-exchange about to be tried, by anyone.
  predicate Claims(s: State, a: Action, t: int) {
    || (a.OwnerAccess? && s.owner.PopCas? && s.owner.b == t)
    || (a.ThiefAccess? && a.id < |s.thieves| && s.thieves[a.id].StealCas? && s.thieves[a.id].t == t)
  }

  predicate Wins(s: State, a: Action, t: int) {
    Claims(s, a, t) && s.sh.top == t
  }

  lemma FailedClaim(g: Guard, s: State, a: Action, t: int)
    requires s.Valid() && Claims(s, a, t) && s.sh.top != t
    ensures var r := Step(g, s, a);
            r.sh.top == s.sh.top && forall x :: Count(r.h, Takes, x) == Count(s.h, Takes, x)
  {
  }

  lemma WinMovesTop(g: Guard, s: State, a: Action, t: int)
    requires s.Valid() && Wins(s, a, t)
    ensures Step(g, s, a).sh.top == t + 1
  {
  }

  // A logical index is won at most once: after the first success every later
  // compare-exchange at that index fails and delivers nothing.
  lemma IndexIsWonOnce(g: Guard, s: State, a: Action, acts: seq<Action>, a': Action, t: int)
    requires s.Valid() && Wins(s, a, t)
    ensures var s' := Exec(g, Step(g, s, a), acts);
            && !Wins(s', a', t)
            && (Claims(s', a', t) ==>
                  && Step(g, s', a').sh.top == s'.sh.top
                  && forall x :: Count(Step(g, s', a').h, Takes, x) == Count(s'.h, Takes, x))
  {
    WinMovesTop(g, s, a, t);
    TopNeverDecreases(g, Step(g, s, a), acts);
    var s' := Exec(g, Step(g, s, a), acts);
    if Claims(s', a', t) { FailedClaim(g, s', a', t); }
  }

  // Whoever wins an index has copied the matching task and payload of the
  // entry at that end of the deque, however often slots were reused meanwhile.
  lemma WinnerHoldsStoredPair(g: Guard, s: State, acts: seq<Action>, a: Action, t: int)
    requires Initial(s) && SafeRun(g, s, acts) && Wins(Exec(g, s, acts), a, t)
    ensures var r := Exec(g, s, acts);
            && Live(r) != []
            && (a.ThiefAccess? ==> r.thieves[a.id].entry == Live(r)[0])
            && (a.OwnerAccess? ==> Live(r) == [r.owner.entry])
  {
    InitialInv(s);
    RunKeepsInv(g, s, acts);
    var r := Exec(g, s, acts);
    if a.ThiefAccess? { assert ThiefInv(r, a.id); }
  }

  // ------------------------------------------ a pop that needed no exchange

  // No push is published along the run.
  ghost predicate Quiet(g: Guard, s: State, acts: seq<Action>)
    requires s.Valid()
  {
    acts != [] ==>
      && Quiet(g, s, acts[..|acts| - 1])
      && !(acts[|acts| - 1].OwnerAccess? && Exec(g, s, acts[..|acts| - 1]).owner.PushStore?)
  }

  lemma StepKeepsHigh(g: Guard, s: State, a: Action)
    requires Inv(s) && Safe(s) && !(a.OwnerAccess? && s.owner.PushStore?)
    ensures High(Step(g, s, a)) <= High(s)
  {
  }

  lemma {:induction false} QuietRunKeepsHigh(g: Guard, s: State, acts: seq<Action>)
    requires Inv(s) && SafeRun(g, s, acts) && Quiet(g, s, acts)
    ensures High(Exec(g, s, acts)) <= High(s)
  {
    if acts == [] {
    } else {
      var front := acts[..|acts| - 1];
      QuietRunKeepsHigh(g, s, front);
      RunKeepsInv(g, s, front);
      StepKeepsHigh(g, Exec(g, s, front), acts[|acts| - 1]);
    }
  }

  // Once a pop has seen t < b it owns index b: in every continuation, until a
  // new push is published, no compare-exchange at b succeeds.
  lemma UncontendedPopIsSafe(g: Guard, s: State, acts: seq<Action>, b: int, t: int, more: seq<Action>, a: Action)
    requires Initial(s) && SafeRun(g, s, acts)
    requires Exec(g, s, acts).owner == PopTask(b, t) && t < b
    requires SafeRun(g, Exec(g, s, acts), more) && Quiet(g, Exec(g, s, acts), more)
    ensures var r := Exec(g, Exec(g, s, acts), more); r.sh.top <= b && !Wins(r, a, b)
  {
    InitialInv(s);
    RunKeepsInv(g, s, acts);
    var m := Exec(g, s, acts);
    QuietRunKeepsHigh(g, m, more);
    RunKeepsInv(g, m, more);
    var r := Exec(g, m, more);
    if a.ThiefAccess? && a.id < |r.thieves| { assert ThiefInv(r, a.id); }
  }

  // ------------------------------------------- a steal that overlooks an entry

  // The owner's pop has lowered `bottom` onto the last entry.
  predicate ClaimsLast(s: State) {
    match s.owner
    case PopTop(b) => s.sh.top >= b
    case PopTask(b, t) => t == b
    case PopPayload(b, t, _) => t == b
    case PopCas(_, _) => true
    case _ => false
  }

  // The thief found index b below `bottom` and goes on to try for it.
  predicate Committed(pc: Thief, b: int) {
    !pc.Away? && !pc.StealBottom? && pc.t == b
  }

  // The entry at b is gone, or the pop that claims it is still under way and
  // thief i is not in the race for it.
  ghost predicate SpokenFor(s: State, i: nat, b: int) {
    s.sh.top > b || (ClaimsLast(s) && s.owner.b == b && i < |s.thieves| && !Committed(s.thieves[i], b))
  }

  lemma StepKeepsSpokenFor(g: Guard, s: State, a: Action, i: nat, b: int)
    requires Inv(s) && Safe(s) && SpokenFor(s, i, b)
    ensures SpokenFor(Step(g, s, a), i, b)
  {
    if a.ThiefAccess? && a.id < |s.thieves| { assert ThiefInv(s, a.id); }
  }

  lemma {:induction false} RunKeepsSpokenFor(g: Guard, s: State, acts: seq<Action>, i: nat, b: int)
    requires Inv(s) && SafeRun(g, s, acts) && SpokenFor(s, i, b)
    ensures SpokenFor(Exec(g, s, acts), i, b)
  {
    if acts == [] {
    } else {
      var front := acts[..|acts| - 1];
      RunKeepsSpokenFor(g, s, front, i, b);
      RunKeepsInv(g, s, front);
      StepKeepsSpokenFor(g, Exec(g, s, front), acts[|acts| - 1], i, b);
    }
  }

  // Thief i is about to give up on a deque that is not empty.
  predicate Overlooks(s: State, i: nat)
    requires s.Valid()
  {
    i < |s.thieves| && s.thieves[i].StealBottom? && s.thieves[i].t >= s.sh.bottom && Live(s) != []
  }

  lemma OverlookedIsClaimed(s: State, i: nat)
    requires Inv(s) && Overlooks(s, i)
    ensures ClaimsLast(s) && s.owner.b == s.sh.bottom
    ensures Live(s) == [s.sh.Slot(s.sh.bottom)]
  {
    assert ThiefInv(s, i);
  }

  lemma NoWinWhenSpokenFor(s: State, i: nat, b: int)
    requires SpokenFor(s, i, b)
    ensures !Wins(s, ThiefAccess(i), b) && (s.sh.top > b || (ClaimsLast(s) && s.owner.b == b))
  {
  }

  // A steal that gives up although an entry is in the deque overlooks only the
  // one the owner's pop is claiming. In every continuation that entry is gone
  // when the pop is over, and it is not won by any thief j that was not already
  // trying for it, the one that gave up included, however often it comes back.
  lemma StealOverlooksOnlyTheClaimed(g: Guard, s: State, acts: seq<Action>, i: nat, j: nat, more: seq<Action>)
    requires Initial(s) && SafeRun(g, s, acts) && Overlooks(Exec(g, s, acts), i)
    requires var m := Exec(g, s, acts); j < |m.thieves| && (j == i || !Committed(m.thieves[j], m.sh.bottom))
    requires SafeRun(g, Exec(g, s, acts), more)
    ensures var m := Exec(g, s, acts); var r, b := Exec(g, m, more), m.sh.bottom;
            && Live(m) == [m.sh.Slot(b)]
            && (r.sh.top > b || (ClaimsLast(r) && r.owner.b == b))
            && !Wins(r, ThiefAccess(j), b)
  {
    InitialInv(s);
    RunKeepsInv(g, s, acts);
    var m := Exec(g, s, acts);
    OverlookedIsClaimed(m, i);
    RunKeepsSpokenFor(g, m, more, j, m.sh.bottom);
    NoWinWhenSpokenFor(Exec(g, m, more), j, m.sh.bottom);
  }

  // ------------------------------------------------------ the guard as written

  // Accesses left until the owner's operation returns.
  function Remaining(pc: Owner): nat {
    match pc
    case Idle => 0
    case PushBegin(_) => 5
    case PushTop(_, _) => 4
    case PushTask(_, _) => 3
    case PushPayload(_, _) => 2
    case PushStore(_, _) => 1
    case PopBegin => 7
    case PopLower(_) => 6
    case PopTop(_) => 5
    case PopTask(_, _) => 4
    case PopPayload(_, _, _) => 3
    case PopCas(_, _) => 2
    case PopRestore(_, _) => 1
  }

  // The owner's operation carried to its return without interruption.
  function RunOut(g: Guard, s: State): (r: State)
    requires s.Valid()
    ensures r.Valid() && r.sh.Size() == s.sh.Size() && r.owner.Idle?
    decreases Remaining(s.owner)
  {
    if s.owner.Idle? then s else RunOut(g, OwnerStep(g, s))
  }

  lemma Unroll(g: Guard, s: State)
    requires s.Valid()
    ensures RunOut(g, s) == RunOut(g, OwnerStep(g, s))
  {
  }

  // The push from its first slot write on, undisturbed.
  lemma CrowdedPushMemory(s: State)
    requires Inv(s) && Crowded(s)
    ensures var sh, e := s.sh, s.owner.entry; var r := RunOut(AsWritten, s); var ix := s.owner.b % sh.Size();
            && r.owner.Idle?
            && r.sh == Shared(sh.top, sh.bottom + 1, sh.tasks[ix := e.task], sh.payloads[ix := e.payload])
            && r.h == After(s.h, Lin(TheOwner, Pushed(e)), Ret(TheOwner, Pushed(e)))
  {
    var s1 := OwnerStep(AsWritten, s);
    var s2 := OwnerStep(AsWritten, s1);
    Unroll(AsWritten, s); Unroll(AsWritten, s1); Unroll(AsWritten, s2);
  }

  lemma OverwrittenWindow(sh: Shared, e: Entry)
    requires sh.Valid() && sh.bottom - sh.top == sh.Size()
    ensures var ix := sh.bottom % sh.Size();
            var sh' := Shared(sh.top, sh.bottom + 1, sh.tasks[ix := e.task], sh.payloads[ix := e.payload]);
            Window(sh', sh.top, sh.bottom + 1) == [e] + Window(sh, sh.top, sh.bottom)[1..] + [e]
  {
    var n, t, b := sh.Size(), sh.top, sh.bottom;
    var sh' := Shared(t, b + 1, sh.tasks[b % n := e.task], sh.payloads[b % n := e.payload]);
    assert b % n == t % n by { Bits.DivModUnique(b, n, t / n + 1, t % n); }
    assert sh'.Slot(b) == e && sh'.Slot(t) == e;
    WriteOutside(sh, sh', t + 1, b, b);
    WindowTail(sh, t, b);
    WindowTail(sh', t, b);
    assert Window(sh', t, b) == [e] + Window(sh', t + 1, b);
    WindowSnoc(sh', t, b);
  }

  // In an exactly full ring it replaces the oldest entry and then publishes a
  // second copy of the new one.
  lemma CrowdedPushOverwritesOldest(s: State)
    requires Inv(s) && Crowded(s)
    ensures var r := RunOut(AsWritten, s); var e := s.owner.entry;
            && r.owner.Idle?
            && Live(r) == [e] + Live(s)[1..] + [e]
            && Replay(r.h, r.sh.Size()) == None
  {
    CrowdedPushMemory(s);
    OverwrittenWindow(s.sh, s.owner.entry);
    ReplayOverfull(s, s.owner.entry);
  }

  lemma ReplayOverfull(s: State, e: Entry)
    requires Inv(s) && |Live(s)| == s.sh.Size()
    ensures Replay(After(s.h, Lin(TheOwner, Pushed(e)), Ret(TheOwner, Pushed(e))), s.sh.Size()) == None
  {
    assert Replay(Then(s.h, Lin(TheOwner, Pushed(e))), s.sh.Size()) == None;
  }

  // So a push that is not disturbed from there on keeps the history legal
  // exactly when it does not write into a full ring.
  lemma WrittenPushIsLegalIffNotCrowded(s: State)
    requires Inv(s) && s.owner.PushTask?
    ensures Replay(RunOut(AsWritten, s).h, s.sh.Size()).Some? <==> !Crowded(s)
  {
    if Crowded(s) {
      CrowdedPushOverwritesOldest(s);
    } else {
      OwnerStepKeepsInv(AsWritten, s);
      var s1 := OwnerStep(AsWritten, s);
      OwnerStepKeepsInv(AsWritten, s1);
      var s2 := OwnerStep(AsWritten, s1);
      OwnerStepKeepsInv(AsWritten, s2);
      Unroll(AsWritten, s); Unroll(AsWritten, s1); Unroll(AsWritten, s2);
    }
  }

  lemma ExecSnoc(g: Guard, s: State, acts: seq<Action>, a: Action)
    requires s.Valid()
    ensures Exec(g, s, acts + [a]) == Step(g, Exec(g, s, acts), a)
    ensures SafeRun(g, s, acts + [a]) <==> SafeRun(g, s, acts) && Safe(Exec(g, s, acts))
  {
    assert (acts + [a])[..|acts|] == acts;
  }

  predicate OwnerAlone(acts: seq<Action>) {
    forall k | 0 <= k < |acts| :: !acts[k].ThiefAccess?
  }

  // From a queue with its owner idle the push as written gets to its slot, full
  // or not.
  lemma PushReachesSlot(s: State, acts: seq<Action>, e: Entry) returns (more: seq<Action>)
    requires s.Valid() && SafeRun(AsWritten, s, acts) && Exec(AsWritten, s, acts).owner.Idle?
    requires var m := Exec(AsWritten, s, acts); m.sh.bottom - m.sh.top <= m.sh.Size()
    ensures SafeRun(AsWritten, s, more) && (OwnerAlone(acts) ==> OwnerAlone(more))
    ensures var m, r := Exec(AsWritten, s, acts), Exec(AsWritten, s, more);
            r.owner == PushTask(e, m.sh.bottom) && r.sh == m.sh
  {
    var begun := acts + [StartPush(e)];
    ExecSnoc(AsWritten, s, acts, StartPush(e));
    ExecSnoc(AsWritten, s, begun, OwnerAccess);
    ExecSnoc(AsWritten, s, begun + [OwnerAccess], OwnerAccess);
    more := begun + [OwnerAccess] + [OwnerAccess];
  }

  // From there to its return.
  lemma PushReturns(s: State, acts: seq<Action>) returns (more: seq<Action>)
    requires s.Valid() && Exec(AsWritten, s, acts).owner.PushTask?
    ensures Exec(AsWritten, s, more) == RunOut(AsWritten, Exec(AsWritten, s, acts))
    ensures SafeRun(AsWritten, s, acts) && Safe(Exec(AsWritten, s, acts)) ==> SafeRun(AsWritten, s, more)
    ensures OwnerAlone(acts) ==> OwnerAlone(more)
  {
    var m := Exec(AsWritten, s, acts);
    ExecSnoc(AsWritten, s, acts, OwnerAccess);
    ExecSnoc(AsWritten, s, acts + [OwnerAccess], OwnerAccess);
    ExecSnoc(AsWritten, s, acts + [OwnerAccess] + [OwnerAccess], OwnerAccess);
    more := acts + [OwnerAccess] + [OwnerAccess] + [OwnerAccess];
    PushRunsOut(m);
  }

  lemma PushRunsOut(m: State)
    requires m.Valid() && m.owner.PushTask?
    ensures var r := RunOut(AsWritten, m);
            && r == OwnerStep(AsWritten, OwnerStep(AsWritten, OwnerStep(AsWritten, m)))
            && r.owner.Idle? && r.sh.top == m.sh.top && r.sh.bottom == m.owner.b + 1
  {
    var s1 := OwnerStep(AsWritten, m);
    var s2 := OwnerStep(AsWritten, s1);
    Unroll(AsWritten, m); Unroll(AsWritten, s1); Unroll(AsWritten, s2);
  }

  lemma {:induction false} FillRing(s: State, k: nat) returns (acts: seq<Action>)
    requires Initial(s) && k <= s.sh.Size()
    ensures SafeRun(AsWritten, s, acts) && OwnerAlone(acts)
    ensures var r := Exec(AsWritten, s, acts); r.owner.Idle? && r.sh.top == 0 && r.sh.bottom == k
  {
    if k == 0 {
      acts := [];
    } else {
      acts := FillRing(s, k - 1);
      acts := PushReachesSlot(s, acts, Entry(0, 0));
      PushRunsOut(Exec(AsWritten, s, acts));
      acts := PushReturns(s, acts);
    }
  }

  // As written, filling the ring and pushing once more is a run that is legal
  // up to the slot write and not after it.
  lemma WrittenRunIsIllegal(s: State) returns (safe: seq<Action>, illegal: seq<Action>)
    requires Initial(s)
    ensures SafeRun(AsWritten, s, safe) && Crowded(Exec(AsWritten, s, safe))
    ensures Replay(Exec(AsWritten, s, illegal).h, s.sh.Size()) == None
    ensures OwnerAlone(illegal) && Exec(AsWritten, s, illegal).owner.Idle?
  {
    safe := FillRing(s, s.sh.Size());
    safe := PushReachesSlot(s, safe, Entry(0, 0));
    InitialInv(s);
    RunKeepsInv(AsWritten, s, safe);
    CrowdedPushOverwritesOldest(Exec(AsWritten, s, safe));
    illegal := PushReturns(s, safe);
  }

  lemma CrowdedRunIsUnsafe(g: Guard, s: State, acts: seq<Action>)
    requires s.Valid() && Crowded(Exec(g, s, acts))
    ensures !SafeRun(g, s, acts + [OwnerAccess])
  {
    ExecSnoc(g, s, acts, OwnerAccess);
  }

  // Exactly the repaired test keeps the pushes of every run out of full rings.
  lemma EveryRunIsSafeIff(g: Guard, s: State)
    requires Initial(s)
    ensures (forall acts :: SafeRun(g, s, acts)) <==> g == Repaired
  {
    if g == Repaired {
      forall acts
        ensures SafeRun(g, s, acts)
      {
        RepairedRunsAreSafe(s, acts);
      }
    } else {
      var safe, illegal := WrittenRunIsIllegal(s);
      CrowdedRunIsUnsafe(g, s, safe);
    }
  }

  // The full test decides linearizability: from a fresh queue of any size, with
  // any number of thieves, all runs are linearizable exactly if it is repaired.
  lemma EveryRunLinearizesIff(g: Guard, s: State)
    requires Initial(s)
    ensures (forall acts :: Linearizable(Exec(g, s, acts).h, s.sh.Size())) <==> g == Repaired
  {
    if g == Repaired {
      forall acts
        ensures Linearizable(Exec(g, s, acts).h, s.sh.Size())
      {
        RepairedRunsAreSafe(s, acts);
        EveryRunLinearizes(g, s, acts);
      }
    } else {
      var safe, illegal := WrittenRunIsIllegal(s);
    }
  }
}
