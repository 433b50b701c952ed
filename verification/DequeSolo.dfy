// Progress of the queue's operations: each finishes within a fixed number of its
// own accesses whatever the others do, and what each does when nobody disturbs it.
module DequeSolo {
  import opened Options
  import opened DequeHistory
  import opened DequeMachine
  import opened DequeTheorems
  import opened SharedOwner

  // ------------------------------------------------------------ wait-freedom

  // Accesses left until the steal returns.
  function StealRemaining(pc: Thief): nat {
    match pc
    case Away => 0
    case StealBottom(_) => 4
    case StealTask(_) => 3
    case StealPayload(_, _) => 2
    case StealCas(_, _) => 1
  }

  function Accesses(acts: seq<Action>, a: Action): nat {
    if acts == [] then 0 else Accesses(acts[..|acts| - 1], a) + if acts[|acts| - 1] == a then 1 else 0
  }

  lemma OwnerStepSpends(g: Guard, s: State, a: Action)
    requires s.Valid() && !s.owner.Idle?
    ensures var r := Step(g, s, a);
            if a == OwnerAccess then Remaining(r.owner) < Remaining(s.owner) else r.owner == s.owner
  {
  }

  // An operation of the owner in progress is over after at most seven accesses of
  // its own, however many accesses of thieves fall in between.
  lemma {:induction false} OwnerIsWaitFree(g: Guard, s: State, acts: seq<Action>)
    requires s.Valid()
    ensures (exists k | 0 <= k <= |acts| :: Exec(g, s, acts[..k]).owner.Idle?)
            || Remaining(Exec(g, s, acts).owner) + Accesses(acts, OwnerAccess) <= Remaining(s.owner)
  {
    if acts == [] {
    } else {
      var n := |acts| - 1;
      OwnerIsWaitFree(g, s, acts[..n]);
      if k :| 0 <= k <= n && Exec(g, s, acts[..n][..k]).owner.Idle? {
        assert acts[..n][..k] == acts[..k];
      } else {
        assert acts[..n][..n] == acts[..n];
        OwnerStepSpends(g, Exec(g, s, acts[..n]), acts[n]);
      }
    }
  }

  lemma OwnerReturns(g: Guard, s: State, acts: seq<Action>)
    requires s.Valid() && Accesses(acts, OwnerAccess) >= 7
    ensures exists k | 0 <= k <= |acts| :: Exec(g, s, acts[..k]).owner.Idle?
  {
    OwnerIsWaitFree(g, s, acts);
    assert acts[..|acts|] == acts;
  }

  lemma ThiefStepSpends(g: Guard, s: State, a: Action, i: nat)
    requires s.Valid() && i < |s.thieves| && !s.thieves[i].Away?
    ensures var r := Step(g, s, a);
            if a == ThiefAccess(i) then StealRemaining(r.thieves[i]) < StealRemaining(s.thieves[i])
            else r.thieves[i] == s.thieves[i]
  {
  }

  // A steal in progress is over after at most four accesses of its own.
  lemma {:induction false} ThiefIsWaitFree(g: Guard, s: State, acts: seq<Action>, i: nat)
    requires s.Valid() && i < |s.thieves|
    ensures (exists k | 0 <= k <= |acts| :: Exec(g, s, acts[..k]).thieves[i].Away?)
            || StealRemaining(Exec(g, s, acts).thieves[i]) + Accesses(acts, ThiefAccess(i))
               <= StealRemaining(s.thieves[i])
  {
    if acts == [] {
    } else {
      var n := |acts| - 1;
      ThiefIsWaitFree(g, s, acts[..n], i);
      if k :| 0 <= k <= n && Exec(g, s, acts[..n][..k]).thieves[i].Away? {
        assert acts[..n][..k] == acts[..k];
      } else {
        assert acts[..n][..n] == acts[..n];
        ThiefStepSpends(g, Exec(g, s, acts[..n]), acts[n], i);
      }
    }
  }

  lemma ThiefReturns(g: Guard, s: State, acts: seq<Action>, i: nat)
    requires s.Valid() && i < |s.thieves| && Accesses(acts, ThiefAccess(i)) >= 4
    ensures exists k | 0 <= k <= |acts| :: Exec(g, s, acts[..k]).thieves[i].Away?
  {
    ThiefIsWaitFree(g, s, acts, i);
    assert acts[..|acts|] == acts;
  }

  // ------------------------------------------------------------- undisturbed

  function Repeat(a: Action, n: nat): (acts: seq<Action>)
    ensures |acts| == n
  {
    seq(n, i => a)
  }

  lemma {:induction false} ExecFirst(g: Guard, s: State, a: Action, acts: seq<Action>)
    requires s.Valid()
    ensures Exec(g, s, [a] + acts) == Exec(g, Step(g, s, a), acts)
  {
    if acts == [] {
      assert [a] + acts == [a] && [a][..0] == [];
      ExecSnoc(g, s, [], a);
      assert [] + [a] == [a];
    } else {
      ExecFirst(g, s, a, acts[..|acts| - 1]);
      assert ([a] + acts)[..|acts|] == [a] + acts[..|acts| - 1];
    }
  }

  lemma RepeatFirst(g: Guard, s: State, a: Action, n: nat)
    requires s.Valid() && n > 0
    ensures Exec(g, s, Repeat(a, n)) == Exec(g, Step(g, s, a), Repeat(a, n - 1))
  {
    assert Repeat(a, n) == [a] + Repeat(a, n - 1);
    ExecFirst(g, s, a, Repeat(a, n - 1));
  }

  // How many accesses of the owner, undisturbed, carry its operation to the return.
  function Cost(g: Guard, s: State): nat
    requires s.Valid()
    decreases Remaining(s.owner)
  {
    if s.owner.Idle? then 0 else 1 + Cost(g, OwnerStep(g, s))
  }

  lemma {:induction false} OwnerStillBusy(g: Guard, s: State, n: nat)
    requires s.Valid() && n < Cost(g, s)
    ensures !Exec(g, s, Repeat(OwnerAccess, n)).owner.Idle?
    decreases n
  {
    if n == 0 {
    } else {
      RepeatFirst(g, s, OwnerAccess, n);
      OwnerStillBusy(g, OwnerStep(g, s), n - 1);
    }
  }

  lemma CostNext(g: Guard, s: State)
    requires s.Valid() && !s.owner.Idle?
    ensures Cost(g, s) == 1 + Cost(g, OwnerStep(g, s))
  {
  }

  lemma {:induction false} OwnerRunsOutAt(g: Guard, s: State, n: nat)
    requires s.Valid() && n == Cost(g, s)
    ensures Exec(g, s, Repeat(OwnerAccess, n)) == RunOut(g, s)
    decreases n
  {
    if n == 0 {
    } else {
      RepeatFirst(g, s, OwnerAccess, n);
      OwnerRunsOutAt(g, OwnerStep(g, s), n - 1);
    }
  }

  // Entry e has gone in at the right and nothing else has changed.
  predicate Appended(sh: Shared, sh': Shared, e: Entry)
    requires sh.Valid() && sh'.Valid()
  {
    && sh'.top == sh.top && sh'.bottom == sh.bottom + 1 && sh'.Size() == sh.Size()
    && sh'.Slot(sh.bottom) == e
    && forall k | 0 <= k < sh.Size() && k != sh.bottom % sh.Size() ::
         sh'.tasks[k] == sh.tasks[k] && sh'.payloads[k] == sh.payloads[k]
  }

  lemma PushToReturn(g: Guard, s: State, e: Entry)
    requires s.Valid() && s.owner == PushBegin(e)
    ensures var r := RunOut(g, s);
            if (if g == AsWritten then s.sh.bottom - s.sh.top > s.sh.Size() else s.sh.bottom - s.sh.top >= s.sh.Size())
            then Returned(r) == Some(RanInline(e)) && r.sh == s.sh
            else Returned(r) == Some(Pushed(e)) && Appended(s.sh, r.sh, e)
  {
    var s1 := OwnerStep(g, s);
    var s2 := OwnerStep(g, s1);
    Unroll(g, s); Unroll(g, s1);
    if !s2.owner.Idle? {
      var s3 := OwnerStep(g, s2);
      var s4 := OwnerStep(g, s3);
      Unroll(g, s2); Unroll(g, s3); Unroll(g, s4);
    }
  }

  lemma {:induction false} RunOutKeepsThieves(g: Guard, s: State)
    requires s.Valid()
    ensures RunOut(g, s).thieves == s.thieves
    decreases Remaining(s.owner)
  {
    if s.owner.Idle? {
    } else {
      OwnerStepSpends(g, s, OwnerAccess);
      RunOutKeepsThieves(g, OwnerStep(g, s));
    }
  }

  // The operation begun by `start` is in progress until exactly the n-th access
  // that follows, and then has returned.
  predicate TakesExactly(g: Guard, s: State, start: Action, n: nat)
    requires s.Valid()
  {
    && n > 0
    && !Exec(g, s, [start] + Repeat(OwnerAccess, n - 1)).owner.Idle?
    && Exec(g, s, [start] + Repeat(OwnerAccess, n)).owner.Idle?
  }

  lemma SoloRun(g: Guard, s: State, start: Action, n: nat)
    requires s.Valid() && n > 0 && Cost(g, Step(g, s, start)) == n && (start.StartPush? || start.StartPop?)
    ensures TakesExactly(g, s, start, n)
    ensures var r := Exec(g, s, [start] + Repeat(OwnerAccess, n));
            r == RunOut(g, Step(g, s, start)) && r.thieves == s.thieves
  {
    var begun := Step(g, s, start);
    ExecFirst(g, s, start, Repeat(OwnerAccess, n - 1));
    ExecFirst(g, s, start, Repeat(OwnerAccess, n));
    OwnerStillBusy(g, begun, n - 1);
    OwnerRunsOutAt(g, begun, n);
    RunOutKeepsThieves(g, begun);
  }

  lemma PushCost(g: Guard, s: State, e: Entry)
    requires s.Valid() && s.owner == PushBegin(e)
    ensures var held := s.sh.bottom - s.sh.top;
            Cost(g, s) == if (if g == AsWritten then held > s.sh.Size() else held >= s.sh.Size()) then 2 else 5
  {
    var s1 := OwnerStep(g, s);
    var s2 := OwnerStep(g, s1);
    CostNext(g, s); CostNext(g, s1);
    if !s2.owner.Idle? {
      var s3 := OwnerStep(g, s2);
      var s4 := OwnerStep(g, s3);
      CostNext(g, s2); CostNext(g, s3); CostNext(g, s4);
    }
  }

  // A push nobody disturbs, from any state of the thieves: as written it runs the
  // task inline exactly if more than `size` entries are held, repaired exactly if
  // the ring is full, and otherwise appends it.
  lemma SoloPush(g: Guard, s: State, e: Entry)
    requires s.Valid() && s.owner.Idle?
    ensures var held := s.sh.bottom - s.sh.top;
            var full := if g == AsWritten then held > s.sh.Size() else held >= s.sh.Size();
            var n := if full then 2 else 5;
            var r := Exec(g, s, [StartPush(e)] + Repeat(OwnerAccess, n));
            && TakesExactly(g, s, StartPush(e), n) && r.thieves == s.thieves
            && if full then Returned(r) == Some(RanInline(e)) && r.sh == s.sh
               else Returned(r) == Some(Pushed(e)) && Appended(s.sh, r.sh, e)
  {
    var begun := Step(g, s, StartPush(e));
    PushCost(g, begun, e);
    SoloRun(g, s, StartPush(e), Cost(g, begun));
    PushToReturn(g, begun, e);
  }

  // From the load of `top` on.
  lemma PopTopCost(g: Guard, s: State)
    requires s.Valid() && s.owner.PopTop? && s.sh.top <= s.owner.b + 1
    ensures Cost(g, s) == if s.sh.top > s.owner.b then 2 else if s.sh.top == s.owner.b then 5 else 3
  {
    var s1 := OwnerStep(g, s);
    CostNext(g, s); CostNext(g, s1);
    if s.sh.top <= s.owner.b {
      var s2 := OwnerStep(g, s1);
      CostNext(g, s2);
      var s3 := OwnerStep(g, s2);
      if s.sh.top == s.owner.b {
        CostNext(g, s3); CostNext(g, OwnerStep(g, s3));
      }
    }
  }

  lemma PopCost(g: Guard, s: State)
    requires s.Valid() && s.owner == PopBegin && s.sh.top <= s.sh.bottom
    ensures var held := s.sh.bottom - s.sh.top;
            Cost(g, s) == if held == 0 then 4 else if held == 1 then 7 else 5
  {
    CostNext(g, s); CostNext(g, OwnerStep(g, s));
    PopTopCost(g, OwnerStep(g, OwnerStep(g, s)));
  }

  // A pop nobody disturbs takes the newest entry or fails on an empty queue.
  lemma SoloPop(s: State)
    requires s.Valid() && s.owner.Idle? && s.sh.top <= s.sh.bottom
    ensures var q := Contents(s);
            var n := if q == [] then 4 else if |q| == 1 then 7 else 5;
            var r := Exec(AsWritten, s, [StartPop] + Repeat(OwnerAccess, n));
            && TakesExactly(AsWritten, s, StartPop, n) && r.thieves == s.thieves
            && (q == [] ==> Returned(r) == Some(PopEmpty) && Contents(r) == [])
            && (q != [] ==> Returned(r) == Some(Popped(q[|q| - 1])) && Contents(r) == q[..|q| - 1])
  {
    var begun := Step(AsWritten, s, StartPop);
    PopCost(AsWritten, begun);
    SoloRun(AsWritten, s, StartPop, Cost(AsWritten, begun));
    PoppedContents(s.(h := begun.h));
  }

  // A pop that has lost the last entry changes nothing by its failed exchange;
  // `bottom` is put back by an access of its own, and only then it returns.
  lemma LostRace(g: Guard, s: State)
    requires s.Valid() && s.owner.PopCas? && s.sh.top != s.owner.b
    ensures var lost, r := Exec(g, s, Repeat(OwnerAccess, 1)), Exec(g, s, Repeat(OwnerAccess, 2));
            && !lost.owner.Idle? && lost.sh == s.sh
            && r.owner.Idle? && r.sh == s.sh.(bottom := s.owner.b + 1) && Returned(r) == Some(PopEmpty)
  {
    var lost := OwnerStep(g, s);
    var r := OwnerStep(g, lost);
    RepeatFirst(g, s, OwnerAccess, 1);
    RepeatFirst(g, s, OwnerAccess, 2);
    RepeatFirst(g, lost, OwnerAccess, 1);
    assert Exec(g, lost, Repeat(OwnerAccess, 0)) == lost && Exec(g, r, Repeat(OwnerAccess, 0)) == r;
  }

  // No access changes more than one of the two indices and the two arrays.
  lemma OneChangePerAccess(g: Guard, s: State, a: Action)
    requires s.Valid()
    ensures var sh, sh' := s.sh, Step(g, s, a).sh;
            || sh' == sh.(top := sh'.top)
            || sh' == sh.(bottom := sh'.bottom)
            || sh' == sh.(tasks := sh'.tasks)
            || sh' == sh.(payloads := sh'.payloads)
  {
  }

  // A steal nobody disturbs takes the oldest entry in five accesses, or finds the
  // queue empty in two.
  lemma SoloSteal(g: Guard, s: State, i: nat)
    requires s.Valid() && i < |s.thieves| && s.thieves[i].Away?
    ensures s.sh.top >= s.sh.bottom ==>
              var r := Exec(g, s, Repeat(ThiefAccess(i), 2));
              r.sh == s.sh && r.thieves == s.thieves && Returned(r) == Some(StealEmpty)
    ensures s.sh.top < s.sh.bottom ==>
              var r := Exec(g, s, Repeat(ThiefAccess(i), 5));
              && r.sh == s.sh.(top := s.sh.top + 1) && r.thieves == s.thieves
              && Returned(r) == Some(Stolen(s.sh.Slot(s.sh.top)))
  {
    var s2 := ThiefStep(ThiefStep(s, i), i);
    TwoAccesses(g, s, i, 2);
    assert Exec(g, s2, Repeat(ThiefAccess(i), 0)) == s2;
    assert s2.thieves[i].Away? ==> s2.thieves == s.thieves;
    if s.sh.top < s.sh.bottom {
      TwoAccesses(g, s, i, 5);
      TwoAccesses(g, s2, i, 3);
      var s4 := ThiefStep(ThiefStep(s2, i), i);
      RepeatFirst(g, s4, ThiefAccess(i), 1);
      var s5 := ThiefStep(s4, i);
      assert Exec(g, s5, Repeat(ThiefAccess(i), 0)) == s5;
      assert s5.thieves == s.thieves;
    }
  }

  lemma TwoAccesses(g: Guard, s: State, i: nat, n: nat)
    requires s.Valid() && i < |s.thieves| && n >= 2
    ensures Exec(g, s, Repeat(ThiefAccess(i), n))
         == Exec(g, ThiefStep(ThiefStep(s, i), i), Repeat(ThiefAccess(i), n - 2))
  {
    RepeatFirst(g, s, ThiefAccess(i), n);
    RepeatFirst(g, ThiefStep(s, i), ThiefAccess(i), n - 1);
  }
}
