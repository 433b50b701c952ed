// The inductive invariant of the queue's step machine.
module DequeInvariant {
  import opened Bits
  import opened Options
  import opened DequeHistory
  import opened DequeMachine

  // ---------------------------------------------------------- the invariant

  function OwnerPhase(s: State): Phase
    requires s.Valid()
  {
    match s.owner
    case Idle => Out
    case PushBegin(e) => Called(Push(e))
    case PushTop(e, _) => Called(Push(e))
    case PushTask(e, _) => Called(Push(e))
    case PushPayload(e, _) => Called(Push(e))
    case PushStore(e, _) => Called(Push(e))
    case PopTask(b, t) => if t == b then Called(Pop) else Done(Popped(s.sh.Slot(b)))
    case PopPayload(b, t, _) => if t == b then Called(Pop) else Done(Popped(s.sh.Slot(b)))
    case PopRestore(_, out) => Done(out)
    case _ => Called(Pop)
  }

  // What the owner's registers say about memory.
  ghost predicate OwnerInv(s: State)
    requires s.Valid()
  {
    var sh := s.sh;
    var n := sh.Size();
    && PhaseOf(s.h, TheOwner) == OwnerPhase(s)
    && match s.owner
       case Idle => true
       case PushBegin(_) => true
       case PushTop(_, b) => b == sh.bottom
       case PushTask(_, b) => b == sh.bottom
       case PushPayload(e, b) => b == sh.bottom && b - sh.top < n && sh.tasks[b % n] == e.task
       case PushStore(e, b) => b == sh.bottom && b - sh.top < n && sh.Slot(b) == e
       case PopBegin => true
       case PopLower(b) => b == sh.bottom - 1
       case PopTop(b) => b == sh.bottom
       case PopTask(b, t) => b == sh.bottom && 0 <= t <= b && t <= sh.top
       case PopPayload(b, t, task) => b == sh.bottom && 0 <= t <= b && t <= sh.top && task == sh.tasks[b % n]
       case PopCas(b, e) => b == sh.bottom && 0 <= b <= sh.top && e == sh.Slot(b)
       case PopRestore(b, out) => b == sh.bottom && sh.top == b + 1 && (out.Popped? || out.PopEmpty?)
  }

  // What thief i's registers say about memory: while `top` has not moved, its
  // index is live and what it copied is the matching pair stored there.
  ghost predicate ThiefInv(s: State, i: nat)
    requires s.Valid() && i < |s.thieves|
  {
    var sh := s.sh;
    var pc := s.thieves[i];
    && PhaseOf(s.h, TheThief(i)) == (if pc.Away? then Out else Called(Steal))
    && (!pc.Away? ==>
          && 0 <= pc.t <= sh.top
          && (pc.t < sh.top ==> TakenSinceCall(s.h, TheThief(i)))
          && (pc.t == sh.top && !pc.StealBottom? ==> pc.t < High(s))
          && (pc.t == sh.top && pc.StealPayload? ==> pc.task == sh.tasks[pc.t % sh.Size()])
          && (pc.t == sh.top && pc.StealCas? ==> pc.entry == sh.Slot(pc.t)))
  }

  ghost predicate Bounds(s: State) {
    0 <= s.sh.top <= High(s) <= s.sh.top + s.sh.Size()
  }

  ghost predicate Inv(s: State) {
    && s.Valid()
    && Bounds(s)
    && OwnerInv(s)
    && (forall i | 0 <= i < |s.thieves| :: ThiefInv(s, i))
    && Replay(s.h, s.sh.Size()) == Some(Live(s))
  }

  // The owner is about to write a slot of a ring that is exactly full.
  predicate Crowded(s: State) {
    s.owner.PushTask? && s.owner.b - s.sh.top == s.sh.Size()
  }

  // If the owner is about to write a slot, the ring has a free one.
  predicate Safe(s: State) {
    s.owner.PushTask? ==> s.owner.b - s.sh.top < s.sh.Size()
  }

  // ------------------------------------------------------------ ring lemmas

  lemma SlotsApart(i: int, j: int, n: nat)
    requires 0 < j - i < n
    ensures i % n != j % n
  {
    if i % n == j % n {
      var a, b := i / n, j / n;
      assert i == n * a + i % n && j == n * b + j % n;
      assert n * (b - a) == n * b - n * a;
      FactorPositive(n, b - a);
      MulAtLeast(n, b - a);
      assert false;
    }
  }

  // A write to slot j keeps every window that does not wrap onto it.
  lemma WriteOutside(sh: Shared, sh': Shared, lo: int, hi: int, j: int)
    requires sh.Valid() && sh'.Valid() && sh.Size() == sh'.Size()
    requires forall k | 0 <= k < sh.Size() && k != j % sh.Size() ::
               sh.tasks[k] == sh'.tasks[k] && sh.payloads[k] == sh'.payloads[k]
    requires hi <= j < lo + sh.Size()
    ensures forall i | lo <= i < hi :: sh.Slot(i) == sh'.Slot(i)
    ensures Window(sh, lo, hi) == Window(sh', lo, hi)
  {
    forall i | lo <= i < hi
      ensures sh.Slot(i) == sh'.Slot(i)
    {
      SlotsApart(i, j, sh.Size());
    }
  }

  lemma WindowSnoc(sh: Shared, lo: int, hi: int)
    requires sh.Valid() && lo <= hi
    ensures Window(sh, lo, hi + 1) == Window(sh, lo, hi) + [sh.Slot(hi)]
    ensures Window(sh, lo, hi + 1)[..hi - lo] == Window(sh, lo, hi)
  {
  }

  lemma WindowTail(sh: Shared, lo: int, hi: int)
    requires sh.Valid() && lo < hi
    ensures Window(sh, lo, hi)[0] == sh.Slot(lo)
    ensures Window(sh, lo, hi)[1..] == Window(sh, lo + 1, hi)
  {
  }

  lemma WindowFrame(sh: Shared, sh': Shared, lo: int, hi: int)
    requires sh.Valid() && sh'.Valid() && sh.tasks == sh'.tasks && sh.payloads == sh'.payloads
    ensures Window(sh, lo, hi) == Window(sh', lo, hi)
  {
  }

  // ------------------------------------------------------- the owner's step

  // Slots of live indices survive any owner access.
  lemma OwnerKeepsSlots(g: Guard, s: State, i: int)
    requires Inv(s) && Safe(s)
    requires s.sh.top <= i < High(s)
    ensures OwnerStep(g, s).sh.Slot(i) == s.sh.Slot(i)
  {
    match s.owner
    case PushTask(e, b) => SlotsApart(i, b, s.sh.Size());
    case PushPayload(e, b) => SlotsApart(i, b, s.sh.Size());
    case _ =>
  }

  lemma OwnerKeepsBounds(g: Guard, s: State)
    requires Inv(s) && Safe(s)
    ensures Bounds(OwnerStep(g, s))
  {
  }

  predicate IsPushing(pc: Owner) {
    pc.PushBegin? || pc.PushTop? || pc.PushTask? || pc.PushPayload? || pc.PushStore?
  }

  lemma PushKeepsOwner(g: Guard, s: State)
    requires Inv(s) && Safe(s) && IsPushing(s.owner)
    ensures OwnerInv(OwnerStep(g, s))
  {
  }

  lemma PopKeepsOwner(g: Guard, s: State)
    requires Inv(s) && !IsPushing(s.owner)
    ensures OwnerInv(OwnerStep(g, s))
  {
  }

  lemma OwnerKeepsOwner(g: Guard, s: State)
    requires Inv(s) && Safe(s)
    ensures OwnerInv(OwnerStep(g, s))
  {
    if IsPushing(s.owner) { PushKeepsOwner(g, s); } else { PopKeepsOwner(g, s); }
  }

  lemma PushKeepsThief(g: Guard, s: State, i: nat)
    requires Inv(s) && Safe(s) && i < |s.thieves| && IsPushing(s.owner)
    ensures ThiefInv(OwnerStep(g, s), i)
  {
    assert ThiefInv(s, i);
    var pc := s.thieves[i];
    if !pc.Away? && pc.t == s.sh.top && !pc.StealBottom? {
      OwnerKeepsSlots(g, s, pc.t);
    }
  }

  lemma PopKeepsThief(g: Guard, s: State, i: nat)
    requires Inv(s) && i < |s.thieves| && !IsPushing(s.owner)
    ensures ThiefInv(OwnerStep(g, s), i)
  {
    assert ThiefInv(s, i);
  }

  lemma OwnerKeepsThief(g: Guard, s: State, i: nat)
    requires Inv(s) && Safe(s) && i < |s.thieves|
    ensures ThiefInv(OwnerStep(g, s), i)
  {
    if IsPushing(s.owner) { PushKeepsThief(g, s, i); } else { PopKeepsThief(g, s, i); }
  }

  // Accesses after which some slot, `bottom` or `top` may have changed.
  predicate Writes(pc: Owner) {
    pc.PushTask? || pc.PushPayload? || pc.PushStore? || pc.PopTop? || pc.PopCas?
  }

  lemma ReadKeepsReplay(g: Guard, s: State)
    requires Inv(s) && Safe(s) && !Writes(s.owner)
    ensures var r := OwnerStep(g, s); Replay(r.h, r.sh.Size()) == Some(Live(r))
  {
    WindowFrame(s.sh, OwnerStep(g, s).sh, s.sh.top, High(s));
  }

  lemma PushWriteKeepsReplay(g: Guard, s: State)
    requires Inv(s) && Safe(s) && (s.owner.PushTask? || s.owner.PushPayload?)
    ensures var r := OwnerStep(g, s); Replay(r.h, r.sh.Size()) == Some(Live(r))
  {
    WriteOutside(s.sh, OwnerStep(g, s).sh, s.sh.top, s.owner.b, s.owner.b);
  }

  lemma PublishKeepsReplay(g: Guard, s: State)
    requires Inv(s) && s.owner.PushStore?
    ensures var r := OwnerStep(g, s); Replay(r.h, r.sh.Size()) == Some(Live(r))
  {
    WindowSnoc(s.sh, s.sh.top, s.owner.b);
    WindowFrame(s.sh, OwnerStep(g, s).sh, s.sh.top, s.owner.b + 1);
  }

  lemma PopTopKeepsReplay(g: Guard, s: State)
    requires Inv(s) && s.owner.PopTop?
    ensures var r := OwnerStep(g, s); Replay(r.h, r.sh.Size()) == Some(Live(r))
  {
    if s.sh.top <= s.owner.b { WindowSnoc(s.sh, s.sh.top, s.owner.b); }
  }

  lemma PopCasKeepsReplay(g: Guard, s: State)
    requires Inv(s) && s.owner.PopCas?
    ensures var r := OwnerStep(g, s); Replay(r.h, r.sh.Size()) == Some(Live(r))
  {
    if s.sh.top == s.owner.b {
      WindowSnoc(s.sh, s.sh.top, s.owner.b);
      assert Live(OwnerStep(g, s)) == [];
    }
  }

  lemma OwnerKeepsReplay(g: Guard, s: State)
    requires Inv(s) && Safe(s)
    ensures var r := OwnerStep(g, s); Replay(r.h, r.sh.Size()) == Some(Live(r))
  {
    if !Writes(s.owner) { ReadKeepsReplay(g, s); }
    else if s.owner.PushStore? { PublishKeepsReplay(g, s); }
    else if s.owner.PopTop? { PopTopKeepsReplay(g, s); }
    else if s.owner.PopCas? { PopCasKeepsReplay(g, s); }
    else { PushWriteKeepsReplay(g, s); }
  }

  lemma OwnerStepKeepsInv(g: Guard, s: State)
    requires Inv(s) && Safe(s)
    ensures Inv(OwnerStep(g, s))
  {
    var r := OwnerStep(g, s);
    OwnerKeepsBounds(g, s);
    OwnerKeepsOwner(g, s);
    OwnerKeepsReplay(g, s);
    forall i | 0 <= i < |r.thieves|
      ensures ThiefInv(r, i)
    {
      OwnerKeepsThief(g, s, i);
    }
  }

  // --------------------------------------------------------- a thief's step

  lemma ThiefKeepsOwner(s: State, i: nat)
    requires Inv(s) && i < |s.thieves|
    ensures Bounds(ThiefStep(s, i)) && OwnerInv(ThiefStep(s, i))
  {
    assert ThiefInv(s, i);
  }

  lemma ThiefKeepsSelf(s: State, i: nat)
    requires Inv(s) && i < |s.thieves|
    ensures ThiefInv(ThiefStep(s, i), i)
  {
    assert ThiefInv(s, i);
  }

  lemma ThiefKeepsOther(s: State, i: nat, j: nat)
    requires Inv(s) && i < |s.thieves| && j < |s.thieves| && i != j
    ensures ThiefInv(ThiefStep(s, i), j)
  {
    assert ThiefInv(s, i) && ThiefInv(s, j);
  }

  lemma ThiefKeepsReplay(s: State, i: nat)
    requires Inv(s) && i < |s.thieves|
    ensures var r := ThiefStep(s, i); Replay(r.h, r.sh.Size()) == Some(Live(r))
  {
    assert ThiefInv(s, i);
    var sh, r := s.sh, ThiefStep(s, i);
    if s.thieves[i].StealCas? && sh.top == s.thieves[i].t {
      WindowTail(sh, sh.top, High(s));
      WindowFrame(sh, r.sh, r.sh.top, High(s));
    }
  }

  lemma ThiefStepKeepsInv(s: State, i: nat)
    requires Inv(s) && i < |s.thieves|
    ensures Inv(ThiefStep(s, i))
  {
    var r := ThiefStep(s, i);
    ThiefKeepsOwner(s, i);
    ThiefKeepsReplay(s, i);
    forall j | 0 <= j < |r.thieves|
      ensures ThiefInv(r, j)
    {
      if j == i { ThiefKeepsSelf(s, i); } else { ThiefKeepsOther(s, i, j); }
    }
  }

  // ------------------------------------------------------------ every step

  lemma StartKeepsInv(g: Guard, s: State, a: Action)
    requires Inv(s) && (a.StartPush? || a.StartPop?)
    ensures Inv(Step(g, s, a))
  {
    var r := Step(g, s, a);
    forall i | 0 <= i < |r.thieves|
      ensures ThiefInv(r, i)
    {
      assert ThiefInv(s, i);
    }
  }

  lemma StepKeepsInv(g: Guard, s: State, a: Action)
    requires Inv(s) && Safe(s)
    ensures Inv(Step(g, s, a))
  {
    match a
    case OwnerAccess => OwnerStepKeepsInv(g, s);
    case ThiefAccess(i) => if i < |s.thieves| { ThiefStepKeepsInv(s, i); }
    case _ => StartKeepsInv(g, s, a);
  }

  lemma InitialInv(s: State)
    requires Initial(s)
    ensures Inv(s)
  {
  }
}
