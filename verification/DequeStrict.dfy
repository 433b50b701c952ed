// The queue against a stricter deque: a steal may say "empty" only when the
// deque is empty. The entry a steal overlooks while the owner's pop claims it is
// taken, in the order of effects, before that steal; who takes it only turns out
// later, so that linearization point is put back once it is known.
module DequeStrict {
  import opened Options
  import opened DequeHistory
  import opened DequeMachine
  import opened DequeInvariant
  import opened DequeTheorems

  // --------------------------------------------------------- the strict deque

  predicate IsTake(event: Event) {
    event.Lin? && (event.out.Popped? || event.out.Stolen?)
  }

  // An operation that took an entry had not returned at the thread's call.
  predicate TakeSeen(h: History, who: Who) {
    match h
    case Start => false
    case Then(prior, event) =>
      if event.Call? then event.who != who && TakeSeen(prior, who)
      else event.out.Popped? || event.out.Stolen? || TakeSeen(prior, who)
  }

  // A steal fails on an empty deque, or in competition with a taker.
  function StrictEffect(q: seq<Entry>, n: nat, prior: History, who: Who, out: Outcome): Option<seq<Entry>> {
    match out
    case StealEmpty => if q == [] then Some(q) else None
    case StealLost => if TakeSeen(prior, who) then Some(q) else None
    case _ => Effect(q, n, prior, who, out)
  }

  function StrictReplay(h: History, n: nat): Option<seq<Entry>> {
    match h
    case Start => Some([])
    case Then(prior, event) =>
      match StrictReplay(prior, n)
      case None => None
      case Some(q) => if event.Lin? then StrictEffect(q, n, prior, event.who, event.out) else Some(q)
  }

  // ------------------------------------------------------------- reordering

  // The events of one thread; the calls and returns of all.
  function Project(h: History, who: Who): History {
    match h
    case Start => Start
    case Then(prior, event) => if event.who == who then Then(Project(prior, who), event) else Project(prior, who)
  }

  function Interface(h: History): History {
    match h
    case Start => Start
    case Then(prior, event) => if event.Lin? then Interface(prior) else Then(Interface(prior), event)
  }

  // Every thread does the same, and calls and returns are in the same order;
  // linearization points may move between the call and the return of their own
  // operation.
  ghost predicate SameRun(h: History, h': History) {
    Interface(h) == Interface(h') && forall who :: Project(h, who) == Project(h', who)
  }

  function Join(h: History, back: seq<Event>): History {
    if back == [] then h else Then(Join(h, back[..|back| - 1]), back[|back| - 1])
  }

  // A history in two parts: `back` starts with a steal that overlooked an entry
  // and waits for the operation that takes it.
  datatype Deferred = Deferred(front: History, back: seq<Event>) {
    function Whole(): History { Join(front, back) }
  }

  function Defer(h: History, n: nat): Deferred {
    match h
    case Start => Deferred(Start, [])
    case Then(prior, event) =>
      var d := Defer(prior, n);
      if d.back == [] then
        if event.Lin? && event.out.StealEmpty? && StrictReplay(d.front, n) != Some([]) then Deferred(d.front, [event])
        else Deferred(Then(d.front, event), [])
      else if IsTake(event) then Deferred(Join(Then(d.front, event), d.back), [])
      else Deferred(d.front, d.back + [event])
  }

  predicate NotOf(back: seq<Event>, who: Who) {
    forall k | 0 <= k < |back| :: back[k].who != who
  }

  lemma JoinSnoc(h: History, back: seq<Event>, event: Event)
    ensures Join(h, back + [event]) == Then(Join(h, back), event)
  {
    assert (back + [event])[..|back|] == back;
  }

  // The take put before `back` instead of behind it.
  lemma {:induction false} TakeMovesAhead(h: History, back: seq<Event>, take: Event, who: Who)
    requires IsTake(take) && NotOf(back, take.who)
    ensures Project(Join(Then(h, take), back), who) == Project(Then(Join(h, back), take), who)
    ensures Interface(Join(Then(h, take), back)) == Interface(Then(Join(h, back), take))
  {
    if back == [] {
    } else {
      TakeMovesAhead(h, back[..|back| - 1], take, who);
    }
  }

  lemma WholeAppends(h: History, n: nat, event: Event)
    requires Defer(h, n).back == [] || !IsTake(event)
    ensures Defer(Then(h, event), n).Whole() == Then(Defer(h, n).Whole(), event)
  {
    var d := Defer(h, n);
    JoinSnoc(d.front, d.back, event);
    assert [] + [event] == [event] && Join(Then(d.front, event), []) == Then(d.front, event);
  }

  lemma DeferKeepsRun(h: History, n: nat, event: Event)
    requires SameRun(h, Defer(h, n).Whole())
    requires IsTake(event) ==> NotOf(Defer(h, n).back, event.who)
    ensures SameRun(Then(h, event), Defer(Then(h, event), n).Whole())
  {
    var d := Defer(h, n);
    if d.back != [] && IsTake(event) {
      forall who
        ensures Project(Join(Then(d.front, event), d.back), who) == Project(Then(h, event), who)
      {
        TakeMovesAhead(d.front, d.back, event, who);
      }
      TakeMovesAhead(d.front, d.back, event, event.who);
    } else {
      WholeAppends(h, n, event);
    }
  }

  // ------------------------------------------------ competition, reordered

  predicate CallFree(back: seq<Event>, who: Who) {
    forall k | 0 <= k < |back| :: back[k].Call? ==> back[k].who != who
  }

  lemma {:induction false} TakeIsSeen(h: History, take: Event, back: seq<Event>, who: Who)
    requires IsTake(take) && CallFree(back, who)
    ensures TakeSeen(Join(Then(h, take), back), who)
  {
    if back == [] {
    } else {
      TakeIsSeen(h, take, back[..|back| - 1], who);
    }
  }

  lemma {:induction false} TakeStaysSeen(h: History, take: Event, back: seq<Event>, who: Who)
    requires IsTake(take) && TakeSeen(Join(h, back), who)
    ensures TakeSeen(Join(Then(h, take), back), who)
  {
    if back == [] {
    } else {
      var last := back[|back| - 1];
      if TakeSeen(Join(h, back[..|back| - 1]), who) { TakeStaysSeen(h, take, back[..|back| - 1], who); }
    }
  }

  // ------------------------------------------------------------ the invariant

  // What may wait in `back` while the last entry, at index b, is claimed: steals
  // that found nothing or lost an earlier race, by threads not after that entry.
  ghost predicate Waits(s: State, back: seq<Event>, k: nat)
    requires ClaimsLast(s) && k < |back|
  {
    var event, b := back[k], s.owner.b;
    && event.who.TheThief? && event.who.id < |s.thieves|
    && var pc := s.thieves[event.who.id];
       && !Committed(pc, b)
       && (event.Call? ==> pc.Away? || pc == StealBottom(b))
       && (event.Lin? ==> event.out.StealEmpty? || (event.out.StealLost? && CallFree(back[..k], event.who)))
  }

  ghost predicate Pending(s: State, back: seq<Event>) {
    ClaimsLast(s) && s.sh.top == s.owner.b && forall k | 0 <= k < |back| :: Waits(s, back, k)
  }

  // The owner took the last entry and has not returned yet.
  predicate Returning(s: State, b: int) {
    s.owner.PopRestore? && s.owner.out.Popped? && s.owner.b == b
  }

  // A thief that has been overtaken can tell, unless it has still to load
  // `bottom` and the pop that overtook it has still to restore it.
  ghost predicate SeenInv(s: State, i: nat)
    requires s.Valid() && i < |s.thieves|
  {
    var pc := s.thieves[i];
    !pc.Away? && pc.t < s.sh.top ==>
      || TakeSeen(Defer(s.h, s.sh.Size()).Whole(), TheThief(i))
      || (pc.StealBottom? && Returning(s, pc.t))
  }

  ghost predicate ReplayInv(s: State)
    requires s.Valid()
  {
    StrictReplay(Defer(s.h, s.sh.Size()).front, s.sh.Size()) == Some(Live(s))
  }

  ghost predicate PendingInv(s: State)
    requires s.Valid()
  {
    Defer(s.h, s.sh.Size()).back != [] ==> Pending(s, Defer(s.h, s.sh.Size()).back)
  }

  ghost predicate RunInv(s: State)
    requires s.Valid()
  {
    SameRun(s.h, Defer(s.h, s.sh.Size()).Whole())
  }

  ghost predicate StrictInv(s: State) {
    && Inv(s) && ReplayInv(s) && PendingInv(s) && RunInv(s)
    && forall i | 0 <= i < |s.thieves| :: SeenInv(s, i)
  }

  lemma InitialStrict(s: State)
    requires Initial(s)
    ensures StrictInv(s)
  {
    InitialInv(s);
  }

  // ------------------------------------------------------- nothing is waiting

  function Back(s: State): seq<Event>
    requires s.Valid()
  {
    Defer(s.h, s.sh.Size()).back
  }

  // An event that is neither a steal overlooking something nor a lost steal has
  // the same effect in the strict deque.
  lemma PlainEvent(h: History, n: nat, event: Event, q: seq<Entry>)
    requires Replay(h, n) == Some(q) && Defer(h, n).back == [] && StrictReplay(Defer(h, n).front, n) == Some(q)
    requires event.Lin? ==> (event.out.StealEmpty? ==> q == [])
    requires event.Lin? && event.out.StealLost? ==> TakeSeen(Defer(h, n).front, event.who)
    ensures Defer(Then(h, event), n) == Deferred(Then(Defer(h, n).front, event), [])
    ensures Replay(Then(h, event), n).Some? ==>
              StrictReplay(Defer(Then(h, event), n).front, n) == Replay(Then(h, event), n)
  {
  }

  lemma OwnerPlain(g: Guard, s: State)
    requires StrictInv(s) && Safe(s) && Back(s) == []
    ensures ReplayInv(OwnerStep(g, s)) && Back(OwnerStep(g, s)) == []
  {
    OwnerStepKeepsInv(g, s);
    var r, n := OwnerStep(g, s), s.sh.Size();
    if r.h != s.h {
      var first := if r.h.prior == s.h then r.h.event else r.h.prior.event;
      PlainEvent(s.h, n, first, Live(s));
      if r.h.prior != s.h { PlainEvent(r.h.prior, n, r.h.event, Replay(r.h.prior, n).value); }
    }
  }

  lemma OwnerPlainSeen(g: Guard, s: State, i: nat)
    requires StrictInv(s) && Safe(s) && Back(s) == [] && i < |s.thieves|
    ensures SeenInv(OwnerStep(g, s), i)
  {
    assert SeenInv(s, i) && ThiefInv(s, i);
    OwnerPlain(g, s);
  }

  lemma ThiefPlain(s: State, i: nat)
    requires StrictInv(s) && Back(s) == [] && i < |s.thieves| && !Overlooks(s, i)
    ensures ReplayInv(ThiefStep(s, i)) && Back(ThiefStep(s, i)) == []
  {
    ThiefStepKeepsInv(s, i);
    assert SeenInv(s, i) && ThiefInv(s, i);
    var r, n := ThiefStep(s, i), s.sh.Size();
    if r.h != s.h {
      var first := if r.h.prior == s.h then r.h.event else r.h.prior.event;
      PlainEvent(s.h, n, first, Live(s));
      if r.h.prior != s.h { PlainEvent(r.h.prior, n, r.h.event, Replay(r.h.prior, n).value); }
    }
  }

  lemma ThiefPlainSeen(s: State, i: nat, j: nat)
    requires StrictInv(s) && Back(s) == [] && i < |s.thieves| && j < |s.thieves| && !Overlooks(s, i)
    ensures SeenInv(ThiefStep(s, i), j)
  {
    assert SeenInv(s, j) && ThiefInv(s, j) && SeenInv(s, i) && ThiefInv(s, i);
    ThiefPlain(s, i);
  }

  // ---------------------------------------------- a steal overlooks the entry

  lemma ThiefOverlooks(s: State, i: nat)
    requires StrictInv(s) && Back(s) == [] && Overlooks(s, i)
    ensures ReplayInv(ThiefStep(s, i)) && PendingInv(ThiefStep(s, i))
  {
    ThiefStepKeepsInv(s, i);
    OverlookedIsClaimed(s, i);
  }

  lemma ThiefOverlooksSeen(s: State, i: nat, j: nat)
    requires StrictInv(s) && Back(s) == [] && Overlooks(s, i) && j < |s.thieves|
    ensures SeenInv(ThiefStep(s, i), j)
  {
    assert SeenInv(s, j) && ThiefInv(s, j);
    OverlookedIsClaimed(s, i);
    var n, lin := s.sh.Size(), Lin(TheThief(i), StealEmpty);
    WholeAppends(s.h, n, lin);
    WholeAppends(Then(s.h, lin), n, Ret(TheThief(i), StealEmpty));
  }

  // ------------------------------------------------------ something is waiting

  lemma OwnerWaits(g: Guard, s: State)
    requires StrictInv(s) && Safe(s) && Back(s) != [] && !s.owner.PopCas?
    ensures OwnerStep(g, s).h == s.h && ReplayInv(OwnerStep(g, s)) && PendingInv(OwnerStep(g, s))
  {
    OwnerStepKeepsInv(g, s);
    var r, back := OwnerStep(g, s), Defer(s.h, s.sh.Size()).back;
    assert ClaimsLast(r) && r.owner.b == s.owner.b && r.sh.top == s.sh.top;
    forall k | 0 <= k < |back|
      ensures Waits(r, back, k)
    {
      assert Waits(s, back, k);
    }
    assert Pending(r, back);
  }

  lemma OwnerWaitsSeen(g: Guard, s: State, i: nat)
    requires StrictInv(s) && Safe(s) && Back(s) != [] && !s.owner.PopCas? && i < |s.thieves|
    ensures SeenInv(OwnerStep(g, s), i)
  {
    assert SeenInv(s, i);
    OwnerWaits(g, s);
  }

  predicate HarmlessFrom(back: seq<Event>) {
    forall k | 0 <= k < |back| && back[k].Lin? ::
      back[k].out.StealEmpty? || (back[k].out.StealLost? && CallFree(back[..k], back[k].who))
  }

  // Put ahead of what waits, the take of the last entry makes it all legal.
  lemma {:induction false} TakeSettles(front: History, take: Event, back: seq<Event>, n: nat)
    requires IsTake(take) && StrictReplay(Then(front, take), n) == Some([]) && HarmlessFrom(back)
    ensures StrictReplay(Join(Then(front, take), back), n) == Some([])
  {
    if back == [] {
    } else {
      var m := |back| - 1;
      assert forall k | 0 <= k < m :: back[..m][..k] == back[..k];
      TakeSettles(front, take, back[..m], n);
      if back[m].Lin? && back[m].out.StealLost? { TakeIsSeen(front, take, back[..m], back[m].who); }
    }
  }

  lemma PendingIsHarmless(s: State, back: seq<Event>)
    requires Pending(s, back)
    ensures HarmlessFrom(back) && NotOf(back, TheOwner)
    ensures forall i | 0 <= i < |s.thieves| && Committed(s.thieves[i], s.owner.b) :: NotOf(back, TheThief(i))
  {
    forall k | 0 <= k < |back|
      ensures back[k].Lin? ==> back[k].out.StealEmpty? || (back[k].out.StealLost? && CallFree(back[..k], back[k].who))
      ensures back[k].who.TheThief? && back[k].who.id < |s.thieves|
      ensures !Committed(s.thieves[back[k].who.id], s.owner.b)
    {
      assert Waits(s, back, k);
    }
  }

  lemma LastTake(s: State, take: Event)
    requires StrictInv(s) && Back(s) != [] && IsTake(take)
    requires take.out.entry == s.sh.Slot(s.owner.b)
    ensures var d, n := Defer(s.h, s.sh.Size()), s.sh.Size();
            && Defer(Then(s.h, take), n) == Deferred(Join(Then(d.front, take), d.back), [])
            && StrictReplay(Defer(Then(s.h, take), n).front, n) == Some([])
  {
    var d, n := Defer(s.h, s.sh.Size()), s.sh.Size();
    PendingIsHarmless(s, d.back);
    assert Live(s) == [s.sh.Slot(s.owner.b)];
    assert Live(s)[..0] == [] && Live(s)[1..] == [];
    TakeSettles(d.front, take, d.back, n);
  }

  // Somebody who has been overtaken by the take of the last entry can tell, or
  // has only called since.
  lemma LastTakeSeen(s: State, take: Event, i: nat)
    requires StrictInv(s) && Back(s) != [] && IsTake(take) && i < |s.thieves| && !s.thieves[i].Away?
    requires take.out.entry == s.sh.Slot(s.owner.b)
    ensures TakeSeen(Defer(Then(s.h, take), s.sh.Size()).Whole(), TheThief(i)) || s.thieves[i] == StealBottom(s.owner.b)
  {
    var d := Defer(s.h, s.sh.Size());
    LastTake(s, take);
    assert SeenInv(s, i) && ThiefInv(s, i);
    if s.thieves[i].t < s.sh.top {
      TakeStaysSeen(d.front, take, d.back, TheThief(i));
    } else if CallFree(d.back, TheThief(i)) {
      TakeIsSeen(d.front, take, d.back, TheThief(i));
    } else {
      var k :| 0 <= k < |d.back| && d.back[k].Call? && d.back[k].who == TheThief(i);
      assert Waits(s, d.back, k);
    }
  }

  lemma OwnerTakes(g: Guard, s: State)
    requires StrictInv(s) && Safe(s) && Back(s) != [] && s.owner.PopCas?
    ensures ReplayInv(OwnerStep(g, s)) && Back(OwnerStep(g, s)) == []
  {
    LastTake(s, Lin(TheOwner, Popped(s.owner.entry)));
  }

  lemma OwnerTakesSeen(g: Guard, s: State, i: nat)
    requires StrictInv(s) && Safe(s) && Back(s) != [] && s.owner.PopCas? && i < |s.thieves|
    ensures SeenInv(OwnerStep(g, s), i)
  {
    if !s.thieves[i].Away? {
      assert ThiefInv(s, i);
      LastTakeSeen(s, Lin(TheOwner, Popped(s.owner.entry)), i);
    }
  }

  // What waits keeps waiting when thief i, not winning, goes on.
  lemma WaitsOn(s: State, i: nat, back: seq<Event>, k: nat)
    requires Inv(s) && Pending(s, back) && i < |s.thieves| && !Wins(s, ThiefAccess(i), s.owner.b) && k < |back|
    ensures ClaimsLast(ThiefStep(s, i)) && Waits(ThiefStep(s, i), back, k)
  {
    assert Waits(s, back, k) && ThiefInv(s, i);
  }

  lemma WaitsSnoc(s: State, back: seq<Event>, event: Event)
    requires Pending(s, back)
    requires event.who.TheThief? && event.who.id < |s.thieves|
    requires var pc := s.thieves[event.who.id];
             && !Committed(pc, s.owner.b)
             && (event.Call? ==> pc.Away? || pc == StealBottom(s.owner.b))
             && (event.Lin? ==> event.out.StealEmpty? || (event.out.StealLost? && CallFree(back, event.who)))
    ensures Pending(s, back + [event])
  {
    var longer := back + [event];
    assert longer[..|back|] == back;
    forall k | 0 <= k < |longer|
      ensures Waits(s, longer, k)
    {
      if k < |back| {
        assert Waits(s, back, k) && longer[..k] == back[..k];
      }
    }
  }

  // A thief that is past its load of `bottom` has not called since.
  lemma LoserCalledBefore(s: State, i: nat)
    requires StrictInv(s) && Back(s) != [] && i < |s.thieves| && s.thieves[i].StealCas?
    ensures CallFree(Back(s), TheThief(i))
  {
    forall k | 0 <= k < |Back(s)| && Back(s)[k].Call?
      ensures Back(s)[k].who != TheThief(i)
    {
      assert Waits(s, Defer(s.h, s.sh.Size()).back, k);
    }
  }

  lemma WaitingGrows(h: History, n: nat, event: Event)
    requires Defer(h, n).back != [] && !IsTake(event)
    ensures Defer(Then(h, event), n) == Deferred(Defer(h, n).front, Defer(h, n).back + [event])
  {
  }

  lemma ThiefWaits(s: State, i: nat)
    requires StrictInv(s) && Back(s) != [] && i < |s.thieves| && !Wins(s, ThiefAccess(i), s.owner.b)
    ensures ReplayInv(ThiefStep(s, i)) && PendingInv(ThiefStep(s, i))
  {
    ThiefStepKeepsInv(s, i);
    assert ThiefInv(s, i);
    var r, n, back := ThiefStep(s, i), s.sh.Size(), Defer(s.h, s.sh.Size()).back;
    forall k | 0 <= k < |back|
      ensures ClaimsLast(r) && Waits(r, back, k)
    {
      WaitsOn(s, i, back, k);
    }
    assert Pending(r, back);
    if s.thieves[i].StealCas? { LoserCalledBefore(s, i); }
    if r.h != s.h {
      var first := if r.h.prior == s.h then r.h.event else r.h.prior.event;
      WaitingGrows(s.h, n, first);
      WaitsSnoc(r, back, first);
      if r.h.prior != s.h {
        WaitingGrows(r.h.prior, n, r.h.event);
        WaitsSnoc(r, back + [first], r.h.event);
      }
    }
  }

  lemma ThiefWaitsSeen(s: State, i: nat, j: nat)
    requires StrictInv(s) && Back(s) != [] && i < |s.thieves| && !Wins(s, ThiefAccess(i), s.owner.b) && j < |s.thieves|
    ensures SeenInv(ThiefStep(s, i), j)
  {
    assert SeenInv(s, j) && ThiefInv(s, j) && ThiefInv(s, i);
    var r, n := ThiefStep(s, i), s.sh.Size();
    if r.h != s.h {
      var first := if r.h.prior == s.h then r.h.event else r.h.prior.event;
      WholeAppends(s.h, n, first);
      WaitingGrows(s.h, n, first);
      if r.h.prior != s.h { WholeAppends(r.h.prior, n, r.h.event); }
    }
  }

  lemma ThiefTakes(s: State, i: nat)
    requires StrictInv(s) && Back(s) != [] && i < |s.thieves| && Wins(s, ThiefAccess(i), s.owner.b)
    ensures ReplayInv(ThiefStep(s, i)) && Back(ThiefStep(s, i)) == []
  {
    assert ThiefInv(s, i);
    LastTake(s, Lin(TheThief(i), Stolen(s.thieves[i].entry)));
  }

  lemma ThiefTakesSeen(s: State, i: nat, j: nat)
    requires StrictInv(s) && Back(s) != [] && i < |s.thieves| && Wins(s, ThiefAccess(i), s.owner.b) && j < |s.thieves|
    ensures SeenInv(ThiefStep(s, i), j)
  {
    assert ThiefInv(s, i);
    var take, n := Lin(TheThief(i), Stolen(s.thieves[i].entry)), s.sh.Size();
    LastTake(s, take);
    WholeAppends(Then(s.h, take), n, Ret(TheThief(i), Stolen(s.thieves[i].entry)));
  }

  // ---------------------------------------------------------------- every step

  lemma TwoEventsKeepRun(h: History, n: nat, first: Event, second: Event)
    requires SameRun(h, Defer(h, n).Whole())
    requires IsTake(first) ==> NotOf(Defer(h, n).back, first.who)
    requires !IsTake(second)
    ensures SameRun(Then(Then(h, first), second), Defer(Then(Then(h, first), second), n).Whole())
  {
    DeferKeepsRun(h, n, first);
    DeferKeepsRun(Then(h, first), n, second);
  }

  lemma OwnerKeepsRun(g: Guard, s: State)
    requires StrictInv(s)
    ensures RunInv(OwnerStep(g, s))
  {
    var r, n, d := OwnerStep(g, s), s.sh.Size(), Defer(s.h, s.sh.Size());
    if d.back != [] { PendingIsHarmless(s, d.back); }
    if r.h != s.h {
      if r.h.prior == s.h { DeferKeepsRun(s.h, n, r.h.event); }
      else { TwoEventsKeepRun(s.h, n, r.h.prior.event, r.h.event); }
    }
  }

  lemma ThiefKeepsRun(s: State, i: nat)
    requires StrictInv(s) && i < |s.thieves|
    ensures RunInv(ThiefStep(s, i))
  {
    assert ThiefInv(s, i);
    var r, n, d := ThiefStep(s, i), s.sh.Size(), Defer(s.h, s.sh.Size());
    if d.back != [] { PendingIsHarmless(s, d.back); }
    if r.h != s.h {
      if r.h.prior == s.h { DeferKeepsRun(s.h, n, r.h.event); }
      else { TwoEventsKeepRun(s.h, n, r.h.prior.event, r.h.event); }
    }
  }

  lemma OwnerKeepsStrict(g: Guard, s: State)
    requires StrictInv(s) && Safe(s)
    ensures StrictInv(OwnerStep(g, s))
  {
    OwnerStepKeepsInv(g, s);
    OwnerKeepsRun(g, s);
    if Back(s) == [] { OwnerPlain(g, s); }
    else if s.owner.PopCas? { OwnerTakes(g, s); }
    else { OwnerWaits(g, s); }
    forall i | 0 <= i < |s.thieves|
      ensures SeenInv(OwnerStep(g, s), i)
    {
      if Back(s) == [] { OwnerPlainSeen(g, s, i); }
      else if s.owner.PopCas? { OwnerTakesSeen(g, s, i); }
      else { OwnerWaitsSeen(g, s, i); }
    }
  }

  lemma ThiefKeepsStrict(s: State, i: nat)
    requires StrictInv(s) && i < |s.thieves|
    ensures StrictInv(ThiefStep(s, i))
  {
    ThiefStepKeepsInv(s, i);
    ThiefKeepsRun(s, i);
    if Back(s) == [] {
      if Overlooks(s, i) { ThiefOverlooks(s, i); } else { ThiefPlain(s, i); }
    } else if Wins(s, ThiefAccess(i), s.owner.b) {
      ThiefTakes(s, i);
    } else {
      ThiefWaits(s, i);
    }
    forall j | 0 <= j < |s.thieves|
      ensures SeenInv(ThiefStep(s, i), j)
    {
      if Back(s) == [] {
        if Overlooks(s, i) { ThiefOverlooksSeen(s, i, j); } else { ThiefPlainSeen(s, i, j); }
      } else if Wins(s, ThiefAccess(i), s.owner.b) {
        ThiefTakesSeen(s, i, j);
      } else {
        ThiefWaitsSeen(s, i, j);
      }
    }
  }

  lemma StartKeepsStrict(g: Guard, s: State, a: Action)
    requires StrictInv(s) && (a.StartPush? || a.StartPop?)
    ensures StrictInv(Step(g, s, a))
  {
    StartKeepsInv(g, s, a);
    var r := Step(g, s, a);
    if r.h != s.h {
      DeferKeepsRun(s.h, s.sh.Size(), r.h.event);
      PlainEvent(s.h, s.sh.Size(), r.h.event, Live(s));
      WholeAppends(s.h, s.sh.Size(), r.h.event);
      forall i | 0 <= i < |s.thieves|
        ensures SeenInv(r, i)
      {
        assert SeenInv(s, i);
      }
    }
  }

  lemma {:induction false} RunKeepsStrict(g: Guard, s: State, acts: seq<Action>)
    requires StrictInv(s) && SafeRun(g, s, acts)
    ensures StrictInv(Exec(g, s, acts))
  {
    if acts == [] {
    } else {
      var front := acts[..|acts| - 1];
      RunKeepsStrict(g, s, front);
      var m := Exec(g, s, front);
      match acts[|acts| - 1]
      case OwnerAccess => OwnerKeepsStrict(g, m);
      case ThiefAccess(i) => if i < |m.thieves| { ThiefKeepsStrict(m, i); }
      case _ => StartKeepsStrict(g, m, acts[|acts| - 1]);
    }
  }

  // ----------------------------------------------------------------- theorems

  lemma {:induction false} PhaseOfProjection(h: History, who: Who)
    ensures PhaseOf(Project(h, who), who) == PhaseOf(h, who)
  {
    if h.Start? {
    } else {
      PhaseOfProjection(h.prior, who);
    }
  }

  // h' is a strictly legal order of the run that made h, leaving q.
  ghost predicate StrictOrder(h: History, h': History, n: nat, q: seq<Entry>) {
    && SameRun(h, h')
    && StrictReplay(h', n) == Some(q)
    && forall who :: PhaseOf(h', who) != Broken
  }

  ghost predicate StrictlyLinearizable(h: History, n: nat) {
    exists h', q :: StrictOrder(h, h', n, q)
  }

  // Whenever the owner's pop is not just claiming the last entry: calls and
  // returns as they happened, every operation taking effect once in between,
  // steals finding nothing only on an empty deque, and memory holding what the
  // deque then holds.
  lemma EveryRunLinearizesStrictly(g: Guard, s: State, acts: seq<Action>)
    requires Initial(s) && SafeRun(g, s, acts) && !ClaimsLast(Exec(g, s, acts))
    ensures var r := Exec(g, s, acts);
            && (exists h' :: StrictOrder(r.h, h', r.sh.Size(), Live(r)))
            && StrictlyLinearizable(r.h, r.sh.Size())
  {
    InitialStrict(s);
    RunKeepsStrict(g, s, acts);
    EveryRunLinearizes(g, s, acts);
    var r := Exec(g, s, acts);
    var h' := Defer(r.h, r.sh.Size()).Whole();
    forall who
      ensures PhaseOf(h', who) != Broken
    {
      PhaseOfProjection(h', who);
      PhaseOfProjection(r.h, who);
    }
    assert StrictOrder(r.h, h', r.sh.Size(), Live(r));
  }

  // A claim ends by the owner's own accesses, so every run can be completed to
  // one with a strict order.
  lemma ClaimEnds(g: Guard, s: State, acts: seq<Action>) returns (all: seq<Action>)
    requires Initial(s) && SafeRun(g, s, acts)
    ensures acts <= all && forall k | |acts| <= k < |all| :: all[k] == OwnerAccess
    ensures SafeRun(g, s, all) && !ClaimsLast(Exec(g, s, all))
    decreases Remaining(Exec(g, s, acts).owner)
  {
    if ClaimsLast(Exec(g, s, acts)) {
      ExecSnoc(g, s, acts, OwnerAccess);
      all := ClaimEnds(g, s, acts + [OwnerAccess]);
    } else {
      all := acts;
    }
  }

  lemma EveryRunCompletesStrictly(g: Guard, s: State, acts: seq<Action>)
    requires Initial(s) && SafeRun(g, s, acts)
    ensures exists all ::
              && acts <= all && (forall k | |acts| <= k < |all| :: all[k] == OwnerAccess)
              && StrictlyLinearizable(Exec(g, s, all).h, s.sh.Size())
  {
    var all := ClaimEnds(g, s, acts);
    EveryRunLinearizesStrictly(g, s, all);
  }

  // -------------------------------------------------------- the guard, strictly

  predicate AllBy(h: History, who: Who) {
    h.Then? ==> h.event.who == who && AllBy(h.prior, who)
  }

  predicate NoFailedSteal(h: History) {
    h.Then? ==> !(h.event.Lin? && (h.event.out.StealEmpty? || h.event.out.StealLost?)) && NoFailedSteal(h.prior)
  }

  lemma OwnerAddsItsEvents(g: Guard, s: State, a: Action)
    requires s.Valid() && AllBy(s.h, TheOwner) && NoFailedSteal(s.h) && !a.ThiefAccess?
    ensures AllBy(Step(g, s, a).h, TheOwner) && NoFailedSteal(Step(g, s, a).h)
  {
  }

  lemma {:induction false} AloneMakesHistory(g: Guard, s: State, acts: seq<Action>)
    requires s.Valid() && AllBy(s.h, TheOwner) && NoFailedSteal(s.h) && OwnerAlone(acts)
    ensures AllBy(Exec(g, s, acts).h, TheOwner) && NoFailedSteal(Exec(g, s, acts).h)
  {
    if acts == [] {
    } else {
      AloneMakesHistory(g, s, acts[..|acts| - 1]);
      OwnerAddsItsEvents(g, Exec(g, s, acts[..|acts| - 1]), acts[|acts| - 1]);
    }
  }

  lemma {:induction false} OwnProjection(h: History, who: Who)
    requires AllBy(h, who)
    ensures Project(h, who) == h
  {
    if h.Start? {
    } else {
      OwnProjection(h.prior, who);
    }
  }

  lemma {:induction false} StrangerProjection(h: History, who: Who, stranger: Who)
    requires AllBy(h, who) && stranger != who
    ensures Project(h, stranger) == Start
  {
    if h.Start? {
    } else {
      StrangerProjection(h.prior, who, stranger);
    }
  }

  lemma {:induction false} OnlyItsEvents(h: History, who: Who)
    requires forall stranger :: stranger != who ==> Project(h, stranger) == Start
    ensures AllBy(h, who)
  {
    if h.Start? {
    } else {
      assert Project(h, h.event.who) == Then(Project(h.prior, h.event.who), h.event);
      forall stranger | stranger != who
        ensures Project(h.prior, stranger) == Start
      {
        assert Project(h, stranger) == Start;
      }
      OnlyItsEvents(h.prior, who);
    }
  }

  // One thread's history has only one order.
  lemma AloneInOneOrder(h: History, h': History, who: Who)
    requires AllBy(h, who) && SameRun(h, h')
    ensures h == h'
  {
    forall stranger | stranger != who
      ensures Project(h', stranger) == Start
    {
      StrangerProjection(h, who, stranger);
    }
    OnlyItsEvents(h', who);
    OwnProjection(h, who);
    OwnProjection(h', who);
  }

  // Only failed steals are judged more strictly.
  lemma {:induction false} SameWithoutSteals(h: History, n: nat)
    requires NoFailedSteal(h)
    ensures Replay(h, n) == StrictReplay(h, n)
  {
    if h.Start? {
    } else {
      SameWithoutSteals(h.prior, n);
    }
  }

  // The full test decides the strict property as well: from a fresh queue of any
  // size, with any number of thieves, all runs outside a claim are linearizable
  // in the strict sense exactly if it is repaired.
  lemma EveryRunLinearizesStrictlyIff(g: Guard, s: State)
    requires Initial(s)
    ensures (forall acts :: ClaimsLast(Exec(g, s, acts)) || StrictlyLinearizable(Exec(g, s, acts).h, s.sh.Size()))
            <==> g == Repaired
  {
    if g == Repaired {
      forall acts
        ensures ClaimsLast(Exec(g, s, acts)) || StrictlyLinearizable(Exec(g, s, acts).h, s.sh.Size())
      {
        RepairedRunsAreSafe(s, acts);
        if !ClaimsLast(Exec(g, s, acts)) { EveryRunLinearizesStrictly(g, s, acts); }
      }
    } else {
      var safe, illegal := WrittenRunIsIllegal(s);
      IllegalInEveryOrder(s, illegal);
      assert !ClaimsLast(Exec(g, s, illegal));
    }
  }

  lemma IllegalInEveryOrder(s: State, acts: seq<Action>)
    requires Initial(s) && OwnerAlone(acts) && Replay(Exec(AsWritten, s, acts).h, s.sh.Size()) == None
    ensures !StrictlyLinearizable(Exec(AsWritten, s, acts).h, s.sh.Size())
  {
    AloneMakesHistory(AsWritten, s, acts);
    var h, n := Exec(AsWritten, s, acts).h, s.sh.Size();
    SameWithoutSteals(h, n);
    forall h', q | SameRun(h, h')
      ensures !StrictOrder(h, h', n, q)
    {
      AloneInOneOrder(h, h', TheOwner);
    }
  }
}
