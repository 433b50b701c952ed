// Engine::Allocate, Free and the resets, over all arenas of the slab at once.
module Engine {
  import opened Bits
  import opened Options
  import opened Arenas
  import opened Layout

  datatype AllocationType = TRANSIENT | PERSISTENT

  // Where a request of a thread is served; threads without a context use the
  // C heap, and a worker may not ask for persistent memory.
  datatype Target = CHeap | InArena(zone: Zone) | AssertionFails

  function Dispatch(thread: Option<nat>, kind: AllocationType): (r: Target)
    // A thread is only ever served from an arena in its own address slice.
    ensures r.InArena? ==> thread.Some? && HasArena(r.zone) && Home(r.zone) == thread.value
    ensures r.CHeap? <==> thread.None?
    ensures r.AssertionFails? <==> thread.Some? && thread.value != 0 && kind.PERSISTENT?
  {
    match thread
    case None => CHeap
    case Some(i) =>
      if kind == TRANSIENT then InArena(Transient(i))
      else if i == 0 then InArena(Persistent)
      else AssertionFails
  }

  datatype Call =
    | Allocate(thread: Option<nat>, kind: AllocationType, request: Request)
    | Update                            // main resets its transient arena
    | FallAsleep(worker: nat)           // a worker resets its own
    | RunStolen(requests: seq<Request>) // Scheduler_Sync runs a task on main

  // transient[i] belongs to thread i.
  datatype State = State(slab: Slab, transient: seq<Heap>, persistent: Heap)

  ghost predicate SaneCall(c: Call) {
    match c
    case Allocate(_, _, r) => Sane(r)
    case RunStolen(rs) => AllSane(rs)
    case _ => true
  }

  ghost predicate HeapAt(s: Slab, z: Zone, h: Heap)
    requires HasArena(z) && 0 < s.page <= WORD
  {
    Placed(h) && SameZone(ArenaAt(s, z), h.arena)
  }

  ghost predicate Inv(e: State) {
    && e.slab.Valid() && 0 < e.slab.page <= WORD
    && |e.transient| == e.slab.threads
    && (forall i | 0 <= i < |e.transient| :: HeapAt(e.slab, Transient(i), e.transient[i]))
    && HeapAt(e.slab, Persistent, e.persistent)
  }

  function Initial(s: Slab): (e: State)
    requires s.Valid()
    ensures Inv(e)
  {
    ContextBytesFit(s);
    assert forall i | 0 <= i < s.threads :: Within(ArenaAt(s, Transient(i))) by {
      forall i | 0 <= i < s.threads
        ensures Within(ArenaAt(s, Transient(i)))
      {
        ArenaAtWithin(s, Transient(i));
      }
    }
    ArenaAtWithin(s, Persistent);
    State(s, seq(s.threads, i requires 0 <= i < s.threads => Heap(ArenaAt(s, Transient(i)), [])),
          Heap(ArenaAt(s, Persistent), []))
  }

  // Apply an arena operation to one thread's transient heap.
  function OnTransient(g: Growth, e: State, i: nat, op: Op): (r: State)
    requires Inv(e) && SaneOp(op)
    ensures Inv(r) && r.slab == e.slab
  {
    if i >= |e.transient| then e
    else
      OpKeepsPlaced(g, e.transient[i], op);
      e.(transient := e.transient[i := Apply(g, e.transient[i], op)])
  }

  function Step(g: Growth, e: State, c: Call): (r: State)
    requires Inv(e) && SaneCall(c)
    ensures Inv(r) && r.slab == e.slab
  {
    match c
    case Update => OnTransient(g, e, 0, Reset)
    case FallAsleep(w) => OnTransient(g, e, w, Reset)
    case RunStolen(rs) => OnTransient(g, e, 0, Scope(rs))
    case Allocate(thread, kind, r) =>
      match Dispatch(thread, kind)
      case InArena(Transient(i)) => OnTransient(g, e, i, Op.Allocate(r))
      case InArena(_) =>
        OpKeepsPlaced(g, e.persistent, Op.Allocate(r));
        e.(persistent := Apply(g, e.persistent, Op.Allocate(r)))
      case _ => e
  }

  function Run(g: Growth, e: State, calls: seq<Call>): (r: State)
    requires Inv(e) && forall i | 0 <= i < |calls| :: SaneCall(calls[i])
    ensures Inv(r) && r.slab == e.slab
  {
    if calls == [] then e else Step(g, Run(g, e, calls[..|calls| - 1]), calls[|calls| - 1])
  }

  function HeapIn(e: State, z: Zone): Heap
    requires Exists(e.slab, z) && HasArena(z) && |e.transient| == e.slab.threads
  {
    if z.Persistent? then e.persistent else e.transient[z.i]
  }

  // The live blocks of one arena.
  function LiveIn(e: State, z: Zone): seq<Span>
    requires Exists(e.slab, z) && HasArena(z) && |e.transient| == e.slab.threads
  {
    HeapIn(e, z).live
  }

  lemma LiveBlock(e: State, z: Zone, k: nat)
    requires Inv(e) && Exists(e.slab, z) && HasArena(z) && k < |LiveIn(e, z)|
    ensures var x, r := LiveIn(e, z)[k], RegionOf(ElementOffset, e.slab, z);
            && x.alignment > 0 && x.addr % x.alignment == 0
            && r.start <= x.addr && x.addr + x.size <= r.Limit()
  {
    assert HeapAt(e.slab, z, HeapIn(e, z));
  }

  // After any sequence of engine calls by any threads: every live block of
  // every arena is aligned and inside the slab, Free would not give it to the
  // C heap, and it overlaps no other live block of any arena.
  lemma EngineSafety(s: Slab, g: Growth, calls: seq<Call>, z1: Zone, k1: nat, z2: Zone, k2: nat)
    requires s.Valid() && forall i | 0 <= i < |calls| :: SaneCall(calls[i])
    requires Exists(s, z1) && HasArena(z1) && Exists(s, z2) && HasArena(z2)
    requires k1 < |LiveIn(Run(g, Initial(s), calls), z1)| && k2 < |LiveIn(Run(g, Initial(s), calls), z2)|
    requires 0 < s.page <= WORD
    ensures var x, y := LiveIn(Run(g, Initial(s), calls), z1)[k1], LiveIn(Run(g, Initial(s), calls), z2)[k2];
            && x.alignment > 0 && x.addr % x.alignment == 0
            && s.base <= x.addr && x.addr + x.size <= s.End()
            && !Frees(s, x.addr)
            && (z1 != z2 || k1 != k2 ==> !Overlap(x, y))
  {
    var e := Run(g, Initial(s), calls);
    LiveBlock(e, z1, k1);
    LiveBlock(e, z2, k2);
    ZoneInSlab(ElementOffset, s, z1);
    if z1 != z2 {
      ZonesApart(s, z1, z2);
    } else if k1 != k2 {
      var h := HeapIn(e, z1);
      assert Placed(h);
      if k1 < k2 { assert h.live[k1].addr + h.live[k1].size <= h.live[k2].addr; }
      if k2 < k1 { assert h.live[k2].addr + h.live[k2].size <= h.live[k1].addr; }
    }
  }

  // ------------------------------------------------------ what each call does

  // Before any call every arena is as ThreadContext_Initialize leaves it.
  lemma StartsFresh(s: Slab, z: Zone)
    requires s.Valid() && Exists(s, z) && HasArena(z)
    ensures 0 < s.page <= WORD && HeapIn(Initial(s), z) == Heap(ArenaAt(s, z), [])
  {
    ContextBytesFit(s);
  }

  // The state after one call more.
  function After(g: Growth, e: State, calls: seq<Call>, c: Call): (r: State)
    requires Inv(e) && SaneCall(c) && forall i | 0 <= i < |calls| :: SaneCall(calls[i])
    ensures Inv(r) && r.slab == e.slab
  {
    Run(g, e, calls + [c])
  }

  lemma RunSnoc(g: Growth, e: State, calls: seq<Call>, c: Call)
    requires Inv(e) && SaneCall(c) && forall i | 0 <= i < |calls| :: SaneCall(calls[i])
    ensures After(g, e, calls, c) == Step(g, Run(g, e, calls), c)
  {
    assert (calls + [c])[..|calls|] == calls;
  }

  // Every arena but the one at z is as it was.
  ghost predicate OnlyAt(e: State, r: State, z: Zone)
    requires |e.transient| == e.slab.threads && |r.transient| == r.slab.threads
  {
    r.slab == e.slab
    && forall y | Exists(e.slab, y) && HasArena(y) && y != z :: HeapIn(r, y) == HeapIn(e, y)
  }

  // The arena is asked for r: if it can serve it, it gains one live block of the
  // size asked for, at its old cursor rounded up, and its cursor moves behind
  // that block; if not, it gains none and its cursor stays.
  ghost predicate Asked(g: Growth, h: Heap, h': Heap, r: Request)
    requires 0 < r.alignment <= WORD
  {
    var start := AlignUp(Cursor(h.arena), r.alignment);
    if Served(g, h.arena, r)
    then h'.live == h.live + [Span(start, r.size, r.alignment)] && Cursor(h'.arena) == start + r.size
    else h'.live == h.live && h'.arena.offset == h.arena.offset
  }

  lemma ServeAsks(g: Growth, h: Heap, r: Request)
    requires Callable(h.arena, r)
    ensures 0 < r.alignment <= WORD && Asked(g, h, Apply(g, h, Op.Allocate(r)), r)
  {
    PaddingFits(h.arena, r);
    BlockIffServed(g, h.arena, r);
    if Served(g, h.arena, r) { BlockPlacement(g, h.arena, r); }
  }

  lemma TransientStep(g: Growth, m: State, i: nat, r: Request)
    requires Inv(m) && Sane(r) && i < m.slab.threads
    ensures 0 < r.alignment <= WORD
    ensures var m' := Step(g, m, Call.Allocate(Some(i), TRANSIENT, r));
            OnlyAt(m, m', Transient(i)) && Asked(g, HeapIn(m, Transient(i)), HeapIn(m', Transient(i)), r)
  {
    assert HeapAt(m.slab, Transient(i), m.transient[i]);
    ServeAsks(g, m.transient[i], r);
  }

  // A thread's transient memory comes from its own transient arena.
  lemma TransientComesFromHome(g: Growth, e: State, calls: seq<Call>, i: nat, r: Request)
    requires Inv(e) && Sane(r) && (forall k | 0 <= k < |calls| :: SaneCall(calls[k])) && i < e.slab.threads
    ensures 0 < r.alignment <= WORD
    ensures var m, m' := Run(g, e, calls), After(g, e, calls, Call.Allocate(Some(i), TRANSIENT, r));
            OnlyAt(m, m', Transient(i)) && Asked(g, HeapIn(m, Transient(i)), HeapIn(m', Transient(i)), r)
  {
    RunSnoc(g, e, calls, Call.Allocate(Some(i), TRANSIENT, r));
    TransientStep(g, Run(g, e, calls), i, r);
  }

  lemma PersistentStep(g: Growth, m: State, r: Request)
    requires Inv(m) && Sane(r)
    ensures 0 < r.alignment <= WORD
    ensures var m' := Step(g, m, Call.Allocate(Some(0), PERSISTENT, r));
            OnlyAt(m, m', Persistent) && Asked(g, HeapIn(m, Persistent), HeapIn(m', Persistent), r)
  {
    assert HeapAt(m.slab, Persistent, m.persistent);
    ServeAsks(g, m.persistent, r);
  }

  // Main's persistent memory comes from the persistent arena.
  lemma PersistentComesFromMain(g: Growth, e: State, calls: seq<Call>, r: Request)
    requires Inv(e) && Sane(r) && forall k | 0 <= k < |calls| :: SaneCall(calls[k])
    ensures 0 < r.alignment <= WORD
    ensures var m, m' := Run(g, e, calls), After(g, e, calls, Call.Allocate(Some(0), PERSISTENT, r));
            OnlyAt(m, m', Persistent) && Asked(g, HeapIn(m, Persistent), HeapIn(m', Persistent), r)
  {
    RunSnoc(g, e, calls, Call.Allocate(Some(0), PERSISTENT, r));
    PersistentStep(g, Run(g, e, calls), r);
  }

  // No arena serves a thread without a context, or a worker asking for
  // persistent memory.
  lemma OthersGetNothing(g: Growth, e: State, calls: seq<Call>, thread: Option<nat>, kind: AllocationType, r: Request)
    requires Inv(e) && Sane(r) && forall k | 0 <= k < |calls| :: SaneCall(calls[k])
    requires thread == None || (thread.value != 0 && kind == PERSISTENT)
    ensures After(g, e, calls, Call.Allocate(thread, kind, r)) == Run(g, e, calls)
  {
    RunSnoc(g, e, calls, Call.Allocate(thread, kind, r));
  }

  // Emptied: nothing live, the cursor at the start, the capacity kept.
  predicate Emptied(h: Heap, h': Heap) {
    h'.live == [] && h'.arena == h.arena.(offset := 0)
  }

  lemma ResetStep(g: Growth, m: State, c: Call, i: nat)
    requires Inv(m) && i < m.slab.threads && ((c == Update && i == 0) || c == FallAsleep(i))
    ensures var m' := Step(g, m, c);
            OnlyAt(m, m', Transient(i)) && Emptied(HeapIn(m, Transient(i)), HeapIn(m', Transient(i)))
  {
    assert HeapAt(m.slab, Transient(i), m.transient[i]);
  }

  // Update empties main's transient arena, falling asleep the worker's own.
  lemma ResetsEmptyTheirArena(g: Growth, e: State, calls: seq<Call>, c: Call, i: nat)
    requires Inv(e) && forall k | 0 <= k < |calls| :: SaneCall(calls[k])
    requires i < e.slab.threads && ((c == Update && i == 0) || c == FallAsleep(i))
    ensures var m, m' := Run(g, e, calls), After(g, e, calls, c);
            OnlyAt(m, m', Transient(i)) && Emptied(HeapIn(m, Transient(i)), HeapIn(m', Transient(i)))
  {
    RunSnoc(g, e, calls, c);
    ResetStep(g, Run(g, e, calls), c, i);
  }

  lemma StolenStep(g: Growth, m: State, rs: seq<Request>)
    requires Inv(m) && AllSane(rs)
    ensures var m' := Step(g, m, RunStolen(rs)); var h, h' := HeapIn(m, Transient(0)), HeapIn(m', Transient(0));
            && OnlyAt(m, m', Transient(0)) && Within(h.arena)
            && h'.live == h.live
            && h'.arena == Arenas.Run(g, h, Allocations(rs)).arena.(offset := h.arena.offset)
  {
    assert HeapAt(m.slab, Transient(0), m.transient[0]);
    ScopeIsAllocationsUndone(g, m.transient[0], rs);
  }

  // A stolen task leaves main's cursor and live blocks as they were and no trace
  // elsewhere; what it won for main's arena is what its requests, served one by
  // one, would have won.
  lemma StolenTaskStaysOnMain(g: Growth, e: State, calls: seq<Call>, rs: seq<Request>)
    requires Inv(e) && AllSane(rs) && forall k | 0 <= k < |calls| :: SaneCall(calls[k])
    ensures var m, m' := Run(g, e, calls), After(g, e, calls, RunStolen(rs));
            var h, h' := HeapIn(m, Transient(0)), HeapIn(m', Transient(0));
            && OnlyAt(m, m', Transient(0)) && Within(h.arena)
            && h'.live == h.live
            && h'.arena == Arenas.Run(g, h, Allocations(rs)).arena.(offset := h.arena.offset)
  {
    RunSnoc(g, e, calls, RunStolen(rs));
    StolenStep(g, Run(g, e, calls), rs);
  }

  // ---------------------------------------------------- blocks and their pages

  // offset <= capacity <= maxCapacity in every arena, and the capacity committed.
  ghost predicate AllSecured(e: State) {
    && (forall i | 0 <= i < |e.transient| :: Secured(e.transient[i].arena))
    && Secured(e.persistent.arena)
  }

  lemma InitialSecured(s: Slab)
    requires s.Valid()
    ensures AllSecured(Initial(s))
  {
    var e := Initial(s);
    forall i | 0 <= i < |e.transient|
      ensures Secured(e.transient[i].arena)
    {
      ArenaStartsSecured(s, Transient(i));
    }
    ArenaStartsSecured(s, Persistent);
  }

  lemma OnTransientStaysSecured(e: State, i: nat, op: Op)
    requires Inv(e) && AllSecured(e) && SaneOp(op)
    ensures AllSecured(OnTransient(Repaired, e, i, op))
  {
    if i < |e.transient| { OpStaysBacked(e.transient[i], op); }
  }

  lemma StepStaysSecured(e: State, c: Call)
    requires Inv(e) && AllSecured(e) && SaneCall(c)
    ensures AllSecured(Step(Repaired, e, c))
  {
    match c
    case Update => OnTransientStaysSecured(e, 0, Reset);
    case FallAsleep(w) => OnTransientStaysSecured(e, w, Reset);
    case RunStolen(rs) => OnTransientStaysSecured(e, 0, Scope(rs));
    case Allocate(thread, kind, r) =>
      match Dispatch(thread, kind)
      case InArena(Transient(i)) => OnTransientStaysSecured(e, i, Op.Allocate(r));
      case InArena(_) => OpStaysBacked(e.persistent, Op.Allocate(r));
      case _ =>
  }

  lemma {:induction false} RunStaysSecured(e: State, calls: seq<Call>)
    requires Inv(e) && AllSecured(e) && forall i | 0 <= i < |calls| :: SaneCall(calls[i])
    ensures AllSecured(Run(Repaired, e, calls))
  {
    if calls == [] {
    } else {
      RunStaysSecured(e, calls[..|calls| - 1]);
      StepStaysSecured(Run(Repaired, e, calls[..|calls| - 1]), calls[|calls| - 1]);
    }
  }

  // With the repaired growth, after any calls by any threads on any valid slab,
  // every live block of every arena lies in committed pages of its own zone.
  lemma EngineStaysBacked(s: Slab, calls: seq<Call>, z: Zone)
    requires s.Valid() && Exists(s, z) && HasArena(z) && forall i | 0 <= i < |calls| :: SaneCall(calls[i])
    ensures 0 < s.page <= WORD
    ensures var h, r := HeapIn(Run(Repaired, Initial(s), calls), z), RegionOf(ElementOffset, s, z);
            && AllBacked(h)
            && h.arena.backing == r.start && 0 <= h.arena.capacity <= r.size
            && IsBacked(r.start, h.arena.capacity, h.arena.committed)
  {
    InitialSecured(s);
    RunStaysSecured(Initial(s), calls);
    var h := HeapIn(Run(Repaired, Initial(s), calls), z);
    assert HeapAt(s, z, h);
    SecuredIsBacked(h);
  }
}
