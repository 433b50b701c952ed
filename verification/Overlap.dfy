// A push by main and a pop by the worker on the same queue, interleaved access
// by access in every possible way: the exact outcome of each interleaving, and
// which of them a sequential deque could have produced.
module Overlap {
  import opened Options
  import opened DequeHistory
  import opened DequeMachine
  import opened DequeInvariant
  import opened DequeTheorems
  import opened SharedOwner

  // How far the other thread was at the accesses that decide the outcome.
  datatype Order = Order(
    published: bool,       // the pop loads `bottom`: the push has stored it
    lowered: bool,         // the push loads `bottom`: the pop has lowered it
    over: bool,            // the push loads `bottom`: the pop has returned
    loweredAtStore: bool,  // the push stores `bottom`: the pop has lowered it
    overAtStore: bool,     // the push stores `bottom`: the pop has returned
    newTask: bool,         // the pop reads the task: the push has written its own
    newPayload: bool)      // the pop reads the payload: the push has written its own

  // Two program counters over one queue, with what the operations returned.
  datatype Race = Race(
    sh: Shared, push: Owner, pop: Owner, pushed: Option<Outcome>, popped: Option<Outcome>, order: Order)

  datatype Turn = Main | Worker

  predicate Lowered(pop: Owner) { !pop.PopBegin? && !pop.PopLower? }

  predicate TaskWritten(push: Owner) { push.PushPayload? || PayloadWritten(push) }

  predicate PayloadWritten(push: Owner) { push.PushStore? || push.Idle? }

  // One access with program counter pc, as the single-owner machine has it.
  function Access(sh: Shared, pc: Owner): (s: State)
    requires sh.Valid()
    ensures s.sh.Valid() && s.sh.Size() == sh.Size()
  {
    OwnerStep(AsWritten, State(sh, pc, [], Start))
  }

  function SeenByPush(r: Race): Order {
    match r.push
    case PushBegin(_) => r.order.(lowered := Lowered(r.pop), over := r.pop.Idle?)
    case PushStore(_, _) => r.order.(loweredAtStore := Lowered(r.pop), overAtStore := r.pop.Idle?)
    case _ => r.order
  }

  function SeenByPop(r: Race): Order {
    match r.pop
    case PopBegin => r.order.(published := r.push.Idle?)
    case PopTask(_, _) => r.order.(newTask := TaskWritten(r.push))
    case PopPayload(_, _, _) => r.order.(newPayload := PayloadWritten(r.push))
    case _ => r.order
  }

  function Act(r: Race, turn: Turn): (r': Race)
    requires r.sh.Valid()
    ensures r'.sh.Valid() && r'.sh.Size() == r.sh.Size()
  {
    match turn
    case Main =>
      if r.push.Idle? then r
      else
        var a := Access(r.sh, r.push);
        Race(a.sh, a.owner, r.pop, Returned(a), r.popped, SeenByPush(r))
    case Worker =>
      if r.pop.Idle? then r
      else
        var a := Access(r.sh, r.pop);
        Race(a.sh, r.push, a.owner, r.pushed, Returned(a), SeenByPop(r))
  }

  function Exec(r: Race, turns: seq<Turn>): (r': Race)
    requires r.sh.Valid()
    ensures r'.sh.Valid() && r'.sh.Size() == r.sh.Size()
  {
    if turns == [] then r else Act(Exec(r, turns[..|turns| - 1]), turns[|turns| - 1])
  }

  // Both operations called, no access made.
  function Begun(s: State, e: Entry): Race {
    Race(s.sh, PushBegin(e), PopBegin, None, None, Order(false, false, false, false, false, false, false))
  }

  predicate Over(r: Race) { r.push.Idle? && r.pop.Idle? }

  // ------------------------------------------------------------ the outcomes

  // What the pop returns and what is left in the queue, which held q.
  function Aftermath(q: seq<Entry>, e: Entry, o: Order): (Outcome, seq<Entry>) {
    var n := |q|;
    if o.published then (Popped(e), q)
    else if n == 0 then (PopEmpty, if (if o.lowered then o.over else o.overAtStore) then [e] else [])
    else if !o.lowered then
      // The push has chosen the slot behind the one the pop takes.
      (Popped(q[n - 1]),
       if n == 1 then (if o.overAtStore then [e] else [])
       else if o.loweredAtStore then q + [e] else q[..n - 1])
    else if n == 1 && o.over then (Popped(q[0]), [e])
    else
      // The push writes into the slot the pop takes.
      (Popped(Torn(q[n - 1], e, o)), if n == 1 then [] else q[..n - 1] + [e])
  }

  // Read from a slot while it is being overwritten.
  function Torn(was: Entry, e: Entry, o: Order): Entry {
    Entry(if o.newTask then e.task else was.task, if o.newPayload then e.payload else was.payload)
  }

  // The sequential deque: the push first, or the pop first.
  predicate Legal(q: seq<Entry>, e: Entry, popped: Outcome, left: seq<Entry>) {
    || (popped == Popped(e) && left == q)
    || (q == [] && popped == PopEmpty && left == [e])
    || (q != [] && popped == Popped(q[|q| - 1]) && left == q[..|q| - 1] + [e])
  }

  // Where the accesses to `bottom` must fall. With at most one entry one of
  // the two operations must be over before the other begins, or the pop before
  // the push stores. With more, the push may not load `bottom` before the pop
  // has lowered it, and the pop must not see what the push writes.
  predicate Harmless(q: seq<Entry>, e: Entry, o: Order) {
    || o.published
    || (|q| <= 1 && if o.lowered then o.over else o.overAtStore)
    || (|q| >= 2 && o.lowered && Torn(q[|q| - 1], e, o) == q[|q| - 1])
  }

  lemma LegalIffHarmless(q: seq<Entry>, e: Entry, o: Order)
    ensures var (popped, left) := Aftermath(q, e, o); Legal(q, e, popped, left) <==> Harmless(q, e, o)
  {
  }

  // ----------------------------------------------------------- the invariant

  // What the pop loads from `bottom`, and what the push loads.
  function PopLoads(b: int, o: Order): int { if o.published then b + 1 else b }

  function PushLoads(b: int, t: int, o: Order): int {
    if o.lowered && !(o.over && b - t <= 1) then b - 1 else b
  }

  function Memory(cells: seq<int>, written: bool, ix: int, value: int): (r: seq<int>)
    requires |cells| > 0
    ensures |r| == |cells|
  {
    if written then cells[ix % |cells| := value] else cells
  }

  function TopNow(b: int, t: int, r: Race): int {
    var wb := PopLoads(b, r.order);
    if wb == t + 1 && (r.pop.PopRestore? || r.pop.Idle?) then wb else t
  }

  function BottomNow(b: int, t: int, r: Race): int {
    var o, wb := r.order, PopLoads(b, r.order);
    var byPop := if r.pop.Idle? && wb <= t + 1 then wb else wb - 1;
    if !Lowered(r.pop) then if r.push.Idle? then b + 1 else b
    else if !r.push.Idle? || !o.loweredAtStore || (r.pop.Idle? && wb <= t + 1 && !o.overAtStore) then byPop
    else PushLoads(b, t, o) + 1
  }

  // Each record is made at its access and agrees with the others.
  predicate OrderInv(r: Race) {
    var o := r.order;
    && (o.published ==> !r.pop.PopBegin? && r.push.Idle? && !o.lowered && !o.loweredAtStore)
    && (o.lowered ==> !r.push.PushBegin? && Lowered(r.pop))
    && (o.over ==> o.lowered && r.pop.Idle? && !o.newTask && !o.newPayload)
    && (o.loweredAtStore ==> r.push.Idle? && Lowered(r.pop))
    && (o.overAtStore ==> o.loweredAtStore && r.pop.Idle?)
    && (r.push.Idle? && o.lowered ==> o.loweredAtStore)
    && (r.push.Idle? && o.over ==> o.overAtStore)
    && (o.newTask ==> TaskWritten(r.push))
    && (o.newPayload ==> PayloadWritten(r.push))
  }

  predicate CellsInv(s: State, e: Entry, r: Race)
    requires AtRest(s)
  {
    var ix := PushLoads(s.sh.bottom, s.sh.top, r.order);
    && r.sh.tasks == Memory(s.sh.tasks, TaskWritten(r.push), ix, e.task)
    && r.sh.payloads == Memory(s.sh.payloads, PayloadWritten(r.push), ix, e.payload)
  }

  predicate IndexInv(s: State, r: Race) {
    r.sh.top == TopNow(s.sh.bottom, s.sh.top, r) && r.sh.bottom == BottomNow(s.sh.bottom, s.sh.top, r)
  }

  predicate PushInv(s: State, e: Entry, r: Race) {
    var b := PushLoads(s.sh.bottom, s.sh.top, r.order);
    match r.push
    case Idle => r.pushed == Some(Pushed(e))
    case PushBegin(x) => x == e
    case PushTop(x, i) => x == e && i == b
    case PushTask(x, i) => x == e && i == b
    case PushPayload(x, i) => x == e && i == b
    case PushStore(x, i) => x == e && i == b
    case _ => false
  }

  // The entry the pop takes, if it takes one.
  function Taken(s: State, e: Entry, o: Order): Entry
    requires AtRest(s)
  {
    if o.published then e
    else if o.lowered then Torn(s.sh.Slot(s.sh.bottom - 1), e, o)
    else s.sh.Slot(s.sh.bottom - 1)
  }

  predicate PopInv(s: State, e: Entry, r: Race)
    requires AtRest(s)
  {
    var t, b, x := s.sh.top, PopLoads(s.sh.bottom, r.order) - 1, Taken(s, e, r.order);
    match r.pop
    case PopBegin => true
    case PopLower(i) => i == b
    case PopTop(i) => i == b
    case PopTask(i, j) => i == b && j == t <= b
    case PopPayload(i, j, task) => i == b && j == t <= b && task == x.task
    case PopCas(i, y) => i == b == t && y == x
    case PopRestore(i, out) => i == b <= t && out == if b < t then PopEmpty else Popped(x)
    case Idle => r.popped == Some(if b < t then PopEmpty else Popped(x))
    case _ => false
  }

  predicate RaceInv(s: State, e: Entry, r: Race)
    requires AtRest(s)
  {
    OrderInv(r) && CellsInv(s, e, r) && IndexInv(s, r) && PushInv(s, e, r) && PopInv(s, e, r)
  }

  // --------------------------------------------------------- main's accesses

  lemma MainFits(s: State, e: Entry, r: Race)
    requires AtRest(s) && r.sh.Valid() && RaceInv(s, e, r) && r.push.PushTop?
    ensures Act(r, Main).push == PushTask(e, r.push.b)
  {
  }

  lemma MainKeepsOrder(s: State, e: Entry, r: Race)
    requires AtRest(s) && r.sh.Valid() && RaceInv(s, e, r)
    ensures OrderInv(Act(r, Main)) && PushInv(s, e, Act(r, Main))
  {
    if r.push.PushTop? { MainFits(s, e, r); }
  }

  lemma MainKeepsCells(s: State, e: Entry, r: Race)
    requires AtRest(s) && r.sh.Valid() && RaceInv(s, e, r)
    ensures CellsInv(s, e, Act(r, Main))
  {
    if r.push.PushTop? { MainFits(s, e, r); }
  }

  lemma MainKeepsIndex(s: State, e: Entry, r: Race)
    requires AtRest(s) && r.sh.Valid() && RaceInv(s, e, r)
    ensures IndexInv(s, Act(r, Main))
  {
    if r.push.PushTop? { MainFits(s, e, r); }
  }

  lemma MainKeepsPop(s: State, e: Entry, r: Race)
    requires AtRest(s) && r.sh.Valid() && RaceInv(s, e, r)
    ensures PopInv(s, e, Act(r, Main))
  {
    if r.push.PushTop? { MainFits(s, e, r); }
  }

  // ----------------------------------------------------- the worker's accesses

  lemma WorkerKeepsOrder(s: State, e: Entry, r: Race)
    requires AtRest(s) && r.sh.Valid() && RaceInv(s, e, r)
    ensures OrderInv(Act(r, Worker)) && PushInv(s, e, Act(r, Worker))
  {
  }

  lemma WorkerKeepsCells(s: State, e: Entry, r: Race)
    requires AtRest(s) && r.sh.Valid() && RaceInv(s, e, r)
    ensures CellsInv(s, e, Act(r, Worker))
  {
  }

  lemma WorkerKeepsIndex(s: State, e: Entry, r: Race)
    requires AtRest(s) && r.sh.Valid() && RaceInv(s, e, r)
    ensures IndexInv(s, Act(r, Worker))
  {
  }

  lemma ReadTask(s: State, e: Entry, r: Race)
    requires AtRest(s) && r.sh.Valid() && RaceInv(s, e, r) && r.pop.PopTask?
    ensures PopInv(s, e, Act(r, Worker))
  {
    if r.sh.Size() > 1 { SlotsApart(s.sh.bottom - 1, s.sh.bottom, r.sh.Size()); }
  }

  lemma ReadPayload(s: State, e: Entry, r: Race)
    requires AtRest(s) && r.sh.Valid() && RaceInv(s, e, r) && r.pop.PopPayload?
    ensures PopInv(s, e, Act(r, Worker))
  {
    if r.sh.Size() > 1 { SlotsApart(s.sh.bottom - 1, s.sh.bottom, r.sh.Size()); }
  }

  lemma WorkerKeepsPop(s: State, e: Entry, r: Race)
    requires AtRest(s) && r.sh.Valid() && RaceInv(s, e, r)
    ensures PopInv(s, e, Act(r, Worker))
  {
    if r.pop.PopTask? { ReadTask(s, e, r); }
    else if r.pop.PopPayload? { ReadPayload(s, e, r); }
  }

  // ------------------------------------------------------------- every schedule

  lemma {:induction false} RunKeepsRace(s: State, e: Entry, turns: seq<Turn>)
    requires AtRest(s)
    ensures RaceInv(s, e, Exec(Begun(s, e), turns))
  {
    if turns == [] {
    } else {
      var front := turns[..|turns| - 1];
      var r := Exec(Begun(s, e), front);
      RunKeepsRace(s, e, front);
      match turns[|turns| - 1]
      case Main =>
        MainKeepsOrder(s, e, r); MainKeepsCells(s, e, r); MainKeepsIndex(s, e, r); MainKeepsPop(s, e, r);
      case Worker =>
        WorkerKeepsOrder(s, e, r); WorkerKeepsCells(s, e, r); WorkerKeepsIndex(s, e, r); WorkerKeepsPop(s, e, r);
    }
  }

  // What the queue holds once both operations are over.
  function Left(r: Race): seq<Entry>
    requires r.sh.Valid()
  {
    Window(r.sh, r.sh.top, r.sh.bottom)
  }

  lemma FinalSlots(s: State, e: Entry, r: Race)
    requires AtRest(s) && r.sh.Valid() && RaceInv(s, e, r) && Over(r)
    ensures var ix := PushLoads(s.sh.bottom, s.sh.top, r.order);
            && r.sh.Slot(ix) == e
            && forall i | s.sh.top <= i < s.sh.bottom && i != ix :: r.sh.Slot(i) == s.sh.Slot(i)
  {
    var ix := PushLoads(s.sh.bottom, s.sh.top, r.order);
    forall i | s.sh.top <= i < s.sh.bottom && i != ix
      ensures r.sh.Slot(i) == s.sh.Slot(i)
    {
      if i < ix { SlotsApart(i, ix, r.sh.Size()); } else { SlotsApart(ix, i, r.sh.Size()); }
    }
  }

  lemma FinalContents(s: State, e: Entry, r: Race)
    requires AtRest(s) && r.sh.Valid() && RaceInv(s, e, r) && Over(r)
    ensures Left(r) == Aftermath(Contents(s), e, r.order).1
  {
    FinalSlots(s, e, r);
  }

  lemma FinalOutcomes(s: State, e: Entry, r: Race)
    requires AtRest(s) && r.sh.Valid() && RaceInv(s, e, r) && Over(r)
    ensures r.pushed == Some(Pushed(e)) && r.popped == Some(Aftermath(Contents(s), e, r.order).0)
  {
  }

  // Every interleaving of one push and one pop, from any queue at rest.
  lemma EveryOverlap(s: State, e: Entry, turns: seq<Turn>)
    requires AtRest(s) && Over(Exec(Begun(s, e), turns))
    ensures var r := Exec(Begun(s, e), turns);
            && r.pushed == Some(Pushed(e)) && r.popped.Some?
            && (r.popped.value, Left(r)) == Aftermath(Contents(s), e, r.order)
            && (Legal(Contents(s), e, r.popped.value, Left(r)) <==> Harmless(Contents(s), e, r.order))
  {
    RunKeepsRace(s, e, turns);
    var r := Exec(Begun(s, e), turns);
    FinalOutcomes(s, e, r);
    FinalContents(s, e, r);
    LegalIffHarmless(Contents(s), e, r.order);
  }

  // ------------------------------------------------------------- termination

  function Turns(turns: seq<Turn>, who: Turn): nat {
    if turns == [] then 0 else Turns(turns[..|turns| - 1], who) + if turns[|turns| - 1] == who then 1 else 0
  }

  lemma AccessSpends(sh: Shared, pc: Owner)
    requires sh.Valid() && !pc.Idle?
    ensures Remaining(Access(sh, pc).owner) < Remaining(pc)
  {
  }

  lemma ActSpends(r: Race, turn: Turn)
    requires r.sh.Valid()
    ensures var r' := Act(r, turn);
            && (if turn == Main then r'.pop == r.pop else r'.push == r.push)
            && (turn == Main ==> r'.push.Idle? || Remaining(r'.push) < Remaining(r.push))
            && (turn == Worker ==> r'.pop.Idle? || Remaining(r'.pop) < Remaining(r.pop))
  {
    if turn == Main && !r.push.Idle? { AccessSpends(r.sh, r.push); }
    if turn == Worker && !r.pop.Idle? { AccessSpends(r.sh, r.pop); }
  }

  lemma {:induction false} RunSpends(s: State, e: Entry, turns: seq<Turn>)
    requires s.sh.Valid()
    ensures var r := Exec(Begun(s, e), turns);
            && (r.push.Idle? || Remaining(r.push) + Turns(turns, Main) <= 5)
            && (r.pop.Idle? || Remaining(r.pop) + Turns(turns, Worker) <= 7)
  {
    if turns == [] {
    } else {
      var front := turns[..|turns| - 1];
      RunSpends(s, e, front);
      ActSpends(Exec(Begun(s, e), front), turns[|turns| - 1]);
    }
  }

  // Five turns of main and seven of the worker, in any order, end the race.
  lemma EveryOverlapEnds(s: State, e: Entry, turns: seq<Turn>)
    requires s.sh.Valid() && Turns(turns, Main) >= 5 && Turns(turns, Worker) >= 7
    ensures Over(Exec(Begun(s, e), turns))
  {
    RunSpends(s, e, turns);
  }
}
