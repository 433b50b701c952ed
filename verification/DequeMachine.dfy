// TaskQueue_Push, TaskQueue_Pop and TaskQueue_Steal as a step machine: one
// transition per access to `top`, `bottom` or a slot, one owner, any number of
// thieves, sequentially consistent interleaving.
module DequeMachine {
  import opened DequeHistory

  // The test that sends a push inline. The code compares with `>`; the ring
  // has room for `size` entries, which needs `>=`.
  datatype Guard = AsWritten | Repaired

  predicate Full(g: Guard, b: int, t: int, n: nat) {
    match g
    case AsWritten => b - t > n
    case Repaired => b - t >= n
  }

  // The two arrays have the ring's size; index i lives in slot i mod size,
  // which is what `i & mask` computes (Bits.AndMaskIsMod).
  datatype Shared = Shared(top: int, bottom: int, tasks: seq<int>, payloads: seq<int>) {
    ghost predicate Valid() {
      |tasks| == |payloads| > 0
    }

    function Size(): nat { |tasks| }

    function Slot(i: int): Entry
      requires Valid()
    {
      Entry(tasks[i % Size()], payloads[i % Size()])
    }
  }

  // Program counter and locals of the owner; each state names the next access.
  datatype Owner =
    | Idle
    | PushBegin(entry: Entry)                     // load bottom
    | PushTop(entry: Entry, b: int)               // load top, test full
    | PushTask(entry: Entry, b: int)              // write tasks[ix]
    | PushPayload(entry: Entry, b: int)           // write payloads[ix]
    | PushStore(entry: Entry, b: int)             // store bottom
    | PopBegin                                    // load bottom
    | PopLower(b: int)                            // store bottom
    | PopTop(b: int)                              // load top, compare
    | PopTask(b: int, t: int)                     // read tasks[ix]
    | PopPayload(b: int, t: int, task: int)       // read payloads[ix]
    | PopCas(b: int, entry: Entry)                // compare-exchange top
    | PopRestore(b: int, out: Outcome)            // store bottom

  datatype Thief =
    | Away
    | StealBottom(t: int)                         // load bottom, compare
    | StealTask(t: int)                           // read tasks[ix]
    | StealPayload(t: int, task: int)             // read payloads[ix]
    | StealCas(t: int, entry: Entry)              // compare-exchange top

  datatype State = State(sh: Shared, owner: Owner, thieves: seq<Thief>, h: History) {
    ghost predicate Valid() { sh.Valid() }
  }

  function After(h: History, a: Event, b: Event): History {
    Then(Then(h, a), b)
  }

  // One access by the owner.
  function OwnerStep(g: Guard, s: State): (r: State)
    requires s.Valid()
    ensures r.Valid() && r.sh.Size() == s.sh.Size() && r.thieves == s.thieves
  {
    var sh := s.sh;
    var n := sh.Size();
    match s.owner
    case Idle => s
    case PushBegin(e) => s.(owner := PushTop(e, sh.bottom))
    case PushTop(e, b) =>
      if Full(g, b, sh.top, n) then
        s.(owner := Idle, h := After(s.h, Lin(TheOwner, RanInline(e)), Ret(TheOwner, RanInline(e))))
      else
        s.(owner := PushTask(e, b))
    case PushTask(e, b) =>
      s.(sh := sh.(tasks := sh.tasks[b % n := e.task]), owner := PushPayload(e, b))
    case PushPayload(e, b) =>
      s.(sh := sh.(payloads := sh.payloads[b % n := e.payload]), owner := PushStore(e, b))
    case PushStore(e, b) =>
      s.(sh := sh.(bottom := b + 1), owner := Idle,
         h := After(s.h, Lin(TheOwner, Pushed(e)), Ret(TheOwner, Pushed(e))))
    case PopBegin => s.(owner := PopLower(sh.bottom - 1))
    case PopLower(b) => s.(sh := sh.(bottom := b), owner := PopTop(b))
    case PopTop(b) =>
      if sh.top > b then
        s.(owner := PopRestore(b, PopEmpty), h := Then(s.h, Lin(TheOwner, PopEmpty)))
      else if sh.top == b then
        s.(owner := PopTask(b, b))
      else
        // No contention is possible below this index: the pop takes effect here.
        s.(owner := PopTask(b, sh.top), h := Then(s.h, Lin(TheOwner, Popped(sh.Slot(b)))))
    case PopTask(b, t) => s.(owner := PopPayload(b, t, sh.tasks[b % n]))
    case PopPayload(b, t, task) =>
      var e := Entry(task, sh.payloads[b % n]);
      if t == b then s.(owner := PopCas(b, e))
      else s.(owner := Idle, h := Then(s.h, Ret(TheOwner, Popped(e))))
    case PopCas(b, e) =>
      if sh.top == b then
        s.(sh := sh.(top := b + 1), owner := PopRestore(b, Popped(e)), h := Then(s.h, Lin(TheOwner, Popped(e))))
      else
        s.(owner := PopRestore(b, PopEmpty), h := Then(s.h, Lin(TheOwner, PopEmpty)))
    case PopRestore(b, out) =>
      s.(sh := sh.(bottom := b + 1), owner := Idle, h := Then(s.h, Ret(TheOwner, out)))
  }

  // One access by thief i.
  function ThiefStep(s: State, i: nat): (r: State)
    requires s.Valid() && i < |s.thieves|
    ensures r.Valid() && r.sh.Size() == s.sh.Size() && r.owner == s.owner && |r.thieves| == |s.thieves|
  {
    var sh := s.sh;
    var n := sh.Size();
    var me := TheThief(i);
    match s.thieves[i]
    case Away =>
      s.(thieves := s.thieves[i := StealBottom(sh.top)], h := Then(s.h, Call(me, Steal)))
    case StealBottom(t) =>
      if t >= sh.bottom then
        s.(thieves := s.thieves[i := Away], h := After(s.h, Lin(me, StealEmpty), Ret(me, StealEmpty)))
      else
        s.(thieves := s.thieves[i := StealTask(t)])
    case StealTask(t) => s.(thieves := s.thieves[i := StealPayload(t, sh.tasks[t % n])])
    case StealPayload(t, task) => s.(thieves := s.thieves[i := StealCas(t, Entry(task, sh.payloads[t % n]))])
    case StealCas(t, e) =>
      if sh.top == t then
        s.(sh := sh.(top := t + 1), thieves := s.thieves[i := Away],
           h := After(s.h, Lin(me, Stolen(e)), Ret(me, Stolen(e))))
      else
        s.(thieves := s.thieves[i := Away], h := After(s.h, Lin(me, StealLost), Ret(me, StealLost)))
  }

  // What the scheduler of the interleaving may choose next. A choice that is
  // not enabled leaves the state alone.
  datatype Action = StartPush(entry: Entry) | StartPop | OwnerAccess | ThiefAccess(id: nat)

  function Step(g: Guard, s: State, a: Action): (r: State)
    requires s.Valid()
    ensures r.Valid() && r.sh.Size() == s.sh.Size() && |r.thieves| == |s.thieves|
  {
    match a
    case StartPush(e) =>
      if s.owner.Idle? then s.(owner := PushBegin(e), h := Then(s.h, Call(TheOwner, Push(e)))) else s
    case StartPop =>
      if s.owner.Idle? then s.(owner := PopBegin, h := Then(s.h, Call(TheOwner, Pop))) else s
    case OwnerAccess => OwnerStep(g, s)
    case ThiefAccess(i) => if i < |s.thieves| then ThiefStep(s, i) else s
  }

  function Exec(g: Guard, s: State, acts: seq<Action>): (r: State)
    requires s.Valid()
    ensures r.Valid() && r.sh.Size() == s.sh.Size() && |r.thieves| == |s.thieves|
  {
    if acts == [] then s else Step(g, Exec(g, s, acts[..|acts| - 1]), acts[|acts| - 1])
  }

  // A fresh queue over arbitrary memory, with k thieves about.
  ghost predicate Initial(s: State) {
    && s.Valid()
    && s.sh.top == 0 && s.sh.bottom == 0
    && s.owner == Idle
    && (forall i | 0 <= i < |s.thieves| :: s.thieves[i] == Away)
    && s.h == Start
  }

  // One past the last logical index whose entry is still in the deque: between
  // lowering `bottom` and the outcome of the pop the entry at b still counts.
  function High(s: State): int {
    match s.owner
    case PopTop(b) => b + 1
    case PopTask(b, t) => if t == b then b + 1 else b
    case PopPayload(b, t, _) => if t == b then b + 1 else b
    case PopCas(b, _) => b + 1
    case PopRestore(b, _) => b + 1
    case _ => s.sh.bottom
  }

  function Window(sh: Shared, lo: int, hi: int): (q: seq<Entry>)
    requires sh.Valid()
    ensures |q| == if lo <= hi then hi - lo else 0
    ensures forall k | 0 <= k < |q| :: q[k] == sh.Slot(lo + k)
  {
    seq(if lo <= hi then hi - lo else 0, k requires 0 <= k => sh.Slot(lo + k))
  }

  // The entries of the deque, oldest first.
  function Live(s: State): seq<Entry>
    requires s.Valid()
  {
    Window(s.sh, s.sh.top, High(s))
  }
}
