// Histories of a work-stealing queue: calls, linearization points and returns
// of every thread, and the sequential deque they are judged against.
module DequeHistory {
  import opened Options

  // One task with its payload; the queue keeps the two in separate arrays.
  datatype Entry = Entry(task: int, payload: int)

  datatype Who = TheOwner | TheThief(id: nat)

  datatype Op = Push(entry: Entry) | Pop | Steal

  datatype Outcome =
    | Pushed(entry: Entry)
    | RanInline(entry: Entry)   // the queue was full, the caller ran the task
    | Popped(entry: Entry)
    | PopEmpty
    | Stolen(entry: Entry)
    | StealEmpty                // `t >= b`
    | StealLost                 // the compare-exchange failed

  datatype Event =
    | Call(who: Who, op: Op)
    | Lin(who: Who, out: Outcome)
    | Ret(who: Who, out: Outcome)

  datatype History = Start | Then(prior: History, event: Event)

  // ---------------------------------------------------------------- threads

  // Where one thread stands: outside any operation, inside one that has not
  // taken effect, or inside one that has. Broken if the thread's events are
  // not a repetition of call, one matching linearization point, equal return.
  datatype Phase = Out | Called(op: Op) | Done(out: Outcome) | Broken

  predicate Fits(op: Op, out: Outcome) {
    match op
    case Push(e) => out == Pushed(e) || out == RanInline(e)
    case Pop => out.Popped? || out.PopEmpty?
    case Steal => out.Stolen? || out.StealEmpty? || out.StealLost?
  }

  function PhaseOf(h: History, who: Who): Phase {
    match h
    case Start => Out
    case Then(prior, event) =>
      var p := PhaseOf(prior, who);
      if event.who != who then p
      else match event
        case Call(_, op) => if p.Out? then Called(op) else Broken
        case Lin(_, out) => if p.Called? && Fits(p.op, out) then Done(out) else Broken
        case Ret(_, out) => if p == Done(out) then Out else Broken
  }

  // Some entry left the queue after the thread's latest call.
  predicate TakenSinceCall(h: History, who: Who) {
    match h
    case Start => false
    case Then(prior, event) =>
      if event.Call? && event.who == who then false
      else if event.Lin? && (event.out.Popped? || event.out.Stolen?) then true
      else TakenSinceCall(prior, who)
  }

  // ------------------------------------------------------- sequential deque

  // The effect of one linearization point on a deque of capacity n; None if
  // the sequential deque does not allow that outcome there.
  function Effect(q: seq<Entry>, n: nat, prior: History, who: Who, out: Outcome): Option<seq<Entry>> {
    match out
    case Pushed(e) => if |q| < n then Some(q + [e]) else None
    case RanInline(_) => if |q| == n then Some(q) else None
    case Popped(e) => if q != [] && q[|q| - 1] == e then Some(q[..|q| - 1]) else None
    case PopEmpty => if q == [] then Some(q) else None
    case Stolen(e) => if q != [] && q[0] == e then Some(q[1..]) else None
    case StealEmpty =>
      // Nothing is left but at most one entry the owner is busy popping.
      if q == [] || (|q| == 1 && PhaseOf(prior, TheOwner) == Called(Pop)) then Some(q) else None
    case StealLost =>
      // Somebody else got an entry while this steal was running.
      if TakenSinceCall(prior, who) then Some(q) else None
  }

  // The contents after replaying all linearization points in order.
  function Replay(h: History, n: nat): Option<seq<Entry>> {
    match h
    case Start => Some([])
    case Then(prior, event) =>
      match Replay(prior, n)
      case None => None
      case Some(q) => if event.Lin? then Effect(q, n, prior, event.who, event.out) else Some(q)
  }

  // ------------------------------------------------------------- accounting

  // The books kept about every entry.
  datatype Account =
    | Offers      // calls of Push
    | Accepts     // pushes that put the entry into the ring
    | Inlines     // pushes that ran the entry instead
    | Takes       // pops and steals that removed it
    | Delivers    // returns that handed it to a caller

  predicate Books(event: Event, account: Account, x: Entry) {
    match account
    case Offers => event.Call? && event.op == Push(x)
    case Accepts => event.Lin? && event.out == Pushed(x)
    case Inlines => event.Lin? && event.out == RanInline(x)
    case Takes => event.Lin? && (event.out == Popped(x) || event.out == Stolen(x))
    case Delivers => event.Ret? && (event.out == Popped(x) || event.out == Stolen(x))
  }

  function Count(h: History, account: Account, x: Entry): nat {
    if h.Start? then 0 else Count(h.prior, account, x) + if Books(h.event, account, x) then 1 else 0
  }

  function Holding(q: seq<Entry>, x: Entry): nat {
    multiset(q)[x]
  }

  lemma EffectConserves(q: seq<Entry>, n: nat, prior: History, event: Event, x: Entry)
    requires event.Lin? && Effect(q, n, prior, event.who, event.out).Some?
    ensures Holding(q, x) + (if Books(event, Accepts, x) then 1 else 0)
         == Holding(Effect(q, n, prior, event.who, event.out).value, x) + (if Books(event, Takes, x) then 1 else 0)
  {
    if event.out.Popped? {
      assert q == q[..|q| - 1] + [q[|q| - 1]];
    } else if event.out.Stolen? {
      assert q == [q[0]] + q[1..];
    }
  }

  // Whatever a legal history accepted is still in the deque or was taken.
  lemma {:induction false} ReplayConserves(h: History, n: nat, x: Entry)
    requires Replay(h, n).Some?
    ensures Count(h, Accepts, x) == Holding(Replay(h, n).value, x) + Count(h, Takes, x)
  {
    if h.Start? {
    } else {
      ReplayConserves(h.prior, n, x);
      if h.event.Lin? {
        EffectConserves(Replay(h.prior, n).value, n, h.prior, h.event, x);
      }
    }
  }

  // A legal history never holds more than the capacity.
  lemma {:induction false} ReplayBounded(h: History, n: nat)
    requires Replay(h, n).Some?
    ensures |Replay(h, n).value| <= n
  {
    if h.Start? {
    } else {
      ReplayBounded(h.prior, n);
    }
  }
}
