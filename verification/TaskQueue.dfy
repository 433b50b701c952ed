// TaskQueue as the engine lays it out: two indices over two parallel arrays,
// operated on by one thread at a time.
module TaskQueues {
  import opened Bits
  import opened MemoryMap
  import opened DequeHistory
  import opened DequeMachine
  import opened DequeInvariant

  // sizeof(task_t) + sizeof(payload_t)
  const FIELD_SIZE: nat := 2 * WORD_SIZE

  class DependencyCounter {
    var count: nat
  }

  // What accepting e does to the contents of a ring of n entries: once exactly
  // n are held, the slot written is the one the oldest entry lives in.
  function Accept(q: seq<Entry>, e: Entry, n: nat): seq<Entry> {
    (if |q| == n && n > 0 then [e] + q[1..] else q) + [e]
  }

  // A push as written appends exactly when the ring is not exactly full, or
  // the entry it overwrites happens to equal the new one.
  lemma AcceptAppendsIff(q: seq<Entry>, e: Entry, n: nat)
    requires n > 0
    ensures Accept(q, e, n) == q + [e] <==> |q| != n || q[0] == e
  {
    if |q| == n {
      assert Accept(q, e, n)[0] == e && (q + [e])[0] == q[0];
      assert q == [q[0]] + q[1..];
    }
  }

  class TaskQueue {
    var top: int
    var bottom: int
    const size: nat
    const mask: nat
    const tasks: array<int>
    const payloads: array<int>
    var depCounterPtr: DependencyCounter?

    ghost predicate Valid()
      reads this, tasks, payloads
    {
      && tasks != payloads
      && tasks.Length == payloads.Length == size > 0
      && IsPow2(size) && mask == size - 1
      && 0 <= top <= bottom <= top + size + 1
    }

    ghost function Image(): Shared
      reads this, tasks, payloads
    {
      Shared(top, bottom, tasks[..], payloads[..])
    }

    // The entries held, oldest first.
    ghost function Contents(): (q: seq<Entry>)
      reads this, tasks, payloads
      requires Valid()
      ensures |q| == bottom - top
    {
      Window(Image(), top, bottom)
    }

    // InitializeQueue: the ring is sized by the memory given to it. The counter
    // it is passed is never stored.
    constructor (memSize: nat, depCounter: DependencyCounter)
      requires IsPow2(memSize / FIELD_SIZE)
      ensures Valid() && size == memSize / FIELD_SIZE
      ensures Contents() == []
      ensures fresh(tasks) && fresh(payloads)
      ensures depCounterPtr == null
    {
      size := memSize / FIELD_SIZE;
      mask := memSize / FIELD_SIZE - 1;
      top := 0;
      bottom := 0;
      tasks := new int[memSize / FIELD_SIZE];
      payloads := new int[memSize / FIELD_SIZE];
      depCounterPtr := null;
    }

    lemma MaskedIndex(b: nat)
      requires Valid()
      ensures And(b, mask) == b % size < size
    {
      var k :| size == Pow2(k);
      AndMaskIsMod(b, k);
    }

    // TaskQueue_Push with the guard as written. `ranInline` reports that the
    // caller ran the task itself.
    method Push(task: int, payload: int) returns (ranInline: bool)
      requires Valid()
      modifies this`bottom, tasks, payloads
      ensures Valid()
      ensures ranInline <==> |old(Contents())| > size
      ensures ranInline ==> Image() == old(Image())
      ensures !ranInline ==> Contents() == Accept(old(Contents()), Entry(task, payload), size)
    {
      var b := bottom;
      var t := top;
      if b - t > size {
        return true;
      }
      var ix := And(b, mask);
      MaskedIndex(b);
      tasks[ix] := task;
      payloads[ix] := payload;
      bottom := b + 1;
      ranInline := false;
      PushedWindow(old(Image()), Image(), Entry(task, payload));
    }

    // TaskQueue_Pop: the newest entry leaves.
    method Pop() returns (ok: bool, task: int, payload: int)
      requires Valid()
      modifies this`top, this`bottom
      ensures Valid()
      ensures ok <==> old(Contents()) != []
      ensures !ok ==> Image() == old(Image())
      ensures ok ==> Contents() + [Entry(task, payload)] == old(Contents())
    {
      ok, task, payload := false, 0, 0;
      var b := bottom - 1;
      bottom := b;
      var t := top;
      if t > b {
        bottom := b + 1;
        return;
      }
      var ix := And(b, mask);
      MaskedIndex(b);
      task := tasks[ix];
      payload := payloads[ix];
      WindowSnoc(Image(), t, b);
      WindowFrame(old(Image()), Image(), t, b + 1);
      if t == b {
        top := t + 1;
        bottom := b + 1;
      }
      ok := true;
    }

    // TaskQueue_Steal: the oldest entry leaves.
    method Steal() returns (ok: bool, task: int, payload: int)
      requires Valid()
      modifies this`top
      ensures Valid()
      ensures ok <==> old(Contents()) != []
      ensures !ok ==> Image() == old(Image())
      ensures ok ==> [Entry(task, payload)] + Contents() == old(Contents())
    {
      ok, task, payload := false, 0, 0;
      var t := top;
      var b := bottom;
      if t >= b {
        return;
      }
      var ix := And(t, mask);
      MaskedIndex(t);
      task := tasks[ix];
      payload := payloads[ix];
      WindowTail(Image(), t, b);
      WindowFrame(old(Image()), Image(), t + 1, b);
      top := t + 1;
      ok := true;
      WindowFrame(old(Image()), Image(), t + 1, b);
    }
  }

  lemma PushedWindow(sh: Shared, sh': Shared, e: Entry)
    requires sh.Valid() && sh'.Valid() && sh.Size() == sh'.Size()
    requires sh.top == sh'.top && sh'.bottom == sh.bottom + 1
    requires 0 <= sh.top <= sh.bottom <= sh.top + sh.Size()
    requires sh'.tasks == sh.tasks[sh.bottom % sh.Size() := e.task]
    requires sh'.payloads == sh.payloads[sh.bottom % sh.Size() := e.payload]
    ensures Window(sh', sh.top, sh'.bottom) == Accept(Window(sh, sh.top, sh.bottom), e, sh.Size())
  {
    var t, b, n := sh.top, sh.bottom, sh.Size();
    assert sh'.Slot(b) == e;
    WindowSnoc(sh', t, b);
    if b < t + n {
      WriteOutside(sh, sh', t, b, b);
    } else {
      assert b % n == t % n by { DivModUnique(b, n, t / n + 1, t % n); }
      assert sh'.Slot(t) == e;
      WriteOutside(sh, sh', t + 1, b, b);
      WindowTail(sh, t, b);
      WindowTail(sh', t, b);
      assert Window(sh', t, b) == [e] + Window(sh', t + 1, b);
    }
  }
}
