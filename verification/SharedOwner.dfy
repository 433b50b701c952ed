// Scheduler_ProcessTaskBatch pushes from the main thread while WorkerProc pops
// the same queue from its own: two threads play the owner. These lemmas give
// the exact outcome when any number of operations run one after another inside
// the other thread's window between loading and storing `bottom`. Overlap has
// every interleaving of one push with one pop.
module SharedOwner {
  import opened Options
  import opened DequeHistory
  import opened DequeMachine
  import opened DequeInvariant
  import opened DequeTheorems

  // A queue nobody is operating on, with room for k more entries.
  predicate HasRoom(s: State, k: nat) {
    && |s.sh.tasks| == |s.sh.payloads| > 0
    && s.owner.Idle?
    && 0 <= s.sh.top <= s.sh.bottom <= s.sh.top + s.sh.Size() - k
  }

  predicate AtRest(s: State) { HasRoom(s, 1) }

  // What the queue holds once both threads are done.
  function Contents(s: State): seq<Entry>
    requires s.Valid()
  {
    Window(s.sh, s.sh.top, s.sh.bottom)
  }

  // What the last finished operation returned.
  function Returned(s: State): Option<Outcome> {
    if s.h.Then? && s.h.event.Ret? then Some(s.h.event.out) else None
  }

  // A complete pop by the calling thread.
  function WholePop(s: State): (r: State)
    requires s.Valid()
    ensures r.Valid() && r.sh.Size() == s.sh.Size()
  {
    RunOut(AsWritten, s.(owner := PopBegin))
  }

  // A complete push by the calling thread.
  function WholePush(s: State, e: Entry): (r: State)
    requires s.Valid()
    ensures r.Valid() && r.sh.Size() == s.sh.Size()
  {
    RunOut(AsWritten, s.(owner := PushBegin(e)))
  }

  // Main's push up to, not including, its store of `bottom`.
  function PushToStore(s: State, e: Entry): (r: State)
    requires s.Valid()
    ensures r.Valid() && r.sh.Size() == s.sh.Size()
  {
    var loaded := OwnerStep(AsWritten, OwnerStep(AsWritten, s.(owner := PushBegin(e))));
    OwnerStep(AsWritten, OwnerStep(AsWritten, loaded))
  }

  // An undisturbed pop: what it returns, and the indices and memory it leaves.
  lemma WholePopOutcome(s: State)
    requires s.Valid() && s.sh.top <= s.sh.bottom
    ensures var sh, r := s.sh, WholePop(s);
            && r.owner.Idle? && r.sh.tasks == sh.tasks && r.sh.payloads == sh.payloads
            && (sh.bottom == sh.top ==> Returned(r) == Some(PopEmpty) && r.sh == sh)
            && (sh.bottom == sh.top + 1 ==>
                  Returned(r) == Some(Popped(sh.Slot(sh.top))) && r.sh.top == sh.bottom == r.sh.bottom)
            && (sh.bottom >= sh.top + 2 ==>
                  Returned(r) == Some(Popped(sh.Slot(sh.bottom - 1)))
                  && r.sh.top == sh.top && r.sh.bottom == sh.bottom - 1)
  {
    var s0 := s.(owner := PopBegin);
    var s1 := OwnerStep(AsWritten, s0);
    var s2 := OwnerStep(AsWritten, s1);
    var s3 := OwnerStep(AsWritten, s2);
    Unroll(AsWritten, s0); Unroll(AsWritten, s1); Unroll(AsWritten, s2); Unroll(AsWritten, s3);
    if s.sh.bottom > s.sh.top {
      var s4 := OwnerStep(AsWritten, s3);
      var s5 := OwnerStep(AsWritten, s4);
      var s6 := OwnerStep(AsWritten, s5);
      Unroll(AsWritten, s4); Unroll(AsWritten, s5); Unroll(AsWritten, s6);
    }
  }

  lemma PushToStoreOutcome(s: State, e: Entry)
    requires AtRest(s)
    ensures var sh, r := s.sh, PushToStore(s, e);
            && r.owner == PushStore(e, sh.bottom)
            && r.sh.top == sh.top && r.sh.bottom == sh.bottom
            && r.sh.Slot(sh.bottom) == e
            && Window(r.sh, sh.top, sh.bottom) == Contents(s)
  {
    WriteOutside(s.sh, PushToStore(s, e).sh, s.sh.top, s.sh.bottom, s.sh.bottom);
  }

  // k complete pops in a row, and what each returned.
  function Pops(s: State, k: nat): (State, seq<Option<Outcome>>)
    requires s.Valid()
    ensures Pops(s, k).0.Valid() && Pops(s, k).0.sh.Size() == s.sh.Size() && |Pops(s, k).1| == k
  {
    if k == 0 then (s, [])
    else
      var (m, outs) := Pops(s, k - 1);
      (WholePop(m), outs + [Returned(WholePop(m))])
  }

  // They take the newest entries in turn and then fail; the last entry moves
  // `top` instead of `bottom`.
  lemma {:induction false} PopsOutcome(s: State, k: nat)
    requires s.Valid() && s.sh.top <= s.sh.bottom
    ensures var (r, outs) := Pops(s, k); var sh, q := s.sh, Contents(s);
            && r.sh.tasks == sh.tasks && r.sh.payloads == sh.payloads
            && r.sh.top == (if q != [] && k >= |q| then sh.top + 1 else sh.top)
            && r.sh.bottom == (if q != [] && k >= |q| then sh.top + 1 else if q == [] then sh.bottom else sh.bottom - k)
            && forall j | 0 <= j < k :: outs[j] == Some(if j < |q| then Popped(q[|q| - 1 - j]) else PopEmpty)
  {
    if k == 0 {
    } else {
      PopsOutcome(s, k - 1);
      WholePopOutcome(Pops(s, k - 1).0);
    }
  }

  // k pops run entirely inside a push. They return what they should, but if they
  // leave an entry the push puts all of them back; if they leave none it puts
  // back all but the oldest. So it is harmless only on at most one entry.
  lemma PopsInsidePush(s: State, e: Entry, k: nat)
    requires AtRest(s)
    ensures var q := Contents(s);
            var mid := PushToStore(s, e);
            var (popped, outs) := Pops(mid, k);
            var r := OwnerStep(AsWritten, popped.(owner := mid.owner));
            && (forall j | 0 <= j < k :: outs[j] == Some(if j < |q| then Popped(q[|q| - 1 - j]) else PopEmpty))
            && Contents(r) == (if q != [] && k >= |q| then q[1..] else q) + [e]
  {
    var mid := PushToStore(s, e);
    PushToStoreOutcome(s, e);
    PopsOutcome(mid, k);
    PutBack(s, e, Pops(mid, k).0);
  }

  lemma PutBack(s: State, e: Entry, popped: State)
    requires AtRest(s) && popped.Valid()
    requires var sh := PushToStore(s, e).sh; popped.sh.tasks == sh.tasks && popped.sh.payloads == sh.payloads
    requires popped.sh.top == s.sh.top || (popped.sh.top == s.sh.top + 1 && Contents(s) != [])
    ensures var q, r := Contents(s), OwnerStep(AsWritten, popped.(owner := PushStore(e, s.sh.bottom)));
            Contents(r) == (if popped.sh.top == s.sh.top then q else q[1..]) + [e]
  {
    PushToStoreOutcome(s, e);
    var sh, t, b := PushToStore(s, e).sh, s.sh.top, s.sh.bottom;
    var r := OwnerStep(AsWritten, popped.(owner := PushStore(e, b)));
    WindowFrame(sh, r.sh, popped.sh.top, b + 1);
    WindowSnoc(sh, popped.sh.top, b);
    if popped.sh.top == t + 1 { WindowTail(sh, t, b); }
  }

  lemma WholePushOutcome(s: State, e: Entry)
    requires AtRest(s)
    ensures var r := WholePush(s, e);
            && Returned(r) == Some(Pushed(e))
            && r.sh.top == s.sh.top && r.sh.bottom == s.sh.bottom + 1
            && Window(r.sh, s.sh.top, s.sh.bottom) == Contents(s)
  {
    PushToStoreOutcome(s, e);
    var stored := PushToStore(s, e);
    var s0 := s.(owner := PushBegin(e));
    Unroll(AsWritten, s0); Unroll(AsWritten, OwnerStep(AsWritten, s0));
    var s2 := OwnerStep(AsWritten, OwnerStep(AsWritten, s0));
    Unroll(AsWritten, s2); Unroll(AsWritten, OwnerStep(AsWritten, s2)); Unroll(AsWritten, stored);
    WindowFrame(stored.sh, WholePush(s, e).sh, s.sh.top, s.sh.bottom);
  }

  // A pop that loaded `bottom` before somebody raised it continues as if the
  // store had never happened.
  lemma ResumedPop(s: State, b: int)
    requires s.Valid()
    ensures RunOut(AsWritten, s.(owner := PopLower(b))) == WholePop(s.(sh := s.sh.(bottom := b + 1)))
  {
    var s0 := s.(sh := s.sh.(bottom := b + 1), owner := PopBegin);
    Unroll(AsWritten, s0);
    Unroll(AsWritten, OwnerStep(AsWritten, s0));
    Unroll(AsWritten, s.(owner := PopLower(b)));
  }

  // The pop after its first access, the load of `bottom`.
  function PopLoaded(s: State): (pc: Owner)
    requires s.Valid()
    ensures pc == PopLower(s.sh.bottom - 1)
  {
    OwnerStep(AsWritten, s.(owner := PopBegin)).owner
  }

  // Complete pushes in a row.
  function Pushes(s: State, es: seq<Entry>): (r: State)
    requires s.Valid()
    ensures r.Valid() && r.sh.Size() == s.sh.Size()
  {
    if es == [] then s else WholePush(Pushes(s, es[..|es| - 1]), es[|es| - 1])
  }

  lemma WindowPrefix(sh: Shared, sh': Shared, lo: int, mid: int, hi: int)
    requires sh.Valid() && sh'.Valid() && lo <= mid <= hi && Window(sh, lo, hi) == Window(sh', lo, hi)
    ensures Window(sh, lo, mid) == Window(sh', lo, mid)
  {
    assert Window(sh, lo, hi)[..mid - lo] == Window(sh, lo, mid);
    assert Window(sh', lo, hi)[..mid - lo] == Window(sh', lo, mid);
  }

  lemma {:induction false} PushesOutcome(s: State, es: seq<Entry>)
    requires HasRoom(s, |es|)
    ensures var r := Pushes(s, es);
            && r.owner.Idle?
            && r.sh.top == s.sh.top && r.sh.bottom == s.sh.bottom + |es|
            && Window(r.sh, s.sh.top, s.sh.bottom) == Contents(s)
            && (es != [] ==> Returned(r) == Some(Pushed(es[|es| - 1])))
  {
    if es == [] {
    } else {
      var m, e := Pushes(s, es[..|es| - 1]), es[|es| - 1];
      PushesOutcome(s, es[..|es| - 1]);
      WholePushOutcome(m, e);
      WindowPrefix(WholePush(m, e).sh, m.sh, s.sh.top, s.sh.bottom, m.sh.bottom);
    }
  }

  lemma UndoneContents(s: State, es: seq<Entry>)
    requires HasRoom(s, |es|)
    ensures var undone := Pushes(s, es).(sh := Pushes(s, es).sh.(bottom := s.sh.bottom));
            undone.sh.top == s.sh.top && Contents(undone) == Contents(s)
  {
    PushesOutcome(s, es);
    var pushed := Pushes(s, es);
    WindowFrame(pushed.sh, pushed.sh.(bottom := s.sh.bottom), s.sh.top, s.sh.bottom);
  }

  lemma RightEnd(sh: Shared, sh': Shared)
    requires sh.Valid() && sh'.Valid() && sh.tasks == sh'.tasks && sh.payloads == sh'.payloads
    requires sh.top < sh.bottom
    requires (sh'.top == sh.top && sh'.bottom == sh.bottom - 1) || (sh.bottom == sh.top + 1 && sh'.top == sh'.bottom)
    ensures var q := Window(sh, sh.top, sh.bottom);
            Window(sh', sh'.top, sh'.bottom) == q[..|q| - 1] && q[|q| - 1] == sh.Slot(sh.bottom - 1)
  {
    WindowFrame(sh, sh', sh'.top, sh'.bottom);
    WindowSnoc(sh, sh.top, sh.bottom - 1);
  }

  lemma PoppedContents(s: State)
    requires s.Valid() && s.sh.top <= s.sh.bottom
    ensures var q, r := Contents(s), WholePop(s);
            && (q == [] ==> Returned(r) == Some(PopEmpty) && Contents(r) == [])
            && (q != [] ==> Returned(r) == Some(Popped(q[|q| - 1])) && Contents(r) == q[..|q| - 1])
  {
    WholePopOutcome(s);
    if Contents(s) != [] {
      RightEnd(s.sh, WholePop(s).sh);
    }
  }

  // Pushes that run entirely between a pop's load and its store of `bottom`. All
  // are lost, however many there were and whatever the queue held.
  lemma PushesInsidePop(s: State, es: seq<Entry>)
    requires HasRoom(s, |es|)
    ensures var q := Contents(s);
            var r := RunOut(AsWritten, Pushes(s, es).(owner := PopLoaded(s)));
            && (q == [] ==> Returned(r) == Some(PopEmpty) && Contents(r) == [])
            && (q != [] ==> Returned(r) == Some(Popped(q[|q| - 1])) && Contents(r) == q[..|q| - 1])
  {
    var pushed := Pushes(s, es);
    UndoneContents(s, es);
    ResumedPop(pushed, s.sh.bottom - 1);
    PoppedContents(pushed.(sh := pushed.sh.(bottom := s.sh.bottom)));
  }
}
