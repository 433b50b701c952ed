// The master slab: where ThreadContext_Initialize puts the context array, the
// arenas and the queues, and what that means for blocks and for Free.
module Layout {
  import opened Bits
  import opened MemoryMap
  import opened Arenas

  // contextSize is THREAD_EXECUTION_CONTEXT_SIZE.
  datatype Slab = Slab(base: nat, threads: nat, page: nat, contextSize: nat) {
    ghost predicate Valid() {
      && threads >= 1
      && IsPow2(page) && page <= 0x8000_0000
      && base < 0x1000_0000_0000_0000
      && threads < 0x400_0000          // the reservation fits the address space
      && contextSize * threads < 0x1000_0000_0000_0000
    }

    function ContextBytes(): nat
      requires 0 < page <= WORD
    {
      AlignUp(contextSize * threads, page)
    }

    // The runway cursor on reaching thread i.
    function ThreadBase(i: nat): nat
      requires 0 < page <= WORD
    {
      base + ContextBytes() + i * SPACE_LENGTH
    }

    // g_MasterSlabEnd
    function End(): nat
      requires 0 < page <= WORD
    {
      base + (SPACE_LENGTH * threads + ContextBytes())
    }
  }

  // The payload half of a queue is placed `size` bytes into its zone as
  // written, `size` elements into it as repaired.
  datatype QueueLayout = ByteOffset | ElementOffset

  datatype Zone =
    | Context(i: nat)      // one thread's context record
    | Transient(i: nat)
    | Persistent
    | Tasks(i: nat)
    | Payloads(i: nat)

  datatype Region = Region(start: nat, size: nat) {
    function Limit(): nat { start + size }
  }

  predicate Apart(x: Region, y: Region) {
    x.Limit() <= y.start || y.Limit() <= x.start
  }

  predicate Exists(s: Slab, z: Zone) {
    match z
    case Context(i) => i < s.threads
    case Transient(i) => i < s.threads
    case Persistent => s.threads >= 1
    case Tasks(i) => 1 <= i < s.threads
    case Payloads(i) => 1 <= i < s.threads
  }

  function QueueEntries(memSize: nat): nat { memSize / (2 * WORD_SIZE) }

  function PayloadOffset(l: QueueLayout, memSize: nat): nat {
    match l
    case ByteOffset => QueueEntries(memSize)
    case ElementOffset => QueueEntries(memSize) * WORD_SIZE
  }

  function RegionOf(l: QueueLayout, s: Slab, z: Zone): Region
    requires 0 < s.page <= WORD
  {
    match z
    case Context(i) => Region(s.base + i * s.contextSize, s.contextSize)
    case Transient(i) => Region(s.ThreadBase(i) + TA_OFFSET, TA_SIZE)
    case Persistent => Region(s.ThreadBase(0) + PS_OFFSET, PS_SIZE)
    case Tasks(i) => Region(s.ThreadBase(i) + QUEUE_OFFSET, QueueEntries(QUEUE_SIZE) * WORD_SIZE)
    case Payloads(i) =>
      Region(s.ThreadBase(i) + QUEUE_OFFSET + PayloadOffset(l, QUEUE_SIZE), QueueEntries(QUEUE_SIZE) * WORD_SIZE)
  }

  // --------------------------------------------------------------- the zones

  lemma ContextBytesFit(s: Slab)
    requires s.Valid()
    ensures 0 < s.page <= WORD && s.contextSize * s.threads <= s.ContextBytes() < s.contextSize * s.threads + s.page
  {
    var k :| s.page == Pow2(k);
    ExponentBound(k);
    AlignUpSpec(s.contextSize * s.threads, s.page, k);
  }

  lemma Stacked(i: nat, j: nat, size: nat)
    requires i < j
    ensures i * size + size <= j * size
  {
    assert j * size == (j - i) * size + i * size;
    MulAtLeast(size, j - i);
    assert size * (j - i) == (j - i) * size;
  }

  // The thread whose 32 GB hold the zone.
  function Home(z: Zone): nat
    requires !z.Context?
  {
    if z.Persistent? then 0 else z.i
  }

  lemma ZoneInHome(l: QueueLayout, s: Slab, z: Zone)
    requires s.Valid() && Exists(s, z) && !z.Context?
    ensures 0 < s.page <= WORD
    ensures var r := RegionOf(l, s, z);
            s.base <= s.ThreadBase(Home(z)) <= r.start && r.Limit() <= s.ThreadBase(Home(z)) + SPACE_LENGTH <= s.End()
  {
    ContextBytesFit(s);
    Stacked(Home(z), s.threads, SPACE_LENGTH);
  }

  lemma RecordInArray(i: nat, n: nat, size: nat)
    requires i < n
    ensures 0 <= i * size && i * size + size <= size * n
  {
    Stacked(i, n, size);
    assert n * size == size * n;
  }

  lemma ContextInSlab(s: Slab, i: nat)
    requires s.Valid() && i < s.threads
    ensures 0 < s.page <= WORD
    ensures var r := Region(s.base + i * s.contextSize, s.contextSize);
            s.base <= r.start && r.Limit() <= s.base + s.ContextBytes() <= s.End()
  {
    ContextBytesFit(s);
    RecordInArray(i, s.threads, s.contextSize);
    EndBehindContexts(s);
  }

  lemma EndBehindContexts(s: Slab)
    requires 0 < s.page <= WORD
    ensures s.base + s.ContextBytes() <= s.End()
  {
  }

  // Every zone lies in the slab.
  lemma ZoneInSlab(l: QueueLayout, s: Slab, z: Zone)
    requires s.Valid() && Exists(s, z)
    ensures 0 < s.page <= WORD
    ensures s.base <= RegionOf(l, s, z).start && RegionOf(l, s, z).Limit() <= s.End()
  {
    match z
    case Context(i) =>
      ContextInSlab(s, i);
      assert RegionOf(l, s, z) == Region(s.base + i * s.contextSize, s.contextSize);
    case _ =>
      ZoneInHome(l, s, z);
  }

  // The slices of the threads, one behind the other, end where the slab ends.
  lemma RunwayFillsSlab(s: Slab)
    requires s.Valid()
    ensures 0 < s.page <= WORD && s.ThreadBase(s.threads) == s.End()
    ensures forall i: nat :: s.ThreadBase(i + 1) == s.ThreadBase(i) + SPACE_LENGTH
  {
    ContextBytesFit(s);
  }

  // With the repaired queue layout any two zones of the slab are disjoint, for
  // every thread count and page size.
  lemma ZonesApart(s: Slab, x: Zone, y: Zone)
    requires s.Valid() && Exists(s, x) && Exists(s, y) && x != y
    ensures 0 < s.page <= WORD && Apart(RegionOf(ElementOffset, s, x), RegionOf(ElementOffset, s, y))
  {
    ContextBytesFit(s);
    if x.Context? && y.Context? {
      if x.i < y.i { Stacked(x.i, y.i, s.contextSize); } else { Stacked(y.i, x.i, s.contextSize); }
    } else if x.Context? {
      ContextBeforeThreads(s, x, y);
    } else if y.Context? {
      ContextBeforeThreads(s, y, x);
    } else {
      ZoneInHome(ElementOffset, s, x);
      ZoneInHome(ElementOffset, s, y);
      if Home(x) < Home(y) { Stacked(Home(x), Home(y), SPACE_LENGTH); }
      if Home(y) < Home(x) { Stacked(Home(y), Home(x), SPACE_LENGTH); }
    }
  }

  lemma ContextBeforeThreads(s: Slab, x: Zone, y: Zone)
    requires s.Valid() && Exists(s, x) && Exists(s, y) && x.Context? && !y.Context?
    ensures 0 < s.page <= WORD && Apart(RegionOf(ElementOffset, s, x), RegionOf(ElementOffset, s, y))
  {
    ContextBytesFit(s);
    Stacked(x.i, s.threads, s.contextSize);
    ZoneInHome(ElementOffset, s, y);
  }

  // The repaired halves fill the queue's zone exactly.
  lemma HalvesFillQueueZone(s: Slab, i: nat)
    requires s.Valid() && 1 <= i < s.threads
    ensures 0 < s.page <= WORD
    ensures var t, p := RegionOf(ElementOffset, s, Tasks(i)), RegionOf(ElementOffset, s, Payloads(i));
            t.start == s.ThreadBase(i) + QUEUE_OFFSET && t.Limit() == p.start && p.Limit() == t.start + QUEUE_SIZE
  {
    ContextBytesFit(s);
  }

  // ------------------------------------------------ the payload offset as written

  // The halves are disjoint only if the queue has no entries at all.
  lemma WrittenHalvesApartIff(start: nat, memSize: nat)
    ensures var n := QueueEntries(memSize);
            Apart(Region(start, n * WORD_SIZE), Region(start + PayloadOffset(ByteOffset, memSize), n * WORD_SIZE))
            <==> n == 0
  {
  }

  // Queue memory as words: tasks from 0, payloads from word d.
  function PushWords(mem: seq<int>, d: nat, ix: nat, task: int, payload: int): (r: seq<int>)
    requires ix < |mem| && d + ix < |mem|
    ensures |r| == |mem|
  {
    mem[ix := task][d + ix := payload]
  }

  predicate EntryKept(mem: seq<int>, mem': seq<int>, d: nat, j: nat)
    requires |mem| == |mem'| && d + j < |mem|
  {
    mem[j] == mem'[j] && mem[d + j] == mem'[d + j]
  }

  ghost predicate AlwaysKept(n: nat, d: nat, ix: nat, j: nat)
    requires ix < n && j < n
  {
    forall mem: seq<int>, task, payload | |mem| == d + n ::
      EntryKept(mem, PushWords(mem, d, ix, task, payload), d, j)
  }

  function Zeros(n: nat): (z: seq<int>)
    ensures |z| == n && forall i | 0 <= i < n :: z[i] == 0
  {
    seq(n, i => 0)
  }

  // Storing slot ix leaves entry j alone, whatever is stored, exactly when the
  // two are not d slots apart: the payload of one is then the task of the other.
  lemma PushKeepsEntryIff(n: nat, d: nat, ix: nat, j: nat)
    requires 0 < d && ix < n && j < n && j != ix
    ensures AlwaysKept(n, d, ix, j) <==> j != ix + d && ix != j + d
  {
    var mem := Zeros(d + n);
    if AlwaysKept(n, d, ix, j) {
      assert EntryKept(mem, PushWords(mem, d, ix, 1, 1), d, j);
    }
  }

  lemma RingDistance(i: nat, b: nat, n: nat)
    requires 0 < b - i < n
    ensures b % n == i % n + (b - i) || b % n == i % n + (b - i) - n
  {
    var q, r := i / n, i % n;
    assert i == n * q + r;
    if r + (b - i) < n {
      DivModUnique(b, n, q, r + (b - i));
    } else {
      assert n * (q + 1) == n * q + n;
      DivModUnique(b, n, q + 1, r + (b - i) - n);
    }
  }

  // All live entries, with indices from t to b - 1, survive the push at b.
  ghost predicate KeepsLive(n: nat, d: nat, t: nat, b: nat)
    requires n > 0
  {
    forall i | t <= i < b :: AlwaysKept(n, d, b % n, i % n)
  }

  // Neither the slot d before the written one nor the slot d behind it is live,
  // unless the ring ends in between.
  predicate HitsNeither(n: nat, d: nat, t: nat, b: nat)
    requires n > 0
  {
    && (b - t < d || b % n < d)
    && (b - t < n - d || b % n + d >= n)
  }

  lemma LiveEntryKeptIff(n: nat, d: nat, t: nat, b: nat, i: nat)
    requires 0 < d <= n && t <= i < b && b - t < n
    ensures AlwaysKept(n, d, b % n, i % n) <==> !(b - i == d && b % n >= d) && !(b - i == n - d && b % n + d < n)
  {
    RingDistance(i, b, n);
    PushKeepsEntryIff(n, d, b % n, i % n);
  }

  // Exactly then: the new task would land in the payload of the first, the new
  // payload in the task of the second.
  lemma KeepsLiveIff(n: nat, d: nat, t: nat, b: nat)
    requires 0 < d <= n && t <= b && b - t < n
    ensures KeepsLive(n, d, t, b) <==> HitsNeither(n, d, t, b)
  {
    forall i | t <= i < b
      ensures HitsNeither(n, d, t, b) ==> AlwaysKept(n, d, b % n, i % n)
    {
      LiveEntryKeptIff(n, d, t, b, i);
    }
    if b - t >= d && b % n >= d { LiveEntryKeptIff(n, d, t, b, b - d); }
    if d < n && b - t >= n - d && b % n + d < n { LiveEntryKeptIff(n, d, t, b, b - (n - d)); }
  }

  // With d = n no stored entry is ever hit. As written d = n / 8, so entries
  // stay intact as long as fewer than n / 8 are live.
  lemma LiveEntriesKept(n: nat, d: nat, t: nat, b: nat, i: nat)
    requires 0 < d <= n && t <= i < b
    requires (d == n && b - t < n) || (2 * d <= n && b - t < d)
    ensures AlwaysKept(n, d, b % n, i % n)
  {
    KeepsLiveIff(n, d, t, b);
  }

  // ------------------------------------------------------- blocks and Free

  predicate HasArena(z: Zone) { z.Transient? || z.Persistent? }

  // An arena as InitializeArena leaves it over its zone.
  function ArenaAt(s: Slab, z: Zone): Arena
    requires 0 < s.page <= WORD && HasArena(z)
  {
    var r, baseline := RegionOf(ElementOffset, s, z), if z.Persistent? then PS_BASELINE else TA_BASELINE;
    Arena(r.start, baseline, 0, r.size, PagesOf(r.start, baseline, s.page), s.page)
  }

  lemma ArenaAtWithin(s: Slab, z: Zone)
    requires s.Valid() && Exists(s, z) && HasArena(z)
    ensures 0 < s.page <= WORD && Within(ArenaAt(s, z))
  {
    ContextBytesFit(s);
    ZoneInSlab(ElementOffset, s, z);
    assert SPACE_LENGTH * s.threads <= SPACE_LENGTH * 0x400_0000;
  }

  lemma ArenaStartsSecured(s: Slab, z: Zone)
    requires s.Valid() && Exists(s, z) && HasArena(z)
    ensures 0 < s.page <= WORD && Secured(ArenaAt(s, z))
  {
    ArenaAtWithin(s, z);
    var a := ArenaAt(s, z);
    PagesCover(a.backing, a.capacity, a.page);
  }

  // A fresh arena starts in whole pages exactly if a page is no larger than the
  // baseline.
  lemma ArenaStartsBackedIff(s: Slab, z: Zone)
    requires s.Valid() && Exists(s, z) && HasArena(z)
    ensures 0 < s.page <= WORD && (Backed(ArenaAt(s, z)) <==> s.page <= TA_BASELINE)
  {
    ArenaStartsSecured(s, z);
    var k :| s.page == Pow2(k);
    ZonePowers();
    if k <= 26 {
      Pow2Monotone(k, 26);
      PowerDivides(26, k); PowerDivides(30, k); PowerDivides(31, k);
    } else {
      Pow2Monotone(27, k);
      assert Pow2(27) == 2 * Pow2(26);
      DivModUnique(TA_BASELINE, s.page, 0, TA_BASELINE);
    }
  }

  lemma ZonePowers()
    ensures TA_BASELINE == PS_BASELINE == Pow2(26) && TA_SIZE == Pow2(30) && PS_SIZE == Pow2(31)
  {
    Pow2Values();
    Pow2Add(10, 16); Pow2Add(14, 16); Pow2Add(4, 6); Pow2Add(10, 4);
  }

  lemma PowerDivides(j: nat, k: nat)
    requires k <= j
    ensures Pow2(j) % Pow2(k) == 0
  {
    Pow2Add(k, j - k);
    DivModUnique(Pow2(j), Pow2(k), Pow2(j - k), 0);
  }

  // IsCustomAllocated: the range test, closed at both ends.
  predicate IsCustomAllocated(s: Slab, p: nat)
    requires 0 < s.page <= WORD
  {
    s.base <= p <= s.End()
  }

  // Free hands the pointer to the C heap.
  predicate Frees(s: Slab, p: nat)
    requires 0 < s.page <= WORD
  {
    !IsCustomAllocated(s, p)
  }

  // A pointer outside the slab is freed exactly unless it is the first address
  // behind it: the closed upper bound keeps that one from the C heap.
  lemma ForeignPointerIsFreedIff(s: Slab, p: nat)
    requires s.Valid() && 0 < s.page <= WORD
    requires p < s.base || s.End() <= p
    ensures Frees(s, p) <==> p != s.End()
  {
  }
}
