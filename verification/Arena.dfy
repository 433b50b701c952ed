// ThreadArena: a bump allocator over a reserved zone whose pages are committed
// on demand.
module Arenas {
  import opened Bits
  import opened MemoryMap

  // How the slow path grows. As written it compares and sizes the deficit
  // without `offset`, is not clamped to the zone, and treats success of both
  // system calls as failure. Repaired differs in exactly those lines.
  datatype Growth = AsWritten | Repaired

  // A request, with what the operating system will answer if asked.
  datatype Request = Request(size: nat, alignment: nat, commits: bool, locks: bool)

  datatype Outcome =
    | Block(addr: nat)
    | Null
    | Overflown        // the assertion on the zone's end

  // `committed` holds the addresses of all bytes that really are committed.
  datatype Arena = Arena(
    backing: nat, capacity: int, offset: nat, maxCapacity: nat, committed: set<int>, page: nat)

  // Sizes far from the end of the 64-bit address space; powers of two where
  // the ALIGN macro needs them.
  const HUGE: nat := 0x4000_0000_0000_0000

  ghost predicate Sized(a: Arena) {
    && a.backing + a.maxCapacity < HUGE
    && 0 <= a.capacity
    && IsPow2(a.page) && a.page <= HUGE
  }

  ghost predicate Sane(r: Request) {
    r.size < HUGE && IsPow2(r.alignment) && r.alignment <= HUGE
  }

  function Cursor(a: Arena): nat { a.backing + a.offset }

  function Padding(a: Arena, r: Request): int
    requires 0 < r.alignment <= WORD
  {
    AlignUp(Cursor(a), r.alignment) - Cursor(a)
  }

  function Total(a: Arena, r: Request): int
    requires 0 < r.alignment <= WORD
  {
    Padding(a, r) + r.size
  }

  // Bytes missing from the committed capacity, as the slow path sees them.
  function Deficit(g: Growth, a: Arena, r: Request): int
    requires 0 < r.alignment <= WORD
  {
    match g
    case AsWritten => Total(a, r) - a.capacity
    case Repaired => a.offset + Total(a, r) - a.capacity
  }

  function Extension(g: Growth, a: Arena, deficit: nat): int
    requires 0 < a.page <= WORD
  {
    var twice := AlignUp(deficit, a.page) * 2;
    match g
    case AsWritten => twice
    case Repaired => if a.capacity + twice > a.maxCapacity then a.maxCapacity - a.capacity else twice
  }

  predicate Refused(g: Growth, r: Request) {
    match g
    case AsWritten => r.commits && r.locks
    case Repaired => !(r.commits && r.locks)
  }

  function PageStart(x: int, page: nat): int
    requires page > 0
  {
    x - x % page
  }

  function Addresses(lo: int, hi: int): (s: set<int>)
    ensures forall x :: x in s <==> lo <= x < hi
    decreases hi - lo
  {
    if hi <= lo then {} else Addresses(lo, hi - 1) + {hi - 1}
  }

  // The operating system commits every page that holds one of the bytes.
  function PagesOf(start: int, size: int, page: nat): set<int>
    requires page > 0
  {
    Addresses(PageStart(start, page), PageStart(start + size + page - 1, page))
  }

  lemma PagesCover(start: int, size: int, page: nat)
    requires page > 0
    ensures forall x | start <= x < start + size :: x in PagesOf(start, size, page)
  {
  }

  predicate SamePage(x: int, y: int, page: nat)
    requires page > 0
  {
    x / page == y / page
  }

  lemma PageStartOf(x: int, page: nat)
    requires page > 0
    ensures PageStart(x, page) == page * (x / page)
    ensures PageStart(x, page) <= x < PageStart(x, page) + page
  {
  }

  lemma SamePageBetween(x: int, lo: int, hi: int, page: nat)
    requires page > 0 && lo <= hi && PageStart(lo, page) <= x < PageStart(hi + page, page)
    ensures exists y | lo <= y <= hi :: SamePage(x, y, page)
  {
    var q := lo / page;
    PageStartOf(x, page);
    PageStartOf(lo, page);
    PageStartOf(hi + page, page);
    if x < lo {
      QuotientOf(x, page, q);
      assert SamePage(x, lo, page);
    } else if x > hi {
      AfterLast(x, hi, page);
      assert SamePage(x, hi, page);
    } else {
      assert SamePage(x, x, page);
    }
  }

  lemma QuotientOf(x: int, page: nat, q: int)
    requires page > 0 && page * q <= x < page * q + page
    ensures x / page == q
  {
    DivModUnique(x, page, q, x - page * q);
  }

  lemma AfterLast(x: int, hi: int, page: nat)
    requires page > 0 && hi < x < PageStart(hi + page, page)
    ensures x / page == hi / page
  {
    var q := hi / page;
    PageStartOf(hi, page);
    assert page * (q + 1) == page * q + page;
    QuotientOf(hi + page, page, q + 1);
    PageStartOf(hi + page, page);
    QuotientOf(x, page, q);
  }

  // What is committed is exactly the pages that hold one of the bytes.
  lemma PagesAreWhole(start: int, size: nat, page: nat)
    requires page > 0 && size > 0
    ensures forall x ::
              x in PagesOf(start, size, page) <==> exists y | start <= y < start + size :: SamePage(x, y, page)
  {
    forall x
      ensures x in PagesOf(start, size, page) <==> exists y | start <= y < start + size :: SamePage(x, y, page)
    {
      if x in PagesOf(start, size, page) {
        SamePageBetween(x, start, start + size - 1, page);
      } else if y :| start <= y < start + size && SamePage(x, y, page) {
        PagesCoverPage(x, y, start, size, page);
      }
    }
  }

  lemma PagesCoverPage(x: int, y: int, start: int, size: nat, page: nat)
    requires page > 0 && start <= y < start + size && SamePage(x, y, page)
    ensures x in PagesOf(start, size, page)
  {
    var hi, q := start + size - 1, y / page;
    PageStartOf(start, page);
    PageStartOf(x, page);
    PageStartOf(y, page);
    PageStartOf(hi + page, page);
    PageStartOf(hi, page);
    QuotientMonotone(start, y, page);
    QuotientMonotone(y, hi, page);
    assert page * (hi / page + 1) == page * (hi / page) + page;
    QuotientOf(hi + page, page, hi / page + 1);
  }

  lemma QuotientMonotone(x: int, y: int, page: nat)
    requires page > 0 && x <= y
    ensures x / page <= y / page && page * (x / page) <= page * (y / page)
  {
    var p, q := x / page, y / page;
    PageStartOf(x, page);
    PageStartOf(y, page);
    if p > q {
      assert page * p == page * q + page * (p - q);
      MulAtLeast(page, p - q);
      assert false;
    }
    assert page * q == page * p + page * (q - p);
    assert page * (q - p) >= 0;
  }

  function CommittedAfter(a: Arena, r: Request, space: int): set<int>
    requires a.page > 0
  {
    if r.commits then a.committed + PagesOf(a.backing + a.capacity, space, a.page) else a.committed
  }

  lemma PaddingFits(a: Arena, r: Request)
    requires Sized(a) && Sane(r) && a.offset <= a.maxCapacity
    ensures 0 < r.alignment <= WORD
    ensures 0 <= Padding(a, r) < r.alignment
    ensures (Cursor(a) + Padding(a, r)) % r.alignment == 0
  {
    var k :| r.alignment == Pow2(k);
    ExponentBound(k);
    AlignUpSpec(Cursor(a), r.alignment, k);
  }

  lemma ExponentBound(k: nat)
    requires Pow2(k) <= HUGE
    ensures k <= 64
  {
    if k > 64 {
      Pow2Values();
      Pow2Monotone(64, k);
    }
  }

  lemma ExtensionCovers(g: Growth, a: Arena, deficit: nat)
    requires Sized(a) && deficit < HUGE + HUGE
    ensures 0 < a.page <= WORD
    ensures AlignUp(deficit, a.page) >= deficit && AlignUp(deficit, a.page) % a.page == 0
  {
    var k :| a.page == Pow2(k);
    ExponentBound(k);
    AlignUpSpec(deficit, a.page, k);
  }

  lemma PageFits(a: Arena)
    requires Sized(a)
    ensures 0 < a.page <= WORD
  {
  }

  // The bookkeeping every call keeps, under either growth rule.
  ghost predicate Within(a: Arena) {
    Sized(a) && a.offset <= a.maxCapacity
  }

  ghost predicate Callable(a: Arena, r: Request) {
    Within(a) && Sane(r)
  }

  // One call of ThreadArena_Allocate.
  function Allocated(g: Growth, a: Arena, r: Request): (res: (Arena, Outcome))
    requires Callable(a, r)
  {
    PaddingFits(a, r);
    var total := Total(a, r);
    if a.offset + total > a.maxCapacity then (a, Overflown)
    else if Deficit(g, a, r) > 0 then
      ExtensionCovers(g, a, Deficit(g, a, r));
      var space := Extension(g, a, Deficit(g, a, r));
      var b := a.(committed := CommittedAfter(a, r, space));
      if Refused(g, r) then (b, Null)
      else (b.(capacity := a.capacity + space, offset := a.offset + total), Block(Cursor(a) + Padding(a, r)))
    else (a.(offset := a.offset + total), Block(Cursor(a) + Padding(a, r)))
  }

  // ------------------------------------------------------------ single calls

  // A block starts aligned at or after the old cursor and ends at the new one.
  lemma BlockPlacement(g: Growth, a: Arena, r: Request)
    requires Callable(a, r) && Allocated(g, a, r).1.Block?
    ensures var (b, out) := Allocated(g, a, r);
            && out.addr % r.alignment == 0
            && Cursor(a) <= out.addr < Cursor(a) + r.alignment
            && out.addr + r.size == Cursor(b) <= b.backing + b.maxCapacity
            && b.backing == a.backing && b.maxCapacity == a.maxCapacity && b.page == a.page
  {
    PaddingFits(a, r);
  }

  // Without a block nothing is handed out and the bookkeeping stays put.
  lemma RefusalKeepsState(g: Growth, a: Arena, r: Request)
    requires Callable(a, r) && !Allocated(g, a, r).1.Block?
    ensures var b := Allocated(g, a, r).0;
            b.offset == a.offset && b.capacity == a.capacity && b == a.(committed := b.committed)
  {
  }

  // Which requests are served: those that fit the zone and need no growth, or
  // for which the slow path goes on. As written it goes on when a system call
  // fails, and looks at the request's size alone; repaired, when both succeed.
  predicate Served(g: Growth, a: Arena, r: Request)
    requires 0 < r.alignment <= WORD
  {
    && a.offset + Total(a, r) <= a.maxCapacity
    && match g
       case AsWritten => Total(a, r) <= a.capacity || !(r.commits && r.locks)
       case Repaired => a.offset + Total(a, r) <= a.capacity || (r.commits && r.locks)
  }

  lemma BlockIffServed(g: Growth, a: Arena, r: Request)
    requires Callable(a, r)
    ensures 0 < r.alignment <= WORD
    ensures Allocated(g, a, r).1.Block? <==> Served(g, a, r)
    ensures Allocated(g, a, r).1.Overflown? <==> a.offset + Total(a, r) > a.maxCapacity
  {
    PaddingFits(a, r);
  }

  // Without growth a block leaves capacity and commitments alone, whatever the
  // system would answer; a request past the zone leaves everything alone.
  lemma FastPath(g: Growth, a: Arena, r: Request)
    requires Callable(a, r)
    ensures 0 < r.alignment <= WORD
    ensures var (b, total) := (Allocated(g, a, r).0, Total(a, r));
            && (a.offset + total > a.maxCapacity ==> b == a)
            && (a.offset + total <= a.maxCapacity && (if g == AsWritten then total else a.offset + total) <= a.capacity
                ==> b.offset == a.offset + total && b.capacity == a.capacity && b.committed == a.committed)
  {
    PaddingFits(a, r);
  }

  // Growth as written: twice the missing bytes in whole pages, from the old
  // capacity on. The pages are committed even if the call then returns null.
  lemma WrittenSlowPath(a: Arena, r: Request)
    requires Callable(a, r)
    ensures 0 < r.alignment <= WORD && 0 < a.page <= WORD
    ensures var (b, out) := Allocated(AsWritten, a, r); var total := Total(a, r);
            a.offset + total <= a.maxCapacity && total > a.capacity ==>
              var space := 2 * AlignUp(total - a.capacity, a.page);
              && out == (if r.commits && r.locks then Null else Block(AlignUp(Cursor(a), r.alignment)))
              && b.capacity == (if r.commits && r.locks then a.capacity else a.capacity + space)
              && b.offset == (if r.commits && r.locks then a.offset else a.offset + total)
              && b.committed == (if r.commits then a.committed + PagesOf(a.backing + a.capacity, space, a.page)
                                 else a.committed)
  {
    PaddingFits(a, r);
    ExtensionCovers(AsWritten, a, if Total(a, r) > a.capacity then Total(a, r) - a.capacity else 0);
  }

  function Smaller(x: int, y: int): int { if x <= y then x else y }

  lemma RepairedSpace(a: Arena, d: nat)
    requires 0 < a.page <= WORD
    ensures Extension(Repaired, a, d) == Smaller(2 * AlignUp(d, a.page), a.maxCapacity - a.capacity)
  {
  }

  // Repaired: the same stretch, but measured behind the offset and cut at the
  // end of the zone, and kept only if both system calls succeed.
  lemma RepairedSlowPath(a: Arena, r: Request)
    requires Callable(a, r)
    ensures 0 < r.alignment <= WORD && 0 < a.page <= WORD
    ensures var (b, out) := Allocated(Repaired, a, r); var end := a.offset + Total(a, r);
            a.capacity < end <= a.maxCapacity ==>
              var space := Smaller(2 * AlignUp(end - a.capacity, a.page), a.maxCapacity - a.capacity);
              && out == (if r.commits && r.locks then Block(AlignUp(Cursor(a), r.alignment)) else Null)
              && b.capacity == (if r.commits && r.locks then a.capacity + space else a.capacity)
              && b.offset == (if r.commits && r.locks then end else a.offset)
              && b.committed == (if r.commits then a.committed + PagesOf(a.backing + a.capacity, space, a.page)
                                 else a.committed)
  {
    PaddingFits(a, r);
    PageFits(a);
    var d := Deficit(Repaired, a, r);
    if d > 0 { RepairedSpace(a, d); }
  }

  // The commit invariant: everything handed out lies in the capacity, the
  // capacity is really committed and never leaves the zone.
  ghost predicate Secured(a: Arena) {
    && Sized(a)
    && a.offset <= a.capacity <= a.maxCapacity
    && forall x | a.backing <= x < a.backing + a.capacity :: x in a.committed
  }

  // The same in whole pages.
  ghost predicate Backed(a: Arena) {
    Secured(a) && a.capacity % a.page == 0 && a.maxCapacity % a.page == 0
  }

  lemma MultiplesAdd(x: int, y: int, p: nat)
    requires p > 0 && x % p == 0 && y % p == 0
    ensures (x + y) % p == 0 && (x - y) % p == 0
  {
    var i, j := x / p, y / p;
    assert x == p * i && y == p * j;
    assert x + y == p * (i + j) && x - y == p * (i - j);
    DivModUnique(x + y, p, i + j, 0);
    DivModUnique(x - y, p, i - j, 0);
  }

  // The repaired slow path: whole pages, at least the deficit, inside the zone.
  lemma RepairedExtension(a: Arena, deficit: nat)
    requires Backed(a) && 0 < deficit <= a.maxCapacity - a.capacity
    ensures 0 < a.page <= WORD
    ensures var space := Extension(Repaired, a, deficit);
            space >= deficit && a.capacity + space <= a.maxCapacity && space % a.page == 0
  {
    ExtensionCovers(Repaired, a, deficit);
    var up := AlignUp(deficit, a.page);
    MultiplesAdd(up, up, a.page);
    MultiplesAdd(a.maxCapacity, a.capacity, a.page);
  }

  lemma RepairedKeepsSecured(a: Arena, r: Request)
    requires Secured(a) && Sane(r)
    ensures Secured(Allocated(Repaired, a, r).0) && a.capacity <= Allocated(Repaired, a, r).0.capacity
  {
    PaddingFits(a, r);
    var d := Deficit(Repaired, a, r);
    if a.offset + Total(a, r) <= a.maxCapacity && d > 0 {
      ExtensionCovers(Repaired, a, d);
      PagesCover(a.backing + a.capacity, Extension(Repaired, a, d), a.page);
    }
  }

  lemma RepairedKeepsBacked(a: Arena, r: Request)
    requires Backed(a) && Sane(r)
    ensures Backed(Allocated(Repaired, a, r).0)
  {
    RepairedKeepsSecured(a, r);
    PaddingFits(a, r);
    var d := Deficit(Repaired, a, r);
    if a.offset + Total(a, r) <= a.maxCapacity && d > 0 {
      RepairedExtension(a, d);
      MultiplesAdd(a.capacity, Extension(Repaired, a, d), a.page);
    }
  }

  predicate IsBacked(start: int, size: nat, committed: set<int>) {
    forall x | start <= x < start + size :: x in committed
  }

  // The pages the slow path as written commits: they start at the capacity,
  // not at the block.
  function WrittenPages(a: Arena, r: Request): set<int>
    requires 0 < r.alignment <= WORD && 0 < a.page <= WORD
  {
    var missing := Total(a, r) - a.capacity;
    if missing > 0 && r.commits
    then PagesOf(a.backing + a.capacity, AlignUp(missing, a.page) * 2, a.page)
    else {}
  }

  // What a caller can compute to know that a block handed out by the code as
  // written will be wholly backed by committed pages, whatever holes they have.
  predicate WrittenFits(a: Arena, r: Request)
    requires 0 < r.alignment <= WORD && 0 < a.page <= WORD
  {
    IsBacked(Cursor(a) + Padding(a, r), r.size, a.committed + WrittenPages(a, r))
  }

  lemma WrittenBlockAndPages(a: Arena, r: Request)
    requires Callable(a, r) && Allocated(AsWritten, a, r).1.Block?
    ensures 0 < r.alignment <= WORD && 0 < a.page <= WORD
    ensures var (b, out) := Allocated(AsWritten, a, r);
            out.addr == Cursor(a) + Padding(a, r) && b.committed == a.committed + WrittenPages(a, r)
  {
    PaddingFits(a, r);
    var d := Deficit(AsWritten, a, r);
    ExtensionCovers(AsWritten, a, if d > 0 then d else 0);
  }

  // From any state at all, the condition is exact.
  lemma WrittenBlockIsBackedIff(a: Arena, r: Request)
    requires Callable(a, r) && Allocated(AsWritten, a, r).1.Block?
    ensures 0 < r.alignment <= WORD && 0 < a.page <= WORD
    ensures var (b, out) := Allocated(AsWritten, a, r); IsBacked(out.addr, r.size, b.committed) <==> WrittenFits(a, r)
  {
    WrittenBlockAndPages(a, r);
  }

  predicate WholePages(a: Arena) {
    a.page > 0 && a.backing % a.page == 0 && a.capacity % a.page == 0
  }

  lemma WholePagesStart(a: Arena, size: nat)
    requires WholePages(a) && size % a.page == 0
    ensures PageStart(a.backing + a.capacity, a.page) == a.backing + a.capacity
    ensures PageStart(a.backing + a.capacity + size + a.page - 1, a.page) == a.backing + a.capacity + size
  {
    MultiplesAdd(a.backing, a.capacity, a.page);
    MultiplesAdd(a.backing + a.capacity, size, a.page);
    var end := a.backing + a.capacity + size;
    var q := end / a.page;
    assert end == a.page * q;
    DivModUnique(end + a.page - 1, a.page, q, a.page - 1);
  }

  lemma PagesFromCapacity(a: Arena, up: nat)
    requires WholePages(a) && up % a.page == 0
    ensures var end := a.backing + a.capacity;
            forall x :: x in PagesOf(end, up * 2, a.page) <==> end <= x < end + up * 2
  {
    MultiplesAdd(up, up, a.page);
    WholePagesStart(a, up * 2);
  }

  lemma WrittenPagesAre(a: Arena, r: Request)
    requires Callable(a, r) && WholePages(a)
    ensures 0 < r.alignment <= WORD && 0 < a.page <= WORD
    ensures var missing, end := Total(a, r) - a.capacity, a.backing + a.capacity;
            missing > 0 && r.commits ==>
              forall x :: x in WrittenPages(a, r) <==> end <= x < end + AlignUp(missing, a.page) * 2
  {
    PaddingFits(a, r);
    var missing := Total(a, r) - a.capacity;
    if missing > 0 {
      ExtensionCovers(AsWritten, a, missing);
      PagesFromCapacity(a, AlignUp(missing, a.page));
    }
  }

  // Two stretches of bytes, [lo, mark) and [from, to), back a block behind lo.
  lemma BackedByTwoIff(start: int, size: nat, lo: int, mark: int, from: int, to: int, s: set<int>)
    requires forall x :: x in s <==> lo <= x < mark || from <= x < to
    requires lo <= start && lo <= from <= to && lo <= mark
    ensures IsBacked(start, size, s) <==>
              size == 0 || start + size <= mark || ((from <= mark || from <= start) && start + size <= to)
  {
    if IsBacked(start, size, s) && size > 0 && start + size > mark {
      assert start + size - 1 in s;
      var gap := if start < mark then mark else start;
      assert gap in s;
    }
  }

  // In numbers, for an arena in whole pages that is committed up to `mark`: the
  // block must be empty, end below the mark, or end within twice the rounded
  // deficit without straddling uncommitted pages below the capacity.
  lemma WrittenFitsBelowMarkIff(a: Arena, r: Request, mark: nat)
    requires Callable(a, r) && WholePages(a)
    requires forall x :: x in a.committed <==> a.backing <= x < a.backing + mark
    ensures 0 < r.alignment <= WORD && 0 < a.page <= WORD
    ensures var start, missing := a.offset + Padding(a, r), Total(a, r) - a.capacity;
            WrittenFits(a, r) <==>
              || r.size == 0
              || start + r.size <= mark
              || (missing > 0 && r.commits && (a.capacity <= mark || a.capacity <= start)
                  && start + r.size <= a.capacity + AlignUp(missing, a.page) * 2)
  {
    PaddingFits(a, r);
    WrittenPagesAre(a, r);
    var missing, end := Total(a, r) - a.capacity, a.backing + a.capacity;
    var space := if missing > 0 && r.commits then AlignUp(missing, a.page) * 2 else 0;
    BackedByTwoIff(Cursor(a) + Padding(a, r), r.size, a.backing, a.backing + mark, end, end + space,
                   a.committed + WrittenPages(a, r));
  }

  // As written, one call moves the capacity past the zone, over whatever is
  // laid out behind it, exactly when it grows and twice the rounded deficit
  // does not fit any more.
  lemma WrittenGrowthLeavesZoneIff(a: Arena, r: Request)
    requires Callable(a, r) && a.capacity <= a.maxCapacity
    ensures 0 < r.alignment <= WORD && 0 < a.page <= WORD
    ensures var total := Total(a, r);
            Allocated(AsWritten, a, r).0.capacity > a.maxCapacity <==>
              && a.offset + total <= a.maxCapacity && total > a.capacity && !(r.commits && r.locks)
              && a.capacity + 2 * AlignUp(total - a.capacity, a.page) > a.maxCapacity
  {
    PaddingFits(a, r);
    var d := Deficit(AsWritten, a, r);
    ExtensionCovers(AsWritten, a, if d > 0 then d else 0);
  }

  // With an operating system that grants everything, the slow path as written
  // always returns null, so it serves exactly the requests below the capacity.
  lemma WrittenHealthySystem(a: Arena, r: Request)
    requires Callable(a, r) && r.commits && r.locks
    ensures 0 < r.alignment <= WORD
    ensures Allocated(AsWritten, a, r).1.Block?
            <==> Total(a, r) <= a.capacity && a.offset + Total(a, r) <= a.maxCapacity
  {
    PaddingFits(a, r);
  }

  // ------------------------------------------------------------------- runs

  datatype Span = Span(addr: nat, size: nat, alignment: nat)

  // An arena with the blocks handed out since the last reset, oldest first.
  datatype Heap = Heap(arena: Arena, live: seq<Span>)

  // A scope is a stolen task run by Scheduler_Sync: it allocates what it likes
  // and the offset is put back when it returns.
  datatype Op = Allocate(request: Request) | Reset | Scope(requests: seq<Request>)

  ghost predicate AllSane(rs: seq<Request>) {
    forall i | 0 <= i < |rs| :: Sane(rs[i])
  }

  ghost predicate SaneOp(op: Op) {
    match op
    case Allocate(r) => Sane(r)
    case Reset => true
    case Scope(rs) => AllSane(rs)
  }

  predicate SameZone(a: Arena, b: Arena) {
    a.backing == b.backing && a.maxCapacity == b.maxCapacity && a.page == b.page
  }

  function Serve(g: Growth, h: Heap, r: Request): (h': Heap)
    requires Callable(h.arena, r)
    ensures Within(h'.arena) && SameZone(h.arena, h'.arena)
    ensures h.arena.offset <= h'.arena.offset
  {
    WithinKept(g, h.arena, r);
    var (b, out) := Allocated(g, h.arena, r);
    Heap(b, if out.Block? then h.live + [Span(out.addr, r.size, r.alignment)] else h.live)
  }

  function ServeAll(g: Growth, h: Heap, rs: seq<Request>): (h': Heap)
    requires Within(h.arena) && AllSane(rs)
    ensures Within(h'.arena) && SameZone(h.arena, h'.arena)
    ensures h.arena.offset <= h'.arena.offset
  {
    if rs == [] then h else Serve(g, ServeAll(g, h, rs[..|rs| - 1]), rs[|rs| - 1])
  }

  function Apply(g: Growth, h: Heap, op: Op): (h': Heap)
    requires Within(h.arena) && SaneOp(op)
    ensures Within(h'.arena) && SameZone(h.arena, h'.arena)
  {
    match op
    case Allocate(r) => Serve(g, h, r)
    case Reset => Heap(h.arena.(offset := 0), [])
    case Scope(rs) => Heap(ServeAll(g, h, rs).arena.(offset := h.arena.offset), h.live)
  }

  function Run(g: Growth, h: Heap, ops: seq<Op>): (h': Heap)
    requires Within(h.arena) && forall i | 0 <= i < |ops| :: SaneOp(ops[i])
    ensures Within(h'.arena) && SameZone(h.arena, h'.arena)
  {
    if ops == [] then h else Apply(g, Run(g, h, ops[..|ops| - 1]), ops[|ops| - 1])
  }

  lemma WithinKept(g: Growth, a: Arena, r: Request)
    requires Callable(a, r)
    ensures Within(Allocated(g, a, r).0) && SameZone(a, Allocated(g, a, r).0)
    ensures a.offset <= Allocated(g, a, r).0.offset
  {
    PaddingFits(a, r);
    var d := Deficit(g, a, r);
    if d > 0 && a.offset + Total(a, r) <= a.maxCapacity {
      ExtensionCovers(g, a, d);
    }
  }

  // Blocks lie aligned below the cursor, in the order they were handed out.
  ghost predicate Placed(h: Heap) {
    && Within(h.arena)
    && (forall i | 0 <= i < |h.live| ::
          && h.live[i].alignment > 0 && h.live[i].addr % h.live[i].alignment == 0
          && h.arena.backing <= h.live[i].addr
          && h.live[i].addr + h.live[i].size <= Cursor(h.arena))
    && (forall i, j | 0 <= i < j < |h.live| :: h.live[i].addr + h.live[i].size <= h.live[j].addr)
  }

  lemma ServeKeepsPlaced(g: Growth, h: Heap, r: Request)
    requires Placed(h) && Sane(r)
    ensures Placed(Serve(g, h, r)) && h.live <= Serve(g, h, r).live
    ensures forall i | |h.live| <= i < |Serve(g, h, r).live| :: Cursor(h.arena) <= Serve(g, h, r).live[i].addr
  {
    WithinKept(g, h.arena, r);
    if Allocated(g, h.arena, r).1.Block? { BlockPlacement(g, h.arena, r); }
  }

  lemma {:induction false} ServeAllKeepsPlaced(g: Growth, h: Heap, rs: seq<Request>)
    requires Placed(h) && AllSane(rs)
    ensures var h' := ServeAll(g, h, rs);
            && Placed(h') && h.live <= h'.live
            && forall i | |h.live| <= i < |h'.live| :: Cursor(h.arena) <= h'.live[i].addr
  {
    if rs == [] {
    } else {
      ServeAllKeepsPlaced(g, h, rs[..|rs| - 1]);
      ServeKeepsPlaced(g, ServeAll(g, h, rs[..|rs| - 1]), rs[|rs| - 1]);
    }
  }

  lemma OpKeepsPlaced(g: Growth, h: Heap, op: Op)
    requires Placed(h) && SaneOp(op)
    ensures Placed(Apply(g, h, op))
  {
    match op
    case Allocate(r) => ServeKeepsPlaced(g, h, r);
    case Reset =>
    case Scope(rs) => ServeAllKeepsPlaced(g, h, rs);
  }

  lemma {:induction false} RunKeepsPlaced(g: Growth, h: Heap, ops: seq<Op>)
    requires Placed(h) && forall i | 0 <= i < |ops| :: SaneOp(ops[i])
    ensures Placed(Run(g, h, ops))
  {
    if ops == [] {
    } else {
      RunKeepsPlaced(g, h, ops[..|ops| - 1]);
      OpKeepsPlaced(g, Run(g, h, ops[..|ops| - 1]), ops[|ops| - 1]);
    }
  }

  predicate Overlap(x: Span, y: Span) {
    x.addr < y.addr + y.size && y.addr < x.addr + x.size
  }

  // Over any sequence of operations, under either growth rule: live blocks are
  // aligned, lie inside the zone, and no two of them overlap.
  lemma ArenaSafety(g: Growth, a: Arena, ops: seq<Op>)
    requires Within(a) && forall i | 0 <= i < |ops| :: SaneOp(ops[i])
    ensures var live := Run(g, Heap(a, []), ops).live;
            && (forall i | 0 <= i < |live| ::
                  && live[i].alignment > 0 && live[i].addr % live[i].alignment == 0
                  && a.backing <= live[i].addr
                  && live[i].addr + live[i].size <= a.backing + Run(g, Heap(a, []), ops).arena.maxCapacity)
            && (forall i, j | 0 <= i < |live| && 0 <= j < |live| && i != j :: !Overlap(live[i], live[j]))
  {
    RunKeepsPlaced(g, Heap(a, []), ops);
    var live := Run(g, Heap(a, []), ops).live;
    forall i, j | 0 <= i < |live| && 0 <= j < |live| && i != j
      ensures !Overlap(live[i], live[j])
    {
      if i < j { assert live[i].addr + live[i].size <= live[j].addr; }
      else { assert live[j].addr + live[j].size <= live[i].addr; }
    }
  }

  // Every live block lies in committed pages.
  ghost predicate AllBacked(h: Heap) {
    forall i | 0 <= i < |h.live| :: IsBacked(h.live[i].addr, h.live[i].size, h.arena.committed)
  }

  // So it is after each of the requests, and after each operation of a run,
  // inside its scopes too.
  ghost predicate BackedServes(g: Growth, h: Heap, rs: seq<Request>)
    requires Within(h.arena) && AllSane(rs)
  {
    AllBacked(ServeAll(g, h, rs)) && (rs != [] ==> BackedServes(g, h, rs[..|rs| - 1]))
  }

  ghost predicate BackedInside(g: Growth, h: Heap, op: Op)
    requires Within(h.arena) && SaneOp(op)
  {
    op.Scope? ==> BackedServes(g, h, op.requests)
  }

  ghost predicate BackedRun(g: Growth, h: Heap, ops: seq<Op>)
    requires Within(h.arena) && forall i | 0 <= i < |ops| :: SaneOp(ops[i])
  {
    && AllBacked(Run(g, h, ops))
    && (ops != [] ==>
          var front := ops[..|ops| - 1];
          BackedRun(g, h, front) && BackedInside(g, Run(g, h, front), ops[|ops| - 1]))
  }

  // Each request that got a block met the condition when it was served.
  ghost predicate FittingServes(h: Heap, rs: seq<Request>)
    requires Within(h.arena) && AllSane(rs)
  {
    rs != [] ==>
      var front, r := rs[..|rs| - 1], rs[|rs| - 1];
      FittingServes(h, front) && Fitting(ServeAll(AsWritten, h, front), r)
  }

  ghost predicate Fitting(h: Heap, r: Request)
    requires Callable(h.arena, r)
  {
    PaddingFits(h.arena, r);
    ExtensionCovers(AsWritten, h.arena, 0);
    Allocated(AsWritten, h.arena, r).1.Block? ==> WrittenFits(h.arena, r)
  }

  ghost predicate FittingOp(h: Heap, op: Op)
    requires Within(h.arena) && SaneOp(op)
  {
    match op
    case Allocate(r) => Fitting(h, r)
    case Reset => true
    case Scope(rs) => FittingServes(h, rs)
  }

  ghost predicate FittingRun(h: Heap, ops: seq<Op>)
    requires Within(h.arena) && forall i | 0 <= i < |ops| :: SaneOp(ops[i])
  {
    ops != [] ==>
      var front := ops[..|ops| - 1];
      FittingRun(h, front) && FittingOp(Run(AsWritten, h, front), ops[|ops| - 1])
  }

  lemma CommitsStay(a: Arena, r: Request)
    requires Callable(a, r)
    ensures a.committed <= Allocated(AsWritten, a, r).0.committed
  {
  }

  lemma ServeBackedIff(h: Heap, r: Request)
    requires Callable(h.arena, r) && AllBacked(h)
    ensures AllBacked(Serve(AsWritten, h, r)) <==> Fitting(h, r)
  {
    var h' := Serve(AsWritten, h, r);
    CommitsStay(h.arena, r);
    if Allocated(AsWritten, h.arena, r).1.Block? {
      WrittenBlockIsBackedIff(h.arena, r);
      assert h'.live[|h.live|].addr == Allocated(AsWritten, h.arena, r).1.addr;
    }
  }

  lemma {:induction false} ServesBackedIff(h: Heap, rs: seq<Request>)
    requires Within(h.arena) && AllSane(rs) && AllBacked(h)
    ensures BackedServes(AsWritten, h, rs) <==> FittingServes(h, rs)
    ensures h.arena.committed <= ServeAll(AsWritten, h, rs).arena.committed
  {
    if rs == [] {
    } else {
      var front := rs[..|rs| - 1];
      ServesBackedIff(h, front);
      CommitsStay(ServeAll(AsWritten, h, front).arena, rs[|rs| - 1]);
      if AllBacked(ServeAll(AsWritten, h, front)) {
        ServeBackedIff(ServeAll(AsWritten, h, front), rs[|rs| - 1]);
      }
    }
  }

  // With the growth as written a run keeps all live blocks in committed pages
  // throughout exactly if every request that got a block met the condition.
  lemma {:induction false} WrittenRunIsBackedIff(a: Arena, ops: seq<Op>)
    requires Within(a) && forall i | 0 <= i < |ops| :: SaneOp(ops[i])
    ensures BackedRun(AsWritten, Heap(a, []), ops) <==> FittingRun(Heap(a, []), ops)
  {
    if ops == [] {
    } else {
      var front, op := ops[..|ops| - 1], ops[|ops| - 1];
      WrittenRunIsBackedIff(a, front);
      var m := Run(AsWritten, Heap(a, []), front);
      if AllBacked(m) {
        match op
        case Allocate(r) => ServeBackedIff(m, r);
        case Reset =>
        case Scope(rs) => ServesBackedIff(m, rs);
      }
    }
  }

  lemma SecuredIsBacked(h: Heap)
    requires Placed(h) && Secured(h.arena)
    ensures AllBacked(h)
  {
  }

  lemma {:induction false} ServesStayBacked(h: Heap, rs: seq<Request>)
    requires Placed(h) && Secured(h.arena) && AllSane(rs)
    ensures var h' := ServeAll(Repaired, h, rs);
            && BackedServes(Repaired, h, rs)
            && Secured(h'.arena) && h.arena.capacity <= h'.arena.capacity
            && (Backed(h.arena) ==> Backed(h'.arena))
  {
    if rs == [] {
    } else {
      var m, r := ServeAll(Repaired, h, rs[..|rs| - 1]), rs[|rs| - 1];
      ServesStayBacked(h, rs[..|rs| - 1]);
      RepairedKeepsSecured(m.arena, r);
      if Backed(h.arena) { RepairedKeepsBacked(m.arena, r); }
    }
    ServeAllKeepsPlaced(Repaired, h, rs);
    SecuredIsBacked(ServeAll(Repaired, h, rs));
  }

  lemma OpStaysBacked(h: Heap, op: Op)
    requires Placed(h) && Secured(h.arena) && SaneOp(op)
    ensures var h' := Apply(Repaired, h, op);
            && BackedInside(Repaired, h, op) && AllBacked(h')
            && Secured(h'.arena) && (Backed(h.arena) ==> Backed(h'.arena))
  {
    OpKeepsPlaced(Repaired, h, op);
    match op
    case Allocate(r) =>
      RepairedKeepsSecured(h.arena, r);
      if Backed(h.arena) { RepairedKeepsBacked(h.arena, r); }
    case Reset =>
    case Scope(rs) => ServesStayBacked(h, rs);
    SecuredIsBacked(Apply(Repaired, h, op));
  }

  // With the repaired growth every live block lies in committed pages at every
  // moment of every run, and offset <= capacity <= maxCapacity throughout; an
  // arena that starts in whole pages stays in whole pages.
  lemma {:induction false} RepairedRunsStayBacked(a: Arena, ops: seq<Op>)
    requires Secured(a) && forall i | 0 <= i < |ops| :: SaneOp(ops[i])
    ensures var h := Run(Repaired, Heap(a, []), ops);
            && BackedRun(Repaired, Heap(a, []), ops)
            && Secured(h.arena) && (Backed(a) ==> Backed(h.arena))
  {
    if ops == [] {
    } else {
      var front := ops[..|ops| - 1];
      RepairedRunsStayBacked(a, front);
      RunKeepsPlaced(Repaired, Heap(a, []), front);
      OpStaysBacked(Run(Repaired, Heap(a, []), front), ops[|ops| - 1]);
    }
  }

  function Allocations(rs: seq<Request>): (ops: seq<Op>)
    ensures |ops| == |rs| && forall i | 0 <= i < |rs| :: ops[i] == Allocate(rs[i])
  {
    seq(|rs|, i requires 0 <= i < |rs| => Allocate(rs[i]))
  }

  // A scope is its requests as ordinary allocations, with only the offset and
  // the live blocks put back: pages it committed and capacity it won stay.
  lemma {:induction false} ScopeIsAllocationsUndone(g: Growth, h: Heap, rs: seq<Request>)
    requires Within(h.arena) && AllSane(rs)
    ensures ServeAll(g, h, rs) == Run(g, h, Allocations(rs))
    ensures var after := Run(g, h, Allocations(rs)).arena;
            Apply(g, h, Scope(rs)) == Heap(after.(offset := h.arena.offset), h.live)
  {
    if rs == [] {
    } else {
      var front := rs[..|rs| - 1];
      ScopeIsAllocationsUndone(g, h, front);
      assert Allocations(rs)[..|rs| - 1] == Allocations(front);
    }
  }

  // A scope leaves the offset and the live blocks as they were, and none of
  // the blocks handed out inside it overlaps one that was live before.
  lemma ScopeIsNeutral(g: Growth, h: Heap, rs: seq<Request>)
    requires Placed(h) && AllSane(rs)
    ensures Apply(g, h, Scope(rs)).arena.offset == h.arena.offset
    ensures Apply(g, h, Scope(rs)).live == h.live
    ensures var inside := ServeAll(g, h, rs).live;
            && h.live <= inside
            && forall i, j | 0 <= i < |h.live| <= j < |inside| :: !Overlap(h.live[i], inside[j])
  {
    ServeAllKeepsPlaced(g, h, rs);
    var inside := ServeAll(g, h, rs).live;
    forall i, j | 0 <= i < |h.live| <= j < |inside|
      ensures !Overlap(h.live[i], inside[j])
    {
      assert h.live[i].addr + h.live[i].size <= Cursor(h.arena) <= inside[j].addr;
    }
  }

  // Once the committed bytes are used up, every request not larger than the
  // capacity gets a block of which no byte is committed, as long as the zone
  // lasts.
  lemma WrittenHandsOutUnbackedBlock(a: Arena, r: Request)
    requires Callable(a, r) && a.offset == a.capacity
    requires forall x :: x in a.committed <==> a.backing <= x < a.backing + a.capacity
    ensures 0 < r.alignment <= WORD
    ensures Total(a, r) <= a.capacity && a.offset + Total(a, r) <= a.maxCapacity ==>
              var (b, out) := Allocated(AsWritten, a, r);
              out.Block? && forall x | out.addr <= x < out.addr + r.size :: x !in b.committed
  {
    PaddingFits(a, r);
  }

  // ------------------------------------------------------------- the object

  class ThreadArena {
    const backingMemory: nat
    const maxCapacity: nat
    const page: nat          // of the owning thread's page coordinator
    var capacity: int
    var offset: nat
    ghost var committed: set<int>

    ghost function State(): Arena
      reads this
    {
      Arena(backingMemory, capacity, offset, maxCapacity, committed, page)
    }

    // InitializeArena: the baseline is committed up front.
    constructor (base: nat, zoneOffset: nat, baseline: nat, maxCapacity: nat, page: nat)
      requires baseline <= maxCapacity && page > 0
      ensures State() == Arena(base + zoneOffset, baseline, 0, maxCapacity,
                               PagesOf(base + zoneOffset, baseline, page), page)
    {
      backingMemory := base + zoneOffset;
      this.maxCapacity := maxCapacity;
      this.page := page;
      capacity := baseline;
      offset := 0;
      committed := PagesOf(base + zoneOffset, baseline, page);
    }

    // The slow path of ThreadArena_Allocate.
    method Grow(g: Growth, deficit: nat, r: Request) returns (refused: bool)
      requires 0 < page <= WORD
      modifies this`capacity, this`committed
      ensures refused == Refused(g, r)
      ensures var a := old(State()); var space := Extension(g, a, deficit);
              State() == a.(committed := CommittedAfter(a, r, space),
                            capacity := if refused then a.capacity else a.capacity + space)
    {
      var spaceInPages := AlignUp(deficit, page) * 2;
      if g == Repaired && capacity + spaceInPages > maxCapacity {
        spaceInPages := maxCapacity - capacity;
      }
      committed := CommittedAfter(State(), r, spaceInPages);
      refused := if g == AsWritten then r.commits && r.locks else !(r.commits && r.locks);
      if !refused {
        capacity := capacity + spaceInPages;
      }
    }

    // ThreadArena_Allocate; `commits` and `locks` are the answers of the two
    // system calls on the slow path.
    method Allocate(g: Growth, size: nat, alignment: nat, commits: bool, locks: bool) returns (out: Outcome)
      requires Callable(State(), Request.Request(size, alignment, commits, locks))
      modifies this
      ensures (State(), out) == Allocated(g, old(State()), Request.Request(size, alignment, commits, locks))
      ensures Within(State())
    {
      var r := Request.Request(size, alignment, commits, locks);
      ghost var before := State();
      PaddingFits(before, r);
      PageFits(before);
      WithinKept(g, before, r);
      var currentAddress := backingMemory + offset;
      var alignedAddress := AlignUp(currentAddress, alignment);
      var padding := alignedAddress - currentAddress;
      var totalSpace := padding + size;
      if offset + totalSpace > maxCapacity {
        return Overflown;
      }
      var deficit := if g == AsWritten then totalSpace - capacity else offset + totalSpace - capacity;
      if deficit > 0 {
        var refused := Grow(g, deficit, r);
        if refused {
          return Null;
        }
      }
      offset := offset + totalSpace;
      out := Block(alignedAddress);
    }

    // ThreadArena_Reset
    method Reset()
      modifies this`offset
      ensures State() == old(State()).(offset := 0)
    {
      offset := 0;
    }

    // A stolen task as Scheduler_Sync runs it: the offset is put back.
    method RunScoped(g: Growth, requests: seq<Request>)
      requires Within(State()) && AllSane(requests)
      modifies this
      ensures State() == Apply(g, Heap(old(State()), []), Scope(requests)).arena
      ensures offset == old(offset) && Within(State())
    {
      var snapshot := offset;
      ghost var h := Heap(State(), []);
      for i := 0 to |requests|
        invariant Within(State())
        invariant State() == ServeAll(g, h, requests[..i]).arena
      {
        assert requests[..i + 1][..i] == requests[..i];
        var r := requests[i];
        var out := Allocate(g, r.size, r.alignment, r.commits, r.locks);
      }
      assert requests[..|requests|] == requests;
      offset := snapshot;
    }
  }
}
