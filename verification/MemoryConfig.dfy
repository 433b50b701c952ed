// MemoryConfig_Initialize: how much memory the engine asks to keep locked.
module MemoryConfig {
  import opened Bits
  import opened MemoryMap

  const PER_THREAD: nat := TA_BASELINE + WORKER_BASELINE_SUM

  // The closed form, before rounding.
  function RawLockBudget(threads: nat, contextSize: nat): int {
    threads * (contextSize + PER_THREAD) + MAIN_BASELINE_SUM - WORKER_BASELINE_SUM
  }

  // What it stands for: every thread's context and transient baseline, plus
  // main's share once and a worker's share for everybody else.
  function BudgetByThread(threads: nat, contextSize: nat): nat
    requires threads >= 1
  {
    if threads == 1 then contextSize + TA_BASELINE + MAIN_BASELINE_SUM
    else BudgetByThread(threads - 1, contextSize) + contextSize + TA_BASELINE + WORKER_BASELINE_SUM
  }

  lemma {:induction false} ClosedFormIsSum(threads: nat, contextSize: nat)
    requires threads >= 1
    ensures RawLockBudget(threads, contextSize) == BudgetByThread(threads, contextSize)
  {
    if threads == 1 {
    } else {
      ClosedFormIsSum(threads - 1, contextSize);
      assert threads * (contextSize + PER_THREAD)
          == (threads - 1) * (contextSize + PER_THREAD) + (contextSize + PER_THREAD);
    }
  }

  function ContextArray(threads: nat, contextSize: nat): nat { contextSize * threads }

  // The bytes asked for besides the context array.
  function RequestedBesides(threads: nat): int {
    threads * TA_BASELINE + PS_BASELINE + (threads - 1) * QUEUE_SIZE
  }

  // Bytes ThreadContext_Initialize asks the system to commit, in its order:
  // the context array, a transient baseline per thread, main's persistent
  // baseline, a whole queue per worker.
  function RequestedAtStart(threads: nat, contextSize: nat, page: nat): int
    requires 0 < page <= WORD
  {
    AlignUp(ContextArray(threads, contextSize), page) + RequestedBesides(threads)
  }

  ghost predicate Realistic(threads: nat, contextSize: nat) {
    1 <= threads <= 0xFFFF_FFFF && contextSize <= 0x1_0000
  }

  lemma BudgetBounds(threads: nat, contextSize: nat)
    requires Realistic(threads, contextSize)
    ensures ContextArray(threads, contextSize) <= 0x1_0000_0000_0000
    ensures ContextArray(threads, contextSize) + 0x8000_0000 <= RawLockBudget(threads, contextSize)
    ensures RawLockBudget(threads, contextSize) < 0x4000_0000_0000_0000
    ensures RawLockBudget(threads, contextSize)
         == ContextArray(threads, contextSize)
            + threads * TA_BASELINE + MAIN_BASELINE_SUM + (threads - 1) * WORKER_BASELINE_SUM
  {
    assert threads * (contextSize + PER_THREAD) == contextSize * threads + threads * PER_THREAD;
    assert contextSize * threads <= 0x1_0000 * threads;
  }

  lemma RoundingRoom(threads: nat, c: nat, ac: nat, raw: nat, ar: nat, page: nat)
    requires threads >= 1
    requires raw == c + threads * TA_BASELINE + MAIN_BASELINE_SUM + (threads - 1) * WORKER_BASELINE_SUM
    requires c <= ac < c + page && raw <= ar && ac + page <= ar
    ensures ac + RequestedBesides(threads) <= ar
  {
    assert 2 * (ar - ac) > raw - c >= 2 * RequestedBesides(threads);
  }

  lemma Roundings(c: nat, raw: nat, page: nat, k: nat)
    requires c <= raw < 0x4000_0000_0000_0000 && page == Pow2(k) && k <= 63
    ensures 0 < page <= WORD
    ensures c <= AlignUp(c, page) < c + page && raw <= AlignUp(raw, page) < raw + page
    ensures AlignUp(c, page) % page == 0 && AlignUp(raw, page) % page == 0
    ensures AlignUp(c, page) <= AlignUp(raw, page)
  {
    Pow2Values();
    Pow2Monotone(k, 63);
    assert Pow2(64) == 2 * Pow2(63);
    AlignUpSpec(c, page, k);
    AlignUpSpec(raw, page, k);
    AlignUpIsLeast(c, page, k, AlignUp(raw, page));
  }

  // For every power of two a size_t can hold, the rounded budget covers all
  // bytes requested at initialization exactly if rounding keeps the context
  // array and the budget apart.
  lemma BudgetCoversIff(threads: nat, contextSize: nat, page: nat, k: nat)
    requires Realistic(threads, contextSize) && page == Pow2(k) && k <= 63
    ensures 0 < page <= WORD && 0 <= RawLockBudget(threads, contextSize)
    ensures RequestedAtStart(threads, contextSize, page) <= AlignUp(RawLockBudget(threads, contextSize), page)
            <==> AlignUp(ContextArray(threads, contextSize), page) < AlignUp(RawLockBudget(threads, contextSize), page)
  {
    BudgetBounds(threads, contextSize);
    var c, raw := ContextArray(threads, contextSize), RawLockBudget(threads, contextSize);
    Roundings(c, raw, page, k);
    var ac, ar := AlignUp(c, page), AlignUp(raw, page);
    if ac < ar {
      MultiplesApart(ac, ar, page);
      RoundingRoom(threads, c, ac, raw, ar, page);
    }
  }

  lemma SmallPagesKeepApart(c: nat, raw: nat, page: nat, k: nat)
    requires c + 0x8000_0000 <= raw < 0x4000_0000_0000_0000 && page == Pow2(k) && k <= 31
    ensures page <= 0x8000_0000 && AlignUp(c, page) < AlignUp(raw, page)
  {
    Pow2Values();
    Pow2Monotone(k, 31);
    Roundings(c, raw, page, k);
  }

  // So it does for every thread count and every page size a uint32_t can hold,
  // which is where the engine's page size comes from.
  lemma BudgetCoversRequested(threads: nat, contextSize: nat, page: nat, k: nat)
    requires Realistic(threads, contextSize)
    requires page == Pow2(k) && k <= 31
    ensures page <= 0x8000_0000
    ensures 0 <= RawLockBudget(threads, contextSize)
    ensures RequestedAtStart(threads, contextSize, page) <= AlignUp(RawLockBudget(threads, contextSize), page)
  {
    BudgetBounds(threads, contextSize);
    SmallPagesKeepApart(ContextArray(threads, contextSize), RawLockBudget(threads, contextSize), page, k);
    BudgetCoversIff(threads, contextSize, page, k);
  }

  // The parameter is a size_t: a page as large as the whole budget is one for
  // which it does not.
  lemma BudgetFallsShortOnHugePages(threads: nat, contextSize: nat, page: nat, k: nat)
    requires Realistic(threads, contextSize) && 0 < contextSize
    requires page == Pow2(k) && k <= 63 && RawLockBudget(threads, contextSize) <= page
    ensures 0 < page <= WORD && 0 <= RawLockBudget(threads, contextSize)
    ensures RequestedAtStart(threads, contextSize, page) > AlignUp(RawLockBudget(threads, contextSize), page)
  {
    BudgetBounds(threads, contextSize);
    BudgetCoversIff(threads, contextSize, page, k);
    Roundings(ContextArray(threads, contextSize), RawLockBudget(threads, contextSize), page, k);
    MulAtLeast(contextSize, threads);
    assert ContextArray(threads, contextSize) > 0;
    OnlyMultiple(AlignUp(ContextArray(threads, contextSize), page), page);
    OnlyMultiple(AlignUp(RawLockBudget(threads, contextSize), page), page);
  }

  lemma OnlyMultiple(m: nat, page: nat)
    requires 0 < m < 2 * page && m % page == 0
    ensures m == page
  {
    if m < page { MultiplesApart(0, m, page); }
    if m > page { MultiplesApart(page, m, page); }
  }

  // Unsigned subtraction of 64-bit words.
  function Minus(x: nat, y: nat): (r: nat)
    requires x < WORD && y < WORD
    ensures r < WORD && r == if y <= x then x - y else x - y + WORD
  {
    if y <= x then x - y else x - y + WORD
  }

  // The check that at least half of the allowed memory stays unlocked. Because
  // the pool size wraps, it also lets through every budget above all of it.
  lemma PoolCheckPassesIff(allowed: nat, active: nat)
    requires allowed < WORD && active <= WORD / 2
    ensures active <= Minus(allowed, active) <==> 2 * active <= allowed || active > allowed
  {
  }

  lemma SeventyPercent(ram: nat)
    ensures var allowed := (ram / 10) * 7;
            allowed <= ram && allowed % 7 == 0 && 10 * allowed <= 7 * ram < 10 * allowed + 70
  {
  }

  lemma RoundedBudget(threads: nat, contextSize: nat, page: nat, k: nat)
    requires Realistic(threads, contextSize)
    requires page == Pow2(k) && k <= 31
    ensures page <= 0x8000_0000 && RawLockBudget(threads, contextSize) >= 0
    ensures var active := AlignUp(RawLockBudget(threads, contextSize), page);
            var sum := BudgetByThread(threads, contextSize);
            active % page == 0 && sum <= active < sum + page && active <= WORD / 2
    ensures RequestedAtStart(threads, contextSize, page) <= AlignUp(RawLockBudget(threads, contextSize), page)
  {
    Pow2Values();
    Pow2Monotone(k, 31);
    BudgetBounds(threads, contextSize);
    ClosedFormIsSum(threads, contextSize);
    BudgetCoversRequested(threads, contextSize, page, k);
    AlignUpSpec(RawLockBudget(threads, contextSize), page, k);
  }

  class EngineMemoryConfig {
    var totalPhysicalRam: nat
    var maxAllowedPhysical: nat
    var threadSoftBaseline: nat
    var activeLockAllocation: nat
    var globalPoolSize: nat

    // MemoryConfig_Initialize; `accepted` is the outcome of its assertion.
    method Initialize(physicalRamInstalled: nat, pageSize: nat, totalThreads: nat, contextSize: nat, ghost k: nat)
      returns (accepted: bool)
      requires physicalRamInstalled < WORD && Realistic(totalThreads, contextSize)
      requires pageSize == Pow2(k) && k <= 31
      modifies this
      ensures maxAllowedPhysical <= totalPhysicalRam == physicalRamInstalled
      ensures maxAllowedPhysical % 7 == 0
      ensures 10 * maxAllowedPhysical <= 7 * physicalRamInstalled < 10 * maxAllowedPhysical + 70
      ensures threadSoftBaseline == TA_BASELINE
      ensures pageSize <= 0x8000_0000 && activeLockAllocation % pageSize == 0
      ensures BudgetByThread(totalThreads, contextSize) <= activeLockAllocation
              < BudgetByThread(totalThreads, contextSize) + pageSize
      ensures RequestedAtStart(totalThreads, contextSize, pageSize) <= activeLockAllocation
      ensures accepted <==> 2 * activeLockAllocation <= maxAllowedPhysical || activeLockAllocation > maxAllowedPhysical
      ensures accepted <==> activeLockAllocation <= globalPoolSize
      ensures activeLockAllocation <= maxAllowedPhysical ==> activeLockAllocation + globalPoolSize == maxAllowedPhysical
      ensures activeLockAllocation > maxAllowedPhysical ==>
                activeLockAllocation + globalPoolSize == maxAllowedPhysical + WORD
    {
      SeventyPercent(physicalRamInstalled);
      RoundedBudget(totalThreads, contextSize, pageSize, k);
      totalPhysicalRam := physicalRamInstalled;
      maxAllowedPhysical := (physicalRamInstalled / 10) * 7;
      threadSoftBaseline := TA_BASELINE;
      var precomputed := contextSize + TA_BASELINE + WORKER_BASELINE_SUM;
      var rawLockBudget := totalThreads * precomputed + MAIN_BASELINE_SUM - WORKER_BASELINE_SUM;
      assert rawLockBudget == RawLockBudget(totalThreads, contextSize);
      activeLockAllocation := AlignUp(rawLockBudget, pageSize);
      globalPoolSize := Minus(maxAllowedPhysical, activeLockAllocation);
      PoolCheckPassesIff(maxAllowedPhysical, activeLockAllocation);
      accepted := activeLockAllocation <= globalPoolSize;
    }
  }
}
