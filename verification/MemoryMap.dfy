// The constants of the per-thread address map.
module MemoryMap {

  const SPACE_LENGTH: nat := 0x8_0000_0000      // 32 GB of addresses per thread

  const TA_OFFSET: nat := 0
  const TA_SIZE: nat := 0x4000_0000             // 1 GB
  const TA_BASELINE: nat := 0x400_0000          // 64 MB

  const PS_OFFSET: nat := TA_OFFSET + TA_SIZE   // main thread only
  const PS_SIZE: nat := 0x8000_0000             // 2 GB
  const PS_BASELINE: nat := 0x400_0000
  const MAIN_BASELINE_SUM: nat := PS_SIZE

  const QUEUE_OFFSET: nat := TA_OFFSET + TA_SIZE // workers only
  const QUEUE_SIZE: nat := 0x1_0000             // 64 KB
  const CPA_BASELINE: nat := 0x800_0000
  const SA_BASELINE: nat := 0x400_0000
  const WORKER_BASELINE_SUM: nat := TA_BASELINE + CPA_BASELINE + SA_BASELINE

  // sizeof(task_t) == sizeof(payload_t)
  const WORD_SIZE: nat := 8
}
