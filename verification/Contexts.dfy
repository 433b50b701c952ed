// Worker contexts and the initialization of all per-thread state.
module Contexts {
  import opened Bits
  import opened TaskQueues
  import opened MemoryMap
  import opened Arenas
  import opened Layout
  import opened MemoryConfig

  class WorkerContext {
    const taskQueue: TaskQueue
    var isAsleep: bool
    var sleepSemaphore: nat

    constructor (taskQueue: TaskQueue)
      ensures this.taskQueue == taskQueue
      ensures !isAsleep && sleepSemaphore == 0
    {
      this.taskQueue := taskQueue;
      isAsleep := false;
      sleepSemaphore := 0;
    }
  }

  ghost predicate Separate(ws: seq<WorkerContext>) {
    forall i, j | 0 <= i < j < |ws| ::
      && ws[i] != ws[j]
      && ws[i].taskQueue != ws[j].taskQueue
      && ws[i].taskQueue.tasks != ws[j].taskQueue.tasks
      && ws[i].taskQueue.tasks != ws[j].taskQueue.payloads
      && ws[i].taskQueue.payloads != ws[j].taskQueue.tasks
      && ws[i].taskQueue.payloads != ws[j].taskQueue.payloads
  }

  // The first pass: main and every worker get a transient arena at the start
  // of their slice of the runway.
  method InitializeTransientArenas(s: Slab, contextBytes: nat)
    returns (transient: seq<ThreadArena>, committed: nat)
    requires 0 < s.page <= WORD && contextBytes == s.ContextBytes()
    ensures |transient| == s.threads && committed == s.threads * TA_BASELINE
    ensures forall i | 0 <= i < s.threads :: fresh(transient[i]) && transient[i].State() == ArenaAt(s, Transient(i))
    ensures forall i, j | 0 <= i < j < s.threads :: transient[i] != transient[j]
  {
    committed := 0;
    var runwayCursor := s.base + contextBytes;
    transient := [];
    for i := 0 to s.threads
      invariant |transient| == i
      invariant runwayCursor == s.ThreadBase(i)
      invariant committed == i * TA_BASELINE
      invariant forall j | 0 <= j < i :: fresh(transient[j]) && transient[j].State() == ArenaAt(s, Transient(j))
      invariant forall j, k | 0 <= j < k < i :: transient[j] != transient[k]
    {
      var arena := new ThreadArena(runwayCursor, TA_OFFSET, TA_BASELINE, TA_SIZE, s.page);
      committed := committed + TA_BASELINE;
      transient := transient + [arena];
      runwayCursor := runwayCursor + SPACE_LENGTH;
    }
  }

  ghost predicate FreshWorker(w: WorkerContext)
    reads w, w.taskQueue, w.taskQueue.tasks, w.taskQueue.payloads
  {
    && w.taskQueue.Valid()
    && w.taskQueue.size == QueueEntries(QUEUE_SIZE)
    && w.taskQueue.Contents() == []
    && w.taskQueue.depCounterPtr == null
    && !w.isAsleep && w.sleepSemaphore == 0
  }

  method InitializeWorker(depCounter: DependencyCounter) returns (worker: WorkerContext)
    ensures fresh(worker) && fresh(worker.taskQueue)
    ensures fresh(worker.taskQueue.tasks) && fresh(worker.taskQueue.payloads)
    ensures FreshWorker(worker)
  {
    Pow2Values();
    assert QUEUE_SIZE / FIELD_SIZE == Pow2(12);
    var queue := new TaskQueue(QUEUE_SIZE, depCounter);
    worker := new WorkerContext(queue);
  }

  // The second pass: a queue for every worker.
  method InitializeWorkers(count: nat, depCounter: DependencyCounter)
    returns (workers: seq<WorkerContext>, committed: nat)
    ensures |workers| == count && committed == count * QUEUE_SIZE
    ensures Separate(workers) && forall i | 0 <= i < count :: FreshWorker(workers[i])
    ensures forall i | 0 <= i < count :: fresh(workers[i]) && fresh(workers[i].taskQueue)
  {
    workers, committed := [], 0;
    for i := 0 to count
      invariant |workers| == i && committed == i * QUEUE_SIZE
      invariant forall j | 0 <= j < i ::
                  && fresh(workers[j]) && fresh(workers[j].taskQueue)
                  && fresh(workers[j].taskQueue.tasks) && fresh(workers[j].taskQueue.payloads)
      invariant forall j | 0 <= j < i :: FreshWorker(workers[j])
      invariant Separate(workers)
    {
      var worker := InitializeWorker(depCounter);
      workers := workers + [worker];
      committed := committed + QUEUE_SIZE;
    }
  }

  lemma RequestsAddUp(s: Slab)
    requires s.threads >= 1 && 0 < s.page <= WORD
    ensures RequestedAtStart(s.threads, s.contextSize, s.page)
         == s.ContextBytes() + s.threads * TA_BASELINE + PS_BASELINE + (s.threads - 1) * QUEUE_SIZE
  {
  }

  // ThreadContext_Initialize. `committed` adds up the bytes passed to
  // Memory_Commit.
  method Initialize(s: Slab, depCounter: DependencyCounter)
    returns (transient: seq<ThreadArena>, persistent: ThreadArena, workers: seq<WorkerContext>, committed: nat)
    requires s.Valid()
    ensures 0 < s.page <= WORD && |transient| == s.threads && |workers| == s.threads - 1
    ensures forall i | 0 <= i < s.threads :: transient[i].State() == ArenaAt(s, Transient(i))
    ensures persistent.State() == ArenaAt(s, Persistent)
    ensures forall i, j | 0 <= i < j < s.threads :: transient[i] != transient[j]
    ensures persistent !in transient
    ensures Separate(workers) && forall i | 0 <= i < |workers| :: FreshWorker(workers[i])
    ensures committed == RequestedAtStart(s.threads, s.contextSize, s.page)
  {
    ContextBytesFit(s);
    RequestsAddUp(s);
    var contextBytes := s.ContextBytes();
    var forArenas, forQueues;
    transient, forArenas := InitializeTransientArenas(s, contextBytes);
    persistent := new ThreadArena(s.ThreadBase(0), PS_OFFSET, PS_BASELINE, PS_SIZE, s.page);
    workers, forQueues := InitializeWorkers(s.threads - 1, depCounter);
    committed := contextBytes + forArenas + PS_BASELINE + forQueues;
  }
}
