/** The records shared by the scheduler and the simulation engine
    (src/types/thread.ts). Times are integer milliseconds; CPU and memory
    figures are exact reals. */
module ThreadTypes {

  datatype Option<T> = None | Some(value: T)

  /** Exactly five lifecycle states. */
  datatype ThreadState = Running | Paused | Stopped | Waiting | Completed

  /** Exactly four priority tiers. */
  datatype ThreadPriority = Low | Medium | High | Critical

  /** A simulated thread. `startTime` is the creation instant in epoch
      milliseconds; `executionTime` is the run time accumulated so far and
      `burstTime` the total it needs to complete. `parentId` is optional. */
  datatype Thread = Thread(
    id: string,
    name: string,
    state: ThreadState,
    priority: ThreadPriority,
    cpuUsage: real,
    memoryUsage: real,
    startTime: int,
    executionTime: int,
    burstTime: int,
    parentId: Option<string>)

  /** One entry of the CPU history. */
  datatype CpuDataPoint = CpuDataPoint(timestamp: int, usage: real, threadCount: nat)

  /** Aggregate figures: one count per state plus the totals. */
  datatype SystemStats = SystemStats(
    totalThreads: nat,
    runningThreads: nat,
    pausedThreads: nat,
    stoppedThreads: nat,
    waitingThreads: nat,
    completedThreads: nat,
    totalCpuUsage: real,
    totalMemoryUsage: real)

  function MinReal(a: real, b: real): (r: real)
    ensures r <= a && r <= b && (r == a || r == b)
  {
    if a <= b then a else b
  }

  function MaxReal(a: real, b: real): (r: real)
    ensures r >= a && r >= b && (r == a || r == b)
  {
    if a >= b then a else b
  }

  /** `Math.max(lo, Math.min(hi, x))`, the clamp both implementations use. */
  function Clamp(x: real, lo: real, hi: real): (r: real)
    requires lo <= hi
    ensures lo <= r <= hi
    ensures lo <= x <= hi ==> r == x
    ensures x > hi ==> r == hi
    ensures x < lo ==> r == lo
  {
    MaxReal(lo, MinReal(hi, x))
  }
}
