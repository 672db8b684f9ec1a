/** The web simulation engine (src/hooks/useThreadManager.ts). Every
    updater of the hook is a pure function from the old thread list to the
    new one; the class Engine holds the three pieces of hook state and
    applies them. Random draws and clock reads are parameters. */
module ThreadManagerHook {
  import opened ThreadTypes
  import opened Seqs
  import opened Text
  import opened Scheduler

  /** Simulated run time added per tick, in milliseconds. */
  const TickMillis: int := 1000
  /** Number of history points kept. */
  const HistoryLength: nat := 60
  const MemoryCeiling: real := 500.0
  const NameStems: seq<string> :=
    ["Worker", "Handler", "Processor", "Manager", "Service", "Task", "Runner", "Executor"]

  /** The random values `createThread` consumes: the generated id, the index
      of the name stem, the random priority, `Math.floor(Math.random() * 21)`
      for the burst, the initial CPU and memory figures, and `new Date()`. */
  datatype CreationDraws = CreationDraws(
    id: string,
    stem: nat,
    priority: ThreadPriority,
    burstSeconds: nat,
    cpu: real,
    memory: real,
    now: int)

  predicate ValidDraws(d: CreationDraws) {
    d.stem < |NameStems| && d.burstSeconds <= 20 &&
    5.0 <= d.cpu < 35.0 && 20.0 <= d.memory < 120.0
  }

  /** generateThreadName. */
  function GeneratedName(stem: nat, index: nat): (s: string)
    requires stem < |NameStems|
    ensures var n := |NameStems[stem]|;
      |s| > n + 1 && s[..n] == NameStems[stem] && s[n] == '-' &&
      (forall k :: n < k < |s| ==> IsDigit(s[k])) &&
      DigitsValue(s[n + 1..]) == index
  {
    NatToStringRoundTrip(index);
    assert (NameStems[stem] + "-" + NatToString(index))[|NameStems[stem]| + 1..] == NatToString(index);
    NameStems[stem] + "-" + NatToString(index)
  }

  /** The thread `createThread` builds; `count` is the incremented
      threadCountRef. `name || generated` and `customBurstTime || random`
      treat "" and 0 as absent. */
  function NewThread(customName: Option<string>, priority: Option<ThreadPriority>,
                     customBurstTime: Option<int>, parentId: Option<string>,
                     count: nat, d: CreationDraws): (t: Thread)
    requires ValidDraws(d)
    ensures t.state == Running && t.executionTime == 0
    ensures t.id == d.id && t.parentId == parentId && t.startTime == d.now
    ensures t.name != ""
    ensures customName.Some? && customName.value != "" ==> t.name == customName.value
    ensures !(customName.Some? && customName.value != "") ==> t.name == GeneratedName(d.stem, count)
    ensures priority.Some? ==> t.priority == priority.value
    ensures t.burstTime != 0
    ensures customBurstTime.Some? && customBurstTime.value != 0 ==> t.burstTime == customBurstTime.value
    ensures !(customBurstTime.Some? && customBurstTime.value != 0) ==>
              10000 <= t.burstTime <= 30000 && t.burstTime % 1000 == 0
    ensures 5.0 <= t.cpuUsage < 35.0 && 20.0 <= t.memoryUsage < 120.0
  {
    var burst := if customBurstTime.Some? && customBurstTime.value != 0 then customBurstTime.value
                 else (d.burstSeconds + 10) * 1000;
    Thread(
      d.id,
      if customName.Some? && customName.value != "" then customName.value else GeneratedName(d.stem, count),
      Running,
      if priority.Some? then priority.value else d.priority,
      d.cpu,
      d.memory,
      d.now,
      0,
      burst,
      parentId)
  }

  function Survives(id: string): Thread -> bool {
    (t: Thread) => t.id != id && t.parentId != Some(id)
  }

  /** deleteThread: drops the thread and its direct children. */
  function DeleteWithChildren(ts: seq<Thread>, id: string): (r: seq<Thread>)
    ensures |r| <= |ts|
    ensures forall t :: t in r <==> t in ts && t.id != id && t.parentId != Some(id)
  {
    Filter(ts, Survives(id))
  }

  /** Deletion keeps the survivors in their order: it distributes over any
      split of the list. */
  lemma DeleteKeepsOrder(a: seq<Thread>, b: seq<Thread>, id: string)
    ensures DeleteWithChildren(a + b, id) == DeleteWithChildren(a, id) + DeleteWithChildren(b, id)
  {
    FilterConcat(a, b, Survives(id));
  }

  /** An id that names no thread and no parent changes nothing, and deleting
      twice is deleting once. */
  lemma DeleteUnknownAndIdempotent(ts: seq<Thread>, id: string)
    ensures (forall k :: 0 <= k < |ts| ==> ts[k].id != id && ts[k].parentId != Some(id)) ==>
              DeleteWithChildren(ts, id) == ts
    ensures DeleteWithChildren(DeleteWithChildren(ts, id), id) == DeleteWithChildren(ts, id)
  {
    if forall k :: 0 <= k < |ts| ==> ts[k].id != id && ts[k].parentId != Some(id) {
      FilterKeepsAll(ts, Survives(id));
    }
    var r := DeleteWithChildren(ts, id);
    assert forall k :: 0 <= k < |r| ==> Survives(id)(r[k]) by {
      forall k | 0 <= k < |r| ensures Survives(id)(r[k]) {
        assert r[k] in r;
      }
    }
    FilterKeepsAll(r, Survives(id));
  }

  /** Only direct children go: a grandchild (whose parent is a child) stays. */
  lemma DeleteSparesGrandchildren(ts: seq<Thread>, id: string, child: Thread, grandchild: Thread)
    requires child in ts && grandchild in ts
    requires child.parentId == Some(id) && child.id != id
    requires grandchild.parentId == Some(child.id) && grandchild.id != id
    ensures child !in DeleteWithChildren(ts, id)
    ensures grandchild in DeleteWithChildren(ts, id)
  {
  }

  /** updateThreadState: sets the state of every thread with the id, with no
      transition check and no change to cpuUsage. */
  function SetState(ts: seq<Thread>, id: string, s: ThreadState): (r: seq<Thread>)
    ensures |r| == |ts|
    ensures forall k :: 0 <= k < |ts| ==> r[k].(state := ts[k].state) == ts[k]
    ensures forall k :: 0 <= k < |ts| ==> r[k].state == (if ts[k].id == id then s else ts[k].state)
  {
    seq(|ts|, k requires 0 <= k < |ts| => if ts[k].id == id then ts[k].(state := s) else ts[k])
  }

  /** updateThreadPriority: changes only the priority of matching threads. */
  function SetPriority(ts: seq<Thread>, id: string, p: ThreadPriority): (r: seq<Thread>)
    ensures |r| == |ts|
    ensures forall k :: 0 <= k < |ts| ==> r[k].(priority := ts[k].priority) == ts[k]
    ensures forall k :: 0 <= k < |ts| ==> r[k].priority == (if ts[k].id == id then p else ts[k].priority)
  {
    seq(|ts|, k requires 0 <= k < |ts| => if ts[k].id == id then ts[k].(priority := p) else ts[k])
  }

  /** Single-thread commands: the last one wins, so repeating a command is
      harmless and pause-then-resume of a running thread restores it. */
  lemma SetStateLastWins(ts: seq<Thread>, id: string, s1: ThreadState, s2: ThreadState)
    ensures SetState(SetState(ts, id, s1), id, s2) == SetState(ts, id, s2)
    ensures (forall k :: 0 <= k < |ts| && ts[k].id == id ==> ts[k].state == Running) ==>
              SetState(SetState(ts, id, Paused), id, Running) == ts
  {
    if forall k :: 0 <= k < |ts| && ts[k].id == id ==> ts[k].state == Running {
      var r := SetState(SetState(ts, id, Paused), id, Running);
      forall k | 0 <= k < |ts| ensures r[k] == ts[k] {
      }
    }
  }

  /** pauseAllThreads: running becomes paused, nothing else changes. */
  function PauseAll(ts: seq<Thread>): (r: seq<Thread>)
    ensures |r| == |ts| && forall k :: 0 <= k < |ts| ==> r[k].id == ts[k].id && r[k].state != Running
    ensures forall k :: 0 <= k < |ts| ==> (r[k].state == Paused <==> ts[k].state in {Running, Paused})
  {
    seq(|ts|, k requires 0 <= k < |ts| => if ts[k].state == Running then ts[k].(state := Paused) else ts[k])
  }

  /** resumeAllThreads: paused becomes running, nothing else changes. */
  function ResumeAll(ts: seq<Thread>): (r: seq<Thread>)
    ensures |r| == |ts| && forall k :: 0 <= k < |ts| ==> r[k].id == ts[k].id && r[k].state != Paused
    ensures forall k :: 0 <= k < |ts| ==> (r[k].state == Running <==> ts[k].state in {Running, Paused})
  {
    seq(|ts|, k requires 0 <= k < |ts| => if ts[k].state == Paused then ts[k].(state := Running) else ts[k])
  }

  /** stopAllThreads: every thread becomes stopped, completed ones included. */
  function StopAll(ts: seq<Thread>): (r: seq<Thread>)
    ensures |r| == |ts| && forall k :: 0 <= k < |ts| ==> r[k].id == ts[k].id && r[k].state == Stopped
  {
    seq(|ts|, k requires 0 <= k < |ts| => ts[k].(state := Stopped))
  }

  /** The bulk commands only ever touch the state field, and only of the
      threads they are meant for. */
  lemma BulkCommandsTouchOnlyState(ts: seq<Thread>, k: nat)
    requires k < |ts|
    ensures PauseAll(ts)[k].(state := ts[k].state) == ts[k]
    ensures ResumeAll(ts)[k].(state := ts[k].state) == ts[k]
    ensures StopAll(ts)[k].(state := ts[k].state) == ts[k]
    ensures PauseAll(ts)[k].state == (if ts[k].state == Running then Paused else ts[k].state)
    ensures ResumeAll(ts)[k].state == (if ts[k].state == Paused then Running else ts[k].state)
    ensures StopAll(ts)[k].state == Stopped
  {
  }

  /** Pause-all followed by resume-all is resume-all, and the other way
      round; each is idempotent; stop-all absorbs both. */
  lemma BulkCommandLaws(ts: seq<Thread>)
    ensures ResumeAll(PauseAll(ts)) == ResumeAll(ts)
    ensures PauseAll(ResumeAll(ts)) == PauseAll(ts)
    ensures PauseAll(PauseAll(ts)) == PauseAll(ts)
    ensures ResumeAll(ResumeAll(ts)) == ResumeAll(ts)
    ensures StopAll(PauseAll(ts)) == StopAll(ts) && StopAll(ResumeAll(ts)) == StopAll(ts)
  {
  }

  // ---------------------------------------------------------------- tick

  /** `(Math.random() - 0.5) * 10` per thread, and the C++ uniform draw
      from [-5, 5). */
  predicate ValidVariances(vs: seq<real>, n: nat) {
    |vs| == n && forall k :: 0 <= k < n ==> -5.0 <= vs[k] < 5.0
  }

  /** `(Math.random() - 0.5) * 5` per thread. */
  predicate ValidNoises(ns: seq<real>, n: nat) {
    |ns| == n && forall k :: 0 <= k < n ==> -2.5 <= ns[k] < 2.5
  }

  /** One thread's update inside the interval callback; `running` is the
      pre-tick list of running threads. */
  function TickThread(t: Thread, running: seq<Thread>, variance: real, noise: real): Thread
    requires -5.0 <= variance < 5.0
  {
    if t.state != Running then t
    else if t.executionTime + TickMillis >= t.burstTime then
      t.(state := Completed, cpuUsage := 0.0, executionTime := t.burstTime)
    else
      t.(cpuUsage := CpuShare(t, running, variance),
         memoryUsage := Clamp(t.memoryUsage + noise, 0.0, MemoryCeiling),
         executionTime := t.executionTime + TickMillis)
  }

  /** The `setThreads` updater of one tick: every thread is updated against
      the same pre-tick running list. */
  function TickThreads(ts: seq<Thread>, variances: seq<real>, noises: seq<real>): (r: seq<Thread>)
    requires ValidVariances(variances, |ts|) && ValidNoises(noises, |ts|)
    ensures |r| == |ts|
    ensures forall k :: 0 <= k < |ts| ==> r[k].id == ts[k].id && r[k].burstTime == ts[k].burstTime
    ensures forall k :: 0 <= k < |ts| && ts[k].state != Running ==> r[k] == ts[k]
    ensures forall k :: 0 <= k < |ts| && ts[k].state == Running ==> r[k].state in {Running, Completed}
  {
    var running := Filter(ts, IsRunning);
    seq(|ts|, k requires 0 <= k < |ts| => TickThread(ts[k], running, variances[k], noises[k]))
  }

  /** What a tick does to the thread at position k: identity fields never
      change, a thread that is not running is left identical, a running
      thread either completes (cpu 0, executionTime clamped to burstTime) or
      advances by one tick with a share near its base share and memory
      nudged by at most the noise within [0, 500]. */
  lemma TickAt(ts: seq<Thread>, variances: seq<real>, noises: seq<real>, k: nat)
    requires ValidVariances(variances, |ts|) && ValidNoises(noises, |ts|)
    requires k < |ts|
    ensures var t, u := ts[k], TickThreads(ts, variances, noises)[k];
      u.id == t.id && u.name == t.name && u.priority == t.priority && u.startTime == t.startTime &&
      u.burstTime == t.burstTime && u.parentId == t.parentId &&
      (t.state != Running ==> u == t) &&
      (t.state == Running && t.executionTime + 1000 >= t.burstTime ==>
         u.state == Completed && u.cpuUsage == 0.0 && u.executionTime == t.burstTime &&
         u.memoryUsage == t.memoryUsage) &&
      (t.state == Running && t.executionTime + 1000 < t.burstTime ==>
         u.state == Running && u.executionTime == t.executionTime + 1000 &&
         TotalWeight(ts) > 0 && -5.0 <= u.cpuUsage - BaseShare(t, ts) <= 5.0 && 0.0 <= u.cpuUsage <= 100.0 &&
         0.0 <= u.memoryUsage <= 500.0 &&
         (0.0 <= t.memoryUsage <= 500.0 ==> -2.5 <= u.memoryUsage - t.memoryUsage < 2.5))
  {
    var t := ts[k];
    var running := Filter(ts, IsRunning);
    if t.state == Running && t.executionTime + 1000 < t.burstTime {
      assert t in running;
      RunningListHasSameWeight(ts);
      ShareWithinVarianceOfBase(t, running, variances[k]);
    }
  }

  /** Filtering the running threads again does not change the total weight,
      so a share computed against the running list equals one computed
      against the full list. */
  lemma RunningListHasSameWeight(ts: seq<Thread>)
    ensures TotalWeight(Filter(ts, IsRunning)) == TotalWeight(ts)
  {
    var running := Filter(ts, IsRunning);
    FilterKeepsAll(running, IsRunning);
  }

  /** A tick preserves executionTime <= burstTime and, under it, never
      decreases executionTime. */
  lemma TickKeepsExecutionWithinBurst(ts: seq<Thread>, variances: seq<real>, noises: seq<real>)
    requires ValidVariances(variances, |ts|) && ValidNoises(noises, |ts|)
    requires forall k :: 0 <= k < |ts| ==> ts[k].executionTime <= ts[k].burstTime
    ensures var r := TickThreads(ts, variances, noises);
      forall k :: 0 <= k < |r| ==> ts[k].executionTime <= r[k].executionTime <= r[k].burstTime
  {
    var r := TickThreads(ts, variances, noises);
    forall k | 0 <= k < |r| ensures ts[k].executionTime <= r[k].executionTime <= r[k].burstTime {
      TickAt(ts, variances, noises, k);
    }
  }

  // ------------------------------------------------------------- history

  /** `reduce((acc, t) => t.state === 'running' ? acc + t.cpuUsage : acc, 0)`. */
  function RunningCpu(ts: seq<Thread>): (r: real)
    ensures CpuNonNegative(ts) ==> r >= 0.0
    ensures Filter(ts, IsRunning) == [] ==> r == 0.0
  {
    if ts == [] then 0.0 else (if IsRunning(ts[0]) then ts[0].cpuUsage else 0.0) + RunningCpu(ts[1..])
  }

  function SumCpu(ts: seq<Thread>): real {
    if ts == [] then 0.0 else ts[0].cpuUsage + SumCpu(ts[1..])
  }

  /** `reduce((acc, t) => acc + t.memoryUsage, 0)`. */
  function TotalMemory(ts: seq<Thread>): real {
    if ts == [] then 0.0 else ts[0].memoryUsage + TotalMemory(ts[1..])
  }

  /** The conditional sum is the sum over the running threads only. */
  lemma {:induction false} RunningCpuConcat(a: seq<Thread>, b: seq<Thread>)
    ensures RunningCpu(a + b) == RunningCpu(a) + RunningCpu(b)
    ensures TotalMemory(a + b) == TotalMemory(a) + TotalMemory(b)
  {
    if a == [] {
      assert a + b == b;
    } else {
      assert (a + b)[0] == a[0] && (a + b)[1..] == a[1..] + b;
      RunningCpuConcat(a[1..], b);
    }
  }

  lemma CountConcat(a: seq<Thread>, b: seq<Thread>, s: ThreadState)
    ensures Count(a + b, s) == Count(a, s) + Count(b, s)
  {
    FilterConcat(a, b, InState(s));
  }

  lemma {:induction false} RunningCpuIsSumOverRunning(ts: seq<Thread>)
    ensures RunningCpu(ts) == SumCpu(Filter(ts, IsRunning))
  {
    if ts != [] {
      RunningCpuIsSumOverRunning(ts[1..]);
    }
  }

  predicate CpuNonNegative(ts: seq<Thread>) {
    forall k :: 0 <= k < |ts| ==> ts[k].cpuUsage >= 0.0
  }

  /** The point appended by one tick, computed from the pre-tick threads. */
  function HistoryPoint(ts: seq<Thread>, now: int): (p: CpuDataPoint)
    ensures p.timestamp == now
    ensures RunningCpu(ts) <= 100.0 ==> p.usage == RunningCpu(ts)
    ensures RunningCpu(ts) >= 100.0 ==> p.usage == 100.0
    ensures CpuNonNegative(ts) ==> 0.0 <= p.usage <= 100.0
    ensures p.threadCount == |Filter(ts, IsRunning)|
  {
    CpuDataPoint(now, MinReal(100.0, RunningCpu(ts)), |Filter(ts, IsRunning)|)
  }

  /** `[...prev, point].slice(-60)`. */
  function PushHistory(h: seq<CpuDataPoint>, p: CpuDataPoint): (r: seq<CpuDataPoint>)
    ensures |r| == if |h| + 1 <= HistoryLength then |h| + 1 else HistoryLength
    ensures r[|r| - 1] == p
    ensures |h| < HistoryLength ==> r == h + [p]
    ensures |h| >= HistoryLength ==> r == h[|h| + 1 - HistoryLength..] + [p]
  {
    var all := h + [p];
    var cut := if |all| > HistoryLength then |all| - HistoryLength else 0;
    assert all[cut..] == if |h| < HistoryLength then h + [p] else h[cut..] + [p];
    all[cut..]
  }

  /** A full history drops exactly its oldest point. */
  lemma PushHistoryFifo(h: seq<CpuDataPoint>, p: CpuDataPoint)
    requires |h| == HistoryLength
    ensures PushHistory(h, p) == h[1..] + [p]
    ensures PushHistory(h, p)[..HistoryLength - 1] == h[1..]
  {
  }

  // --------------------------------------------------------------- stats

  function InState(s: ThreadState): Thread -> bool {
    (t: Thread) => t.state == s
  }

  /** `threads.filter(t => t.state === s).length`. */
  function Count(ts: seq<Thread>, s: ThreadState): nat {
    |Filter(ts, InState(s))|
  }

  /** The states of the threads, in list order. */
  function States(ts: seq<Thread>): (r: seq<ThreadState>)
    ensures |r| == |ts| && forall k :: 0 <= k < |ts| ==> r[k] == ts[k].state
  {
    seq(|ts|, k requires 0 <= k < |ts| => ts[k].state)
  }

  /** Filtering by a state counts that state's occurrences. */
  lemma {:induction false} CountIsMultiplicity(ts: seq<Thread>, s: ThreadState)
    ensures Count(ts, s) == multiset(States(ts))[s]
  {
    if ts != [] {
      CountIsMultiplicity(ts[1..], s);
      assert States(ts) == [ts[0].state] + States(ts[1..]);
    }
  }

  /** getSystemStats. */
  function Stats(ts: seq<Thread>): (r: SystemStats)
    ensures r.totalThreads == |ts|
    ensures r.runningThreads + r.pausedThreads + r.stoppedThreads + r.waitingThreads + r.completedThreads ==
            r.totalThreads
    ensures r.runningThreads == multiset(States(ts))[Running]
    ensures r.pausedThreads == multiset(States(ts))[Paused]
    ensures r.stoppedThreads == multiset(States(ts))[Stopped]
    ensures r.waitingThreads == multiset(States(ts))[Waiting]
    ensures r.completedThreads == multiset(States(ts))[Completed]
    ensures r.totalCpuUsage == SumCpu(Filter(ts, IsRunning))
    ensures r.totalMemoryUsage == TotalMemory(ts)
  {
    CountsSumToLength(ts);
    RunningCpuIsSumOverRunning(ts);
    CountIsMultiplicity(ts, Running);
    CountIsMultiplicity(ts, Paused);
    CountIsMultiplicity(ts, Stopped);
    CountIsMultiplicity(ts, Waiting);
    CountIsMultiplicity(ts, Completed);
    SystemStats(
      |ts|,
      Count(ts, Running),
      Count(ts, Paused),
      Count(ts, Stopped),
      Count(ts, Waiting),
      Count(ts, Completed),
      RunningCpu(ts),
      TotalMemory(ts))
  }

  lemma {:induction false} CountsSumToLength(ts: seq<Thread>)
    ensures Count(ts, Running) + Count(ts, Paused) + Count(ts, Stopped) + Count(ts, Waiting) +
            Count(ts, Completed) == |ts|
  {
    if ts != [] {
      CountsSumToLength(ts[1..]);
    }
  }

  /** Running threads are counted by the same filter the scheduler uses. */
  lemma {:induction false} CountRunningIsRunningList(ts: seq<Thread>)
    ensures Count(ts, Running) == |Filter(ts, IsRunning)|
  {
    if ts != [] {
      CountRunningIsRunningList(ts[1..]);
    }
  }

  lemma {:induction false} CountPointwise(a: seq<Thread>, b: seq<Thread>, s: ThreadState, moved: ThreadState)
    requires |a| == |b|
    requires forall k :: 0 <= k < |a| ==> (b[k].state == s <==> a[k].state == s || a[k].state == moved)
    requires s != moved
    ensures Count(b, s) == Count(a, s) + Count(a, moved)
  {
    if a != [] {
      CountPointwise(a[1..], b[1..], s, moved);
    }
  }

  lemma {:induction false} CountSame(a: seq<Thread>, b: seq<Thread>, s: ThreadState)
    requires |a| == |b|
    requires forall k :: 0 <= k < |a| ==> (b[k].state == s <==> a[k].state == s)
    ensures Count(b, s) == Count(a, s)
  {
    if a != [] {
      CountSame(a[1..], b[1..], s);
    }
  }

  lemma {:induction false} CountNone(a: seq<Thread>, s: ThreadState)
    requires forall k :: 0 <= k < |a| ==> a[k].state != s
    ensures Count(a, s) == 0
  {
    if a != [] {
      CountNone(a[1..], s);
    }
  }

  /** After pause-all nothing runs and the former running threads are
      counted as paused; after stop-all every thread counts as stopped. */
  lemma BulkCommandStats(ts: seq<Thread>)
    ensures Stats(PauseAll(ts)).runningThreads == 0
    ensures Stats(PauseAll(ts)).pausedThreads == Stats(ts).pausedThreads + Stats(ts).runningThreads
    ensures Stats(PauseAll(ts)).completedThreads == Stats(ts).completedThreads
    ensures Stats(ResumeAll(ts)).pausedThreads == 0
    ensures Stats(ResumeAll(ts)).runningThreads == Stats(ts).runningThreads + Stats(ts).pausedThreads
    ensures Stats(StopAll(ts)).stoppedThreads == |ts|
  {
    var p, r, s := PauseAll(ts), ResumeAll(ts), StopAll(ts);
    CountNone(p, Running);
    CountPointwise(ts, p, Paused, Running);
    CountSame(ts, p, Completed);
    CountNone(r, Paused);
    CountPointwise(ts, r, Running, Paused);
    CountsSumToLength(s);
    CountNone(s, Running);
    CountNone(s, Paused);
    CountNone(s, Waiting);
    CountNone(s, Completed);
  }

  /** A tick only moves running threads to completed: the number of threads
      that are running or completed is unchanged, and the other three counts
      are untouched. */
  lemma TickStats(ts: seq<Thread>, variances: seq<real>, noises: seq<real>)
    requires ValidVariances(variances, |ts|) && ValidNoises(noises, |ts|)
    ensures var before, after := Stats(ts), Stats(TickThreads(ts, variances, noises));
      after.totalThreads == before.totalThreads &&
      after.runningThreads + after.completedThreads == before.runningThreads + before.completedThreads &&
      after.completedThreads >= before.completedThreads &&
      after.pausedThreads == before.pausedThreads &&
      after.stoppedThreads == before.stoppedThreads &&
      after.waitingThreads == before.waitingThreads
  {
    var r := TickThreads(ts, variances, noises);
    forall k | 0 <= k < |ts|
      ensures r[k].state == ts[k].state || (ts[k].state == Running && r[k].state == Completed)
    {
      TickAt(ts, variances, noises, k);
    }
    CountSame(ts, r, Paused);
    CountSame(ts, r, Stopped);
    CountSame(ts, r, Waiting);
    CountsSumToLength(ts);
    CountsSumToLength(r);
    CompletedGrows(ts, r);
  }

  lemma {:induction false} CompletedGrows(a: seq<Thread>, b: seq<Thread>)
    requires |a| == |b|
    requires forall k :: 0 <= k < |a| ==> b[k].state == a[k].state || (a[k].state == Running && b[k].state == Completed)
    ensures Count(b, Completed) >= Count(a, Completed)
  {
    if a != [] {
      CompletedGrows(a[1..], b[1..]);
    }
  }

  // -------------------------------------------------------------- engine

  /** The figures every thread keeps within their documented ranges. */
  predicate InRange(t: Thread) {
    0.0 <= t.cpuUsage <= 100.0 && 0.0 <= t.memoryUsage <= MemoryCeiling
  }

  /** The hook's state: `threads`, `cpuHistory`, `isSimulationRunning` and
      the `threadCountRef` counter that numbers generated names. */
  class Engine {
    var threads: seq<Thread>
    var cpuHistory: seq<CpuDataPoint>
    var isSimulationRunning: bool
    var threadCount: nat

    ghost predicate Valid()
      reads this
    {
      |cpuHistory| <= HistoryLength &&
      (forall k :: 0 <= k < |cpuHistory| ==> 0.0 <= cpuHistory[k].usage <= 100.0) &&
      (forall k :: 0 <= k < |threads| ==> InRange(threads[k]))
    }

    constructor ()
      ensures Valid()
      ensures threads == [] && cpuHistory == [] && isSimulationRunning && threadCount == 0
    {
      threads, cpuHistory, isSimulationRunning, threadCount := [], [], true, 0;
    }

    method CreateThread(customName: Option<string>, priority: Option<ThreadPriority>,
                        customBurstTime: Option<int>, parentId: Option<string>, d: CreationDraws)
      returns (t: Thread)
      requires Valid() && ValidDraws(d)
      modifies this
      ensures Valid()
      ensures threadCount == old(threadCount) + 1
      ensures t == NewThread(customName, priority, customBurstTime, parentId, threadCount, d)
      ensures threads == old(threads) + [t]
      ensures cpuHistory == old(cpuHistory) && isSimulationRunning == old(isSimulationRunning)
    {
      threadCount := threadCount + 1;
      t := NewThread(customName, priority, customBurstTime, parentId, threadCount, d);
      threads := threads + [t];
    }

    method DeleteThread(id: string)
      requires Valid()
      modifies this
      ensures Valid()
      ensures threads == DeleteWithChildren(old(threads), id)
      ensures cpuHistory == old(cpuHistory) && isSimulationRunning == old(isSimulationRunning)
      ensures threadCount == old(threadCount)
    {
      threads := DeleteWithChildren(threads, id);
      forall k | 0 <= k < |threads| ensures InRange(threads[k]) {
        assert threads[k] in old(threads);
      }
    }

    method UpdateThreadState(id: string, s: ThreadState)
      requires Valid()
      modifies this
      ensures Valid()
      ensures threads == SetState(old(threads), id, s)
      ensures cpuHistory == old(cpuHistory) && isSimulationRunning == old(isSimulationRunning)
      ensures threadCount == old(threadCount)
    {
      threads := SetState(threads, id, s);
    }

    method UpdateThreadPriority(id: string, p: ThreadPriority)
      requires Valid()
      modifies this
      ensures Valid()
      ensures threads == SetPriority(old(threads), id, p)
      ensures cpuHistory == old(cpuHistory) && isSimulationRunning == old(isSimulationRunning)
      ensures threadCount == old(threadCount)
    {
      threads := SetPriority(threads, id, p);
    }

    method PauseThread(id: string)
      requires Valid()
      modifies this
      ensures Valid() && threads == SetState(old(threads), id, Paused)
      ensures cpuHistory == old(cpuHistory) && isSimulationRunning == old(isSimulationRunning)
      ensures threadCount == old(threadCount)
    {
      UpdateThreadState(id, Paused);
    }

    method ResumeThread(id: string)
      requires Valid()
      modifies this
      ensures Valid() && threads == SetState(old(threads), id, Running)
      ensures cpuHistory == old(cpuHistory) && isSimulationRunning == old(isSimulationRunning)
      ensures threadCount == old(threadCount)
    {
      UpdateThreadState(id, Running);
    }

    method StopThread(id: string)
      requires Valid()
      modifies this
      ensures Valid() && threads == SetState(old(threads), id, Stopped)
      ensures cpuHistory == old(cpuHistory) && isSimulationRunning == old(isSimulationRunning)
      ensures threadCount == old(threadCount)
    {
      UpdateThreadState(id, Stopped);
    }

    method PauseAllThreads()
      requires Valid()
      modifies this
      ensures Valid() && threads == PauseAll(old(threads))
      ensures cpuHistory == old(cpuHistory) && isSimulationRunning == old(isSimulationRunning)
      ensures threadCount == old(threadCount)
    {
      threads := PauseAll(threads);
    }

    method ResumeAllThreads()
      requires Valid()
      modifies this
      ensures Valid() && threads == ResumeAll(old(threads))
      ensures cpuHistory == old(cpuHistory) && isSimulationRunning == old(isSimulationRunning)
      ensures threadCount == old(threadCount)
    {
      threads := ResumeAll(threads);
    }

    method StopAllThreads()
      requires Valid()
      modifies this
      ensures Valid() && threads == StopAll(old(threads))
      ensures cpuHistory == old(cpuHistory) && isSimulationRunning == old(isSimulationRunning)
      ensures threadCount == old(threadCount)
    {
      threads := StopAll(threads);
    }

    method ToggleSimulation()
      requires Valid()
      modifies this
      ensures Valid() && isSimulationRunning == !old(isSimulationRunning)
      ensures threads == old(threads) && cpuHistory == old(cpuHistory) && threadCount == old(threadCount)
    {
      isSimulationRunning := !isSimulationRunning;
    }

    /** One firing of the interval. While the simulation is toggled off no
        interval exists, so nothing happens. */
    method Tick(variances: seq<real>, noises: seq<real>, now: int)
      requires Valid() && ValidVariances(variances, |threads|) && ValidNoises(noises, |threads|)
      modifies this
      ensures Valid()
      ensures isSimulationRunning == old(isSimulationRunning) && threadCount == old(threadCount)
      ensures old(isSimulationRunning) ==>
                threads == TickThreads(old(threads), variances, noises) &&
                cpuHistory == PushHistory(old(cpuHistory), HistoryPoint(old(threads), now))
      ensures !old(isSimulationRunning) ==> threads == old(threads) && cpuHistory == old(cpuHistory)
    {
      if isSimulationRunning {
        var before := threads;
        threads := TickThreads(before, variances, noises);
        cpuHistory := PushHistory(cpuHistory, HistoryPoint(before, now));
        forall k | 0 <= k < |threads| ensures InRange(threads[k]) {
          TickAt(before, variances, noises, k);
        }
      }
    }

    method GetSystemStats() returns (s: SystemStats)
      ensures s == Stats(threads)
    {
      s := Stats(threads);
    }
  }
}
