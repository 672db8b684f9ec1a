/** The stand-alone engine (public/thread_manager.cpp): the PriorityScheduler
    helpers and the ThreadManager class that mutates its thread vector in
    place. Shares, counts and sums are specified by the web engine's
    definitions applied to the projected records, so each loop here is
    proved to compute what the other implementation computes. */
module CppThreadManager {
  import opened ThreadTypes
  import opened Text
  import opened Seqs
  import opened Scheduler
  import Hook = ThreadManagerHook

  /** The manager's `timeQuantum` field: simulated milliseconds per step. */
  const ManagerQuantum: int := 1000
  /** The default `parentId`, meaning "no parent". */
  const NoParent: int := -1

  /** ThreadInfo. `parentId` is -1 when the thread has no parent. */
  datatype ThreadInfo = ThreadInfo(
    id: int,
    name: string,
    state: ThreadState,
    priority: ThreadPriority,
    cpuUsage: real,
    memoryUsage: real,
    startTime: int,
    executionTime: int,
    burstTime: int,
    parentId: int)

  /** The same thread as a web-engine record (ids in decimal). */
  function ToTs(t: ThreadInfo): (r: Thread)
    ensures r.state == t.state && r.priority == t.priority && r.cpuUsage == t.cpuUsage
    ensures r.memoryUsage == t.memoryUsage && r.executionTime == t.executionTime && r.burstTime == t.burstTime
  {
    Thread(IntToString(t.id), t.name, t.state, t.priority, t.cpuUsage, t.memoryUsage, t.startTime,
           t.executionTime, t.burstTime, if t.parentId == NoParent then None else Some(IntToString(t.parentId)))
  }

  function Project(ts: seq<ThreadInfo>): (r: seq<Thread>)
    ensures |r| == |ts| && forall k :: 0 <= k < |ts| ==> r[k] == ToTs(ts[k])
  {
    seq(|ts|, k requires 0 <= k < |ts| => ToTs(ts[k]))
  }

  lemma ProjectSnoc(ts: seq<ThreadInfo>, i: nat)
    requires i < |ts|
    ensures Project(ts[..i + 1]) == Project(ts[..i]) + [ToTs(ts[i])]
  {
  }

  // ---------------------------------------------------- PriorityScheduler

  /** calculateCpuShare: the same formula as the web scheduler, with the
      total weight accumulated by a loop. `variance` stands for the
      uniform draw from [-5, 5). */
  method CalculateCpuShare(t: ThreadInfo, all: seq<ThreadInfo>, variance: real) returns (share: real)
    requires -5.0 <= variance < 5.0
    ensures share == CpuShare(ToTs(t), Project(all), variance)
    ensures 0.0 <= share <= 100.0
    ensures t.state != Running ==> share == 0.0
  {
    if t.state != Running {
      return 0.0;
    }
    var totalWeight := 0;
    for i := 0 to |all|
      invariant totalWeight == TotalWeight(Project(all[..i]))
    {
      ProjectSnoc(all, i);
      TotalWeightSnoc(Project(all[..i]), ToTs(all[i]));
      if all[i].state == Running {
        totalWeight := totalWeight + Weight(all[i].priority);
      }
    }
    assert all[..|all|] == all;
    if totalWeight == 0 {
      return 0.0;
    }
    var baseShare := (Weight(t.priority) as real / totalWeight as real) * 100.0;
    share := MaxReal(0.0, MinReal(100.0, baseShare + variance));
  }

  /** The sort comparator: higher priority first, then less executionTime. */
  predicate Before(a: ThreadInfo, b: ThreadInfo) {
    if Weight(a.priority) != Weight(b.priority) then Weight(a.priority) > Weight(b.priority)
    else a.executionTime < b.executionTime
  }

  /** The indices of the RUNNING threads, in vector order (the copy loop
      of getNextThread). */
  method RunningIndices(ts: seq<ThreadInfo>) returns (running: seq<nat>)
    ensures forall m :: 0 <= m < |running| ==> running[m] < |ts| && ts[running[m]].state == Running
    ensures forall j :: 0 <= j < |ts| && ts[j].state == Running ==> j in running
  {
    running := [];
    for i := 0 to |ts|
      invariant forall m :: 0 <= m < |running| ==> running[m] < i && ts[running[m]].state == Running
      invariant forall j :: 0 <= j < i && ts[j].state == Running ==> j in running
    {
      if ts[i].state == Running {
        running := running + [i];
      }
    }
  }

  /** An index of `running` that no other one comes before under the
      comparator: what the head of the sorted copy is. */
  method FirstInOrder(ts: seq<ThreadInfo>, running: seq<nat>) returns (best: nat)
    requires |running| > 0 && forall m :: 0 <= m < |running| ==> running[m] < |ts|
    ensures best in running
    ensures forall m :: 0 <= m < |running| ==> !Before(ts[running[m]], ts[best])
  {
    best := running[0];
    for k := 1 to |running|
      invariant best in running
      invariant forall m :: 0 <= m < k ==> !Before(ts[running[m]], ts[best])
    {
      if Before(ts[running[k]], ts[best]) {
        best := running[k];
      }
    }
  }

  /** getNextThread: sorts a copy of the RUNNING threads by the comparator
      and takes the first. The sort is not stable, so among threads equal
      under the comparator any one may come first; the contract fixes the
      tier and the executionTime, which agree with the web scheduler's
      choice. */
  method GetNextThread(ts: seq<ThreadInfo>) returns (r: Option<nat>)
    ensures r.None? <==> forall j :: 0 <= j < |ts| ==> ts[j].state != Running
    ensures r.Some? ==> r.value < |ts| && ts[r.value].state == Running
    ensures r.Some? ==> forall j :: 0 <= j < |ts| && ts[j].state == Running ==>
              Weight(ts[j].priority) <= Weight(ts[r.value].priority) &&
              (ts[j].priority == ts[r.value].priority ==> ts[r.value].executionTime <= ts[j].executionTime)
    ensures r.None? <==> NextThread(Project(ts)).None?
    ensures r.Some? ==> NextThread(Project(ts)).value.priority == ts[r.value].priority &&
                        NextThread(Project(ts)).value.executionTime == ts[r.value].executionTime
  {
    var running := RunningIndices(ts);
    if |running| == 0 {
      NoneRunning(ts);
      return None;
    }
    var best := FirstInOrder(ts, running);
    forall j | 0 <= j < |ts| && ts[j].state == Running
      ensures !Before(ts[j], ts[best])
    {
      var m :| 0 <= m < |running| && running[m] == j;
    }
    CompareWithWebChoice(ts, best);
    BeforeIsTierThenTime(ts, best);
    r := Some(best);
  }

  lemma NoneRunning(ts: seq<ThreadInfo>)
    requires forall j :: 0 <= j < |ts| ==> ts[j].state != Running
    ensures NextThread(Project(ts)).None?
  {
    NextThreadNoneIff(Project(ts));
  }

  lemma BeforeIsTierThenTime(ts: seq<ThreadInfo>, best: nat)
    requires best < |ts|
    requires forall j :: 0 <= j < |ts| && ts[j].state == Running ==> !Before(ts[j], ts[best])
    ensures forall j :: 0 <= j < |ts| && ts[j].state == Running ==>
              Weight(ts[j].priority) <= Weight(ts[best].priority) &&
              (ts[j].priority == ts[best].priority ==> ts[best].executionTime <= ts[j].executionTime)
  {
  }

  lemma CompareWithWebChoice(ts: seq<ThreadInfo>, best: nat)
    requires best < |ts| && ts[best].state == Running
    requires forall j :: 0 <= j < |ts| && ts[j].state == Running ==> !Before(ts[j], ts[best])
    ensures NextThread(Project(ts)).Some?
    ensures NextThread(Project(ts)).value.priority == ts[best].priority
    ensures NextThread(Project(ts)).value.executionTime == ts[best].executionTime
  {
    var p := Project(ts);
    assert p[best] in p && IsRunning(p[best]);
    NextThreadNoneIff(p);
    NextThreadIsHighestLeastExecuted(p);
    var w := NextThread(p).value;
    var jw :| 0 <= jw < |p| && p[jw] == w;
    assert !Before(ts[jw], ts[best]);
    WeightFollowsPriorityOrder(w.priority, ts[best].priority);
  }

  // ------------------------------------------------- ThreadManager specs

  /** The record `emplace_back` builds: RUNNING, no CPU, no run time yet.
      An empty name becomes "Thread-<id>"; a burst time that is not
      positive is replaced by the random draw. */
  function NewThreadInfo(id: int, name: string, priority: ThreadPriority, customBurstTime: int,
                         parentId: int, randomBurst: int, memory: real, now: int): (t: ThreadInfo)
    requires 10000 <= randomBurst <= 30000 && 50.0 <= memory < 200.0
    ensures t.id == id && t.state == Running && t.priority == priority && t.parentId == parentId
    ensures t.cpuUsage == 0.0 && t.executionTime == 0 && t.startTime == now
    ensures 50.0 <= t.memoryUsage < 200.0
    ensures t.burstTime > 0
    ensures customBurstTime > 0 ==> t.burstTime == customBurstTime
    ensures customBurstTime <= 0 ==> 10000 <= t.burstTime <= 30000
    ensures name != "" ==> t.name == name
    ensures name == "" ==> t.name == "Thread-" + IntToString(id)
  {
    ThreadInfo(id, if name == "" then "Thread-" + IntToString(id) else name, Running, priority, 0.0, memory, now, 0,
               if customBurstTime > 0 then customBurstTime else randomBurst, parentId)
  }

  /** Position of the first thread with the id (what `find_if` and the
      early-returning loops locate). */
  function FindIndex(ts: seq<ThreadInfo>, id: int): (r: Option<nat>)
    ensures r.None? <==> forall j :: 0 <= j < |ts| ==> ts[j].id != id
    ensures r.Some? ==> r.value < |ts| && ts[r.value].id == id &&
                        forall j :: 0 <= j < r.value ==> ts[j].id != id
  {
    if ts == [] then None
    else if ts[0].id == id then Some(0)
    else match FindIndex(ts[1..], id)
      case None => None
      case Some(i) => Some(i + 1)
  }

  /** deleteThread's effect: erase the first thread with the id. */
  function RemoveId(ts: seq<ThreadInfo>, id: int): (r: seq<ThreadInfo>)
    ensures FindIndex(ts, id).None? ==> r == ts
    ensures FindIndex(ts, id).Some? ==>
              |r| == |ts| - 1 &&
              forall k :: 0 <= k < |r| ==> r[k] == if k < FindIndex(ts, id).value then ts[k] else ts[k + 1]
  {
    match FindIndex(ts, id)
    case None => ts
    case Some(i) => ts[..i] + ts[i + 1..]
  }

  /** The state update of one thread: STOPPED and COMPLETED zero the CPU. */
  function WithState(t: ThreadInfo, s: ThreadState): (r: ThreadInfo)
    ensures r.state == s
    ensures s == Stopped || s == Completed ==> r.cpuUsage == 0.0
    ensures s != Stopped && s != Completed ==> r.cpuUsage == t.cpuUsage
    ensures r.(state := t.state, cpuUsage := t.cpuUsage) == t
  {
    t.(state := s, cpuUsage := if s == Stopped || s == Completed then 0.0 else t.cpuUsage)
  }

  /** updateThreadState's effect on the vector. */
  function SetStateOfId(ts: seq<ThreadInfo>, id: int, s: ThreadState): (r: seq<ThreadInfo>)
    ensures |r| == |ts| && forall k :: 0 <= k < |ts| ==> r[k].id == ts[k].id
    ensures forall k :: 0 <= k < |ts| && Some(k) != FindIndex(ts, id) ==> r[k] == ts[k]
    ensures FindIndex(ts, id).Some? ==> r[FindIndex(ts, id).value] == WithState(ts[FindIndex(ts, id).value], s)
  {
    match FindIndex(ts, id)
    case None => ts
    case Some(i) => ts[i := WithState(ts[i], s)]
  }

  /** updateThreadPriority's effect on the vector. */
  function SetPriorityOfId(ts: seq<ThreadInfo>, id: int, p: ThreadPriority): (r: seq<ThreadInfo>)
    ensures |r| == |ts| && forall k :: 0 <= k < |ts| ==> r[k].id == ts[k].id
    ensures forall k :: 0 <= k < |ts| && Some(k) != FindIndex(ts, id) ==> r[k] == ts[k]
    ensures FindIndex(ts, id).Some? ==> var i := FindIndex(ts, id).value;
              r[i] == ts[i].(priority := p) && r[i].priority == p
  {
    match FindIndex(ts, id)
    case None => ts
    case Some(i) => ts[i := ts[i].(priority := p)]
  }

  function PauseOne(t: ThreadInfo): ThreadInfo {
    if t.state == Running then t.(state := Paused) else t
  }

  function ResumeOne(t: ThreadInfo): ThreadInfo {
    if t.state == Paused then t.(state := Running) else t
  }

  function StopOne(t: ThreadInfo): ThreadInfo {
    if t.state != Completed then t.(state := Stopped, cpuUsage := 0.0) else t
  }

  function MapPause(ts: seq<ThreadInfo>): (r: seq<ThreadInfo>)
    ensures |r| == |ts| && forall k :: 0 <= k < |ts| ==> r[k] == PauseOne(ts[k])
    ensures forall k :: 0 <= k < |ts| ==> r[k].state != Running && r[k].id == ts[k].id
  {
    seq(|ts|, k requires 0 <= k < |ts| => PauseOne(ts[k]))
  }

  function MapResume(ts: seq<ThreadInfo>): (r: seq<ThreadInfo>)
    ensures |r| == |ts| && forall k :: 0 <= k < |ts| ==> r[k] == ResumeOne(ts[k])
    ensures forall k :: 0 <= k < |ts| ==> r[k].state != Paused && r[k].id == ts[k].id
  {
    seq(|ts|, k requires 0 <= k < |ts| => ResumeOne(ts[k]))
  }

  function MapStop(ts: seq<ThreadInfo>): (r: seq<ThreadInfo>)
    ensures |r| == |ts| && forall k :: 0 <= k < |ts| ==> r[k] == StopOne(ts[k])
    ensures forall k :: 0 <= k < |ts| ==>
              r[k].id == ts[k].id &&
              (r[k].state == Completed <==> ts[k].state == Completed) &&
              (ts[k].state != Completed ==> r[k].state == Stopped && r[k].cpuUsage == 0.0)
  {
    seq(|ts|, k requires 0 <= k < |ts| => StopOne(ts[k]))
  }

  /** Pause and resume do what the web engine's bulk commands do. Stop
      differs: it leaves COMPLETED threads alone and zeroes the CPU, so the
      two agree on a thread exactly when it is not COMPLETED and already has
      no CPU. */
  lemma BulkCommandsAgreeWithWeb(ts: seq<ThreadInfo>)
    ensures Project(MapPause(ts)) == Hook.PauseAll(Project(ts))
    ensures Project(MapResume(ts)) == Hook.ResumeAll(Project(ts))
    ensures forall k :: 0 <= k < |ts| ==>
              (Project(MapStop(ts))[k] == Hook.StopAll(Project(ts))[k] <==>
               ts[k].state != Completed && ts[k].cpuUsage == 0.0)
  {
  }

  /** How the stand-alone bulk commands compose: stopping absorbs pausing
      and resuming, resuming undoes pausing, and each is idempotent. */
  lemma CppBulkCommandLaws(ts: seq<ThreadInfo>)
    ensures MapStop(MapPause(ts)) == MapStop(ts) && MapStop(MapResume(ts)) == MapStop(ts)
    ensures MapPause(MapStop(ts)) == MapStop(ts) && MapResume(MapStop(ts)) == MapStop(ts)
    ensures MapResume(MapPause(ts)) == MapResume(ts)
    ensures MapPause(MapPause(ts)) == MapPause(ts) && MapResume(MapResume(ts)) == MapResume(ts)
    ensures MapStop(MapStop(ts)) == MapStop(ts)
  {
  }

  /** Ids strictly increase along the vector and stay below the next id. */
  predicate IdsIncreasingBelow(ts: seq<ThreadInfo>, bound: int) {
    (forall i, j :: 0 <= i < j < |ts| ==> ts[i].id < ts[j].id) &&
    (forall i :: 0 <= i < |ts| ==> 1 <= ts[i].id < bound)
  }

  /** Erasing one record keeps the ids increasing and below the bound. */
  lemma RemoveAtKeepsIds(ts: seq<ThreadInfo>, i: nat, bound: int)
    requires i < |ts| && IdsIncreasingBelow(ts, bound)
    ensures IdsIncreasingBelow(ts[..i] + ts[i + 1..], bound)
  {
    var r := ts[..i] + ts[i + 1..];
    assert forall k :: 0 <= k < |r| ==> r[k] == ts[if k < i then k else k + 1];
  }

  /** With distinct ids, deleting removes exactly the thread with the id:
      every other thread stays, children included, in the same order; an
      absent id changes nothing. */
  lemma RemoveIdRemovesExactlyOne(ts: seq<ThreadInfo>, id: int)
    requires forall i, j :: 0 <= i < j < |ts| ==> ts[i].id != ts[j].id
    ensures forall t :: t in RemoveId(ts, id) <==> t in ts && t.id != id
    ensures (exists j :: 0 <= j < |ts| && ts[j].id == id) ==> |RemoveId(ts, id)| == |ts| - 1
    ensures (forall j :: 0 <= j < |ts| ==> ts[j].id != id) ==> RemoveId(ts, id) == ts
  {
    match FindIndex(ts, id)
    case None =>
    case Some(i) =>
      var r := RemoveId(ts, id);
      forall t | t in ts && t.id != id ensures t in r {
        var j :| 0 <= j < |ts| && ts[j] == t;
        if j < i { assert r[j] == t; } else { assert j > i && r[j - 1] == t; }
      }
      forall t | t in r ensures t in ts && t.id != id {
        var j :| 0 <= j < |r| && r[j] == t;
        if j < i { assert t == ts[j]; } else { assert t == ts[j + 1] && ts[i].id != ts[j + 1].id; }
      }
  }

  /** With distinct ids, updating the state to one that keeps the CPU does
      what the web engine's update does to the thread with the decimal id. */
  lemma UpdateStateAgreesWithWeb(ts: seq<ThreadInfo>, id: int, s: ThreadState, bound: int)
    requires IdsIncreasingBelow(ts, bound)
    requires s != Stopped && s != Completed
    ensures Project(SetStateOfId(ts, id, s)) == Hook.SetState(Project(ts), IntToString(id), s)
  {
    var l, r := Project(SetStateOfId(ts, id, s)), Hook.SetState(Project(ts), IntToString(id), s);
    forall k | 0 <= k < |ts| ensures l[k] == r[k] {
      IntToStringInjective(ts[k].id, id);
    }
  }

  /** With distinct ids, the priority update does what the web engine's
      update does to the thread with the decimal id. */
  lemma UpdatePriorityAgreesWithWeb(ts: seq<ThreadInfo>, id: int, p: ThreadPriority, bound: int)
    requires IdsIncreasingBelow(ts, bound)
    ensures Project(SetPriorityOfId(ts, id, p)) == Hook.SetPriority(Project(ts), IntToString(id), p)
  {
    var l, r := Project(SetPriorityOfId(ts, id, p)), Hook.SetPriority(Project(ts), IntToString(id), p);
    forall k | 0 <= k < |ts| ensures l[k] == r[k] {
      IntToStringInjective(ts[k].id, id);
    }
  }

  /** With distinct ids, stopping or completing a thread is the web
      engine's state update followed by zeroing that thread's CPU. */
  lemma StopStateAgreesWithWeb(ts: seq<ThreadInfo>, id: int, s: ThreadState, bound: int)
    requires IdsIncreasingBelow(ts, bound)
    requires s == Stopped || s == Completed
    ensures var web := Hook.SetState(Project(ts), IntToString(id), s);
      |Project(SetStateOfId(ts, id, s))| == |web| &&
      forall k :: 0 <= k < |ts| ==>
        Project(SetStateOfId(ts, id, s))[k] ==
          if ts[k].id == id then web[k].(cpuUsage := 0.0) else web[k]
  {
    var l, r := Project(SetStateOfId(ts, id, s)), Hook.SetState(Project(ts), IntToString(id), s);
    forall k | 0 <= k < |ts| ensures l[k] == if ts[k].id == id then r[k].(cpuUsage := 0.0) else r[k] {
      IntToStringInjective(ts[k].id, id);
    }
  }

  // ------------------------------------------------------ simulationStep

  /** The loop body of simulationStep for position i, run against the
      vector as updated so far. */
  function StepAt(ts: seq<ThreadInfo>, i: nat, variance: real): (r: seq<ThreadInfo>)
    requires i < |ts| && -5.0 <= variance < 5.0
    ensures |r| == |ts| && forall k :: 0 <= k < |ts| && k != i ==> r[k] == ts[k]
    ensures r[i].id == ts[i].id
  {
    if ts[i].state != Running then ts
    else ts[i := Advance(ts[i], CpuShare(ToTs(ts[i]), Project(ts), variance))]
  }

  /** A RUNNING thread after one quantum with the given share: it completes,
      with no CPU, once its executionTime reaches burstTime. */
  function Advance(t: ThreadInfo, share: real): ThreadInfo {
    var advanced := t.(cpuUsage := share, executionTime := t.executionTime + ManagerQuantum);
    if advanced.executionTime >= advanced.burstTime
    then advanced.(state := Completed, cpuUsage := 0.0) else advanced
  }

  /** The vector after the loop has visited positions 0 .. n-1. */
  function StepUpTo(ts: seq<ThreadInfo>, n: nat, vs: seq<real>): (r: seq<ThreadInfo>)
    requires n <= |ts| && Hook.ValidVariances(vs, |ts|)
    ensures |r| == |ts|
  {
    if n == 0 then ts else StepAt(StepUpTo(ts, n - 1, vs), n - 1, vs[n - 1])
  }

  /** The step never changes an id. */
  lemma {:induction false} StepPreservesIds(ts: seq<ThreadInfo>, n: nat, vs: seq<real>)
    requires n <= |ts| && Hook.ValidVariances(vs, |ts|)
    ensures forall k :: 0 <= k < |ts| ==> StepUpTo(ts, n, vs)[k].id == ts[k].id
  {
    if n > 0 {
      StepPreservesIds(ts, n - 1, vs);
      var prev := StepUpTo(ts, n - 1, vs);
      assert StepUpTo(ts, n, vs) == StepAt(prev, n - 1, vs[n - 1]);
    }
  }

  /** So ids that increase along the vector still do after the step. */
  lemma StepKeepsIds(ts: seq<ThreadInfo>, n: nat, vs: seq<real>, bound: int)
    requires n <= |ts| && Hook.ValidVariances(vs, |ts|) && IdsIncreasingBelow(ts, bound)
    ensures IdsIncreasingBelow(StepUpTo(ts, n, vs), bound)
  {
    StepPreservesIds(ts, n, vs);
  }

  lemma {:induction false} StepUpToFrame(ts: seq<ThreadInfo>, n: nat, vs: seq<real>, k: nat)
    requires n <= |ts| && Hook.ValidVariances(vs, |ts|) && k < |ts|
    ensures n <= k ==> StepUpTo(ts, n, vs)[k] == ts[k]
    ensures k < n ==> StepUpTo(ts, n, vs)[k] == StepUpTo(ts, k + 1, vs)[k]
  {
    if n > 0 {
      StepUpToFrame(ts, n - 1, vs, k);
    }
  }

  /** What one simulationStep does to the thread at position k: a thread
      that is not RUNNING is untouched; a RUNNING one gains one quantum of
      executionTime, with no clamp at burstTime, and completes (CPU 0)
      exactly when it reaches burstTime; otherwise its CPU is the share
      computed against the vector as updated before it, in which threads
      completed earlier in the same step no longer run. */
  lemma SimulationStepAt(ts: seq<ThreadInfo>, vs: seq<real>, k: nat)
    requires Hook.ValidVariances(vs, |ts|) && k < |ts|
    ensures var t, u := ts[k], StepUpTo(ts, |ts|, vs)[k];
      u.id == t.id && u.name == t.name && u.priority == t.priority && u.burstTime == t.burstTime &&
      u.memoryUsage == t.memoryUsage && u.parentId == t.parentId && u.startTime == t.startTime &&
      (t.state != Running ==> u == t) &&
      (t.state == Running ==>
         u.executionTime == t.executionTime + ManagerQuantum &&
         (u.state == Completed <==> t.executionTime + ManagerQuantum >= t.burstTime) &&
         (u.state != Completed ==>
            u.state == Running && u.cpuUsage == CpuShare(ToTs(t), Project(StepUpTo(ts, k, vs)), vs[k])) &&
         (u.state == Completed ==> u.cpuUsage == 0.0))
  {
    StepUpToFrame(ts, |ts|, vs, k);
    StepUpToFrame(ts, k, vs, k);
  }

  /** The step does not clamp: a thread one quantum short of a 1500 ms burst
      ends with executionTime 2000 (the web engine stores 1500). */
  lemma StepOvershootsBurst()
    ensures var t := ThreadInfo(1, "A", Running, Medium, 0.0, 100.0, 0, 1000, 1500, NoParent);
      var u := StepUpTo([t], 1, [0.0])[0];
      u.state == Completed && u.executionTime == 2000 && u.executionTime > u.burstTime &&
      Hook.TickThreads([ToTs(t)], [0.0], [0.0])[0].executionTime == 1500
  {
    var t := ThreadInfo(1, "A", Running, Medium, 0.0, 100.0, 0, 1000, 1500, NoParent);
    Hook.TickAt([ToTs(t)], [0.0], [0.0], 0);
  }

  /** A thread that completes earlier in the step stops counting for later
      ones: of two MEDIUM threads where the first completes, the second gets
      the whole CPU (the web engine, sharing against the pre-tick list,
      gives it half). */
  lemma EarlierCompletionRaisesLaterShare()
    ensures var a := ThreadInfo(1, "A", Running, Medium, 0.0, 100.0, 0, 0, 1000, NoParent);
      var b := ThreadInfo(2, "B", Running, Medium, 0.0, 100.0, 0, 0, 5000, NoParent);
      StepUpTo([a, b], 2, [0.0, 0.0])[1].cpuUsage == 100.0 &&
      Hook.TickThreads([ToTs(a), ToTs(b)], [0.0, 0.0], [0.0, 0.0])[1].cpuUsage == 50.0
  {
    var a := ThreadInfo(1, "A", Running, Medium, 0.0, 100.0, 0, 0, 1000, NoParent);
    var b := ThreadInfo(2, "B", Running, Medium, 0.0, 100.0, 0, 0, 5000, NoParent);
    SecondShareAfterCompletion(a, b);
    SecondShareOfTwoMedium(ToTs(a), ToTs(b));
  }

  /** The stand-alone half: once `a` completes, `b` runs alone. */
  lemma SecondShareAfterCompletion(a: ThreadInfo, b: ThreadInfo)
    requires a == ThreadInfo(1, "A", Running, Medium, 0.0, 100.0, 0, 0, 1000, NoParent)
    requires b == ThreadInfo(2, "B", Running, Medium, 0.0, 100.0, 0, 0, 5000, NoParent)
    ensures StepUpTo([a, b], 2, [0.0, 0.0])[1].cpuUsage == 100.0
  {
    assert StepUpTo([a, b], 0, [0.0, 0.0]) == [a, b];
    var mid := StepUpTo([a, b], 1, [0.0, 0.0]);
    var a' := Advance(a, CpuShare(ToTs(a), Project([a, b]), 0.0));
    assert a'.state == Completed;
    assert mid == StepAt([a, b], 0, 0.0) == [a', b];
    var pm := Project(mid);
    assert pm == [ToTs(a'), ToTs(b)];
    assert Filter(pm, IsRunning) == [ToTs(b)] by {
      assert pm[1..] == [ToTs(b)] && [ToTs(b)][1..] == [];
    }
    assert TotalWeight(pm) == 2 by {
      assert [ToTs(b)][1..] == [];
      assert SumWeights([ToTs(b)]) == Weight(Medium) + SumWeights([]);
    }
    assert CpuShare(ToTs(b), pm, 0.0) == 100.0;
  }

  /** The web half: both threads share against the pre-tick list. */
  lemma SecondShareOfTwoMedium(a: Thread, b: Thread)
    requires a.state == Running && a.priority == Medium && a.executionTime == 0 && a.burstTime == 1000
    requires b.state == Running && b.priority == Medium && b.executionTime == 0 && b.burstTime == 5000
    ensures Hook.TickThreads([a, b], [0.0, 0.0], [0.0, 0.0])[1].cpuUsage == 50.0
  {
    var both := [a, b];
    FilterKeepsAll(both, IsRunning);
    assert SumWeights(both) == 4 by {
      assert both[1..] == [b] && [b][1..] == [];
    }
    assert TotalWeight(Filter(both, IsRunning)) == 4;
    assert CpuShare(b, Filter(both, IsRunning), 0.0) == 50.0;
  }

  // ------------------------------------------------------------ statistics

  /** The loop of getSystemStats: one pass counting RUNNING and COMPLETED
      records and summing the CPU of the running ones and all memory. */
  method Tally(ts: seq<ThreadInfo>) returns (running: nat, completed: nat, cpu: real, memory: real)
    ensures running == Hook.Count(Project(ts), Running)
    ensures completed == Hook.Count(Project(ts), Completed)
    ensures cpu == Hook.RunningCpu(Project(ts))
    ensures memory == Hook.TotalMemory(Project(ts))
  {
    running, completed, cpu, memory := 0, 0, 0.0, 0.0;
    for i := 0 to |ts|
      invariant running == Hook.Count(Project(ts[..i]), Running)
      invariant completed == Hook.Count(Project(ts[..i]), Completed)
      invariant cpu == Hook.RunningCpu(Project(ts[..i]))
      invariant memory == Hook.TotalMemory(Project(ts[..i]))
    {
      var t := ts[i];
      StatsSnoc(ts, i);
      if t.state == Running {
        running := running + 1;
        cpu := cpu + t.cpuUsage;
      }
      if t.state == Completed {
        completed := completed + 1;
      }
      memory := memory + t.memoryUsage;
    }
    assert ts[..|ts|] == ts;
  }

  /** The fields of the web statistics that the stand-alone ones report. */
  lemma StatsFields(ps: seq<Thread>)
    ensures Hook.Stats(ps).runningThreads == Hook.Count(ps, Running)
    ensures Hook.Stats(ps).completedThreads == Hook.Count(ps, Completed)
    ensures Hook.Stats(ps).totalCpuUsage == Hook.RunningCpu(ps)
    ensures Hook.Stats(ps).totalMemoryUsage == Hook.TotalMemory(ps)
    ensures Hook.Count(ps, Running) + Hook.Count(ps, Completed) <= |ps|
  {
    Hook.CountsSumToLength(ps);
  }

  /** One more record adds to the web figures exactly what the one-pass
      loop of getSystemStats adds. */
  lemma StatsSnoc(ts: seq<ThreadInfo>, i: nat)
    requires i < |ts|
    ensures var p, q, t := Project(ts[..i]), Project(ts[..i + 1]), ts[i];
      Hook.Count(q, Running) == Hook.Count(p, Running) + (if t.state == Running then 1 else 0) &&
      Hook.Count(q, Completed) == Hook.Count(p, Completed) + (if t.state == Completed then 1 else 0) &&
      Hook.RunningCpu(q) == Hook.RunningCpu(p) + (if t.state == Running then t.cpuUsage else 0.0) &&
      Hook.TotalMemory(q) == Hook.TotalMemory(p) + t.memoryUsage
  {
    var p, x := Project(ts[..i]), ToTs(ts[i]);
    ProjectSnoc(ts, i);
    Hook.CountConcat(p, [x], Running);
    Hook.CountConcat(p, [x], Completed);
    Hook.RunningCpuConcat(p, [x]);
    assert [x][1..] == [];
  }

  /** The statistics record of the stand-alone engine. */
  datatype CppStats = CppStats(
    totalThreads: nat,
    runningThreads: nat,
    completedThreads: nat,
    totalCpuUsage: real,
    totalMemoryUsage: real)

  // ------------------------------------------------------------ the class

  class ThreadManager {
    var threads: seq<ThreadInfo>
    var nextThreadId: int

    ghost predicate Valid()
      reads this
    {
      nextThreadId >= 1 && IdsIncreasingBelow(threads, nextThreadId)
    }

    constructor ()
      ensures Valid() && threads == [] && nextThreadId == 1
    {
      threads, nextThreadId := [], 1;
    }

    /** createThread: the caller's defaults are name "", MEDIUM, burst -1
        and parent -1. Returns the id it assigned. */
    method CreateThread(name: string, priority: ThreadPriority, customBurstTime: int, parentId: int,
                        randomBurst: int, memory: real, now: int) returns (id: int)
      requires Valid()
      requires 10000 <= randomBurst <= 30000 && 50.0 <= memory < 200.0
      modifies this
      ensures Valid()
      ensures id == old(nextThreadId) && nextThreadId == id + 1
      ensures forall k :: 0 <= k < |old(threads)| ==> old(threads)[k].id < id
      ensures threads == old(threads) +
                [NewThreadInfo(id, name, priority, customBurstTime, parentId, randomBurst, memory, now)]
    {
      var t := NewThreadInfo(nextThreadId, name, priority, customBurstTime, parentId, randomBurst, memory, now);
      threads := threads + [t];
      id := nextThreadId;
      nextThreadId := nextThreadId + 1;
    }

    /** deleteThread: erases the thread with the id; children stay. */
    method DeleteThread(threadId: int) returns (found: bool)
      requires Valid()
      modifies this
      ensures Valid() && nextThreadId == old(nextThreadId)
      ensures found <==> exists j :: 0 <= j < |old(threads)| && old(threads)[j].id == threadId
      ensures threads == RemoveId(old(threads), threadId)
    {
      var i := 0;
      while i < |threads| && threads[i].id != threadId
        invariant 0 <= i <= |threads|
        invariant forall j :: 0 <= j < i ==> threads[j].id != threadId
      {
        i := i + 1;
      }
      if i < |threads| {
        assert FindIndex(threads, threadId) == Some(i);
        RemoveAtKeepsIds(threads, i, nextThreadId);
        threads := threads[..i] + threads[i + 1..];
        found := true;
      } else {
        found := false;
      }
    }

    /** updateThreadState: no transition check; STOPPED or COMPLETED zero
        the CPU. */
    method UpdateThreadState(threadId: int, newState: ThreadState) returns (found: bool)
      requires Valid()
      modifies this
      ensures Valid() && nextThreadId == old(nextThreadId)
      ensures found <==> exists j :: 0 <= j < |old(threads)| && old(threads)[j].id == threadId
      ensures threads == SetStateOfId(old(threads), threadId, newState)
    {
      for i := 0 to |threads|
        invariant threads == old(threads)
        invariant forall j :: 0 <= j < i ==> threads[j].id != threadId
      {
        if threads[i].id == threadId {
          assert FindIndex(threads, threadId) == Some(i);
          threads := threads[i := WithState(threads[i], newState)];
          return true;
        }
      }
      return false;
    }

    method PauseThread(threadId: int)
      requires Valid()
      modifies this
      ensures Valid() && nextThreadId == old(nextThreadId)
      ensures threads == SetStateOfId(old(threads), threadId, Paused)
    {
      var _ := UpdateThreadState(threadId, Paused);
    }

    method ResumeThread(threadId: int)
      requires Valid()
      modifies this
      ensures Valid() && nextThreadId == old(nextThreadId)
      ensures threads == SetStateOfId(old(threads), threadId, Running)
    {
      var _ := UpdateThreadState(threadId, Running);
    }

    method StopThread(threadId: int)
      requires Valid()
      modifies this
      ensures Valid() && nextThreadId == old(nextThreadId)
      ensures threads == SetStateOfId(old(threads), threadId, Stopped)
    {
      var _ := UpdateThreadState(threadId, Stopped);
    }

    /** updateThreadPriority: changes only the priority. */
    method UpdateThreadPriority(threadId: int, newPriority: ThreadPriority) returns (found: bool)
      requires Valid()
      modifies this
      ensures Valid() && nextThreadId == old(nextThreadId)
      ensures found <==> exists j :: 0 <= j < |old(threads)| && old(threads)[j].id == threadId
      ensures threads == SetPriorityOfId(old(threads), threadId, newPriority)
    {
      for i := 0 to |threads|
        invariant threads == old(threads)
        invariant forall j :: 0 <= j < i ==> threads[j].id != threadId
      {
        if threads[i].id == threadId {
          assert FindIndex(threads, threadId) == Some(i);
          threads := threads[i := threads[i].(priority := newPriority)];
          return true;
        }
      }
      return false;
    }

    method PauseAllThreads()
      requires Valid()
      modifies this
      ensures Valid() && nextThreadId == old(nextThreadId)
      ensures threads == MapPause(old(threads))
    {
      for i := 0 to |threads|
        invariant |threads| == |old(threads)|
        invariant forall k :: 0 <= k < i ==> threads[k] == PauseOne(old(threads)[k])
        invariant forall k :: i <= k < |threads| ==> threads[k] == old(threads)[k]
        invariant nextThreadId == old(nextThreadId)
        invariant forall k :: 0 <= k < |threads| ==> threads[k].id == old(threads)[k].id
      {
        if threads[i].state == Running {
          threads := threads[i := threads[i].(state := Paused)];
        }
      }
    }

    method ResumeAllThreads()
      requires Valid()
      modifies this
      ensures Valid() && nextThreadId == old(nextThreadId)
      ensures threads == MapResume(old(threads))
    {
      for i := 0 to |threads|
        invariant |threads| == |old(threads)|
        invariant forall k :: 0 <= k < i ==> threads[k] == ResumeOne(old(threads)[k])
        invariant forall k :: i <= k < |threads| ==> threads[k] == old(threads)[k]
        invariant nextThreadId == old(nextThreadId)
        invariant forall k :: 0 <= k < |threads| ==> threads[k].id == old(threads)[k].id
      {
        if threads[i].state == Paused {
          threads := threads[i := threads[i].(state := Running)];
        }
      }
    }

    /** stopAllThreads: COMPLETED threads are left as they are. */
    method StopAllThreads()
      requires Valid()
      modifies this
      ensures Valid() && nextThreadId == old(nextThreadId)
      ensures threads == MapStop(old(threads))
    {
      for i := 0 to |threads|
        invariant |threads| == |old(threads)|
        invariant forall k :: 0 <= k < i ==> threads[k] == StopOne(old(threads)[k])
        invariant forall k :: i <= k < |threads| ==> threads[k] == old(threads)[k]
        invariant nextThreadId == old(nextThreadId)
        invariant forall k :: 0 <= k < |threads| ==> threads[k].id == old(threads)[k].id
      {
        if threads[i].state != Completed {
          threads := threads[i := threads[i].(state := Stopped, cpuUsage := 0.0)];
        }
      }
    }

    /** simulationStep: visits the vector in order, updating each RUNNING
        thread in place; `variances` holds one draw per position. */
    method SimulationStep(variances: seq<real>)
      requires Valid() && Hook.ValidVariances(variances, |threads|)
      modifies this
      ensures Valid() && nextThreadId == old(nextThreadId)
      ensures threads == StepUpTo(old(threads), |old(threads)|, variances)
    {
      for i := 0 to |threads|
        invariant threads == StepUpTo(old(threads), i, variances)
        invariant nextThreadId == old(nextThreadId)
      {
        UpdatePosition(i, variances[i]);
      }
      StepKeepsIds(old(threads), |old(threads)|, variances, nextThreadId);
    }

    /** The loop body of simulationStep for position i: a RUNNING thread
        gets its share against the vector as it is now, one quantum more
        executionTime, and completes with no CPU at its burst. */
    method UpdatePosition(i: nat, variance: real)
      requires i < |threads| && -5.0 <= variance < 5.0
      modifies this
      ensures nextThreadId == old(nextThreadId)
      ensures threads == StepAt(old(threads), i, variance)
    {
      if threads[i].state == Running {
        var share := CalculateCpuShare(threads[i], threads, variance);
        var t := threads[i].(cpuUsage := share, executionTime := threads[i].executionTime + ManagerQuantum);
        if t.executionTime >= t.burstTime {
          t := t.(state := Completed, cpuUsage := 0.0);
        }
        assert t == Advance(threads[i], share);
        threads := threads[i := t];
      }
    }

    /** getSystemStats: one pass over the vector. The figures equal the web
        engine's statistics of the same threads. */
    method GetSystemStats() returns (stats: CppStats)
      ensures stats.totalThreads == |threads|
      ensures stats.runningThreads == Hook.Stats(Project(threads)).runningThreads
      ensures stats.completedThreads == Hook.Stats(Project(threads)).completedThreads
      ensures stats.totalCpuUsage == Hook.Stats(Project(threads)).totalCpuUsage
      ensures stats.totalMemoryUsage == Hook.Stats(Project(threads)).totalMemoryUsage
      ensures stats.runningThreads + stats.completedThreads <= stats.totalThreads
    {
      var running, completed, cpu, memory := Tally(threads);
      StatsFields(Project(threads));
      stats := CppStats(|threads|, running, completed, cpu, memory);
    }
  }
}
