/** The priority-weighted CPU-share scheduler of the web engine
    (src/hooks/useScheduler.ts). Stateless: every operation is a function of
    the thread list it is given. The random variance of a share is a
    parameter. */
module Scheduler {
  import opened ThreadTypes
  import opened Seqs

  const AlgorithmName: string := "Priority Scheduling"
  const Description: string :=
    "Higher priority threads receive more CPU time. Critical=4x, High=3x, Medium=2x, Low=1x time slices."
  /** The time slice reported to the UI, in milliseconds. */
  const TimeQuantum: int := 1000

  /** PRIORITY_WEIGHTS. */
  function Weight(p: ThreadPriority): (w: nat)
    ensures 1 <= w <= 4
  {
    match p
    case Critical => 4
    case High => 3
    case Medium => 2
    case Low => 1
  }

  /** The order in which `getNextThread` looks for a non-empty tier. */
  const PriorityOrder: seq<ThreadPriority> := [Critical, High, Medium, Low]

  /** The weight table and the tier walk agree: weight strictly decreases
      along the walk, every priority is visited, and weight determines the
      priority. */
  lemma WeightFollowsPriorityOrder(p: ThreadPriority, q: ThreadPriority)
    ensures p in PriorityOrder
    ensures forall i, j :: 0 <= i < j < |PriorityOrder| ==> Weight(PriorityOrder[i]) > Weight(PriorityOrder[j])
    ensures Weight(p) == Weight(q) <==> p == q
  {
  }

  predicate IsRunning(t: Thread) {
    t.state == Running
  }

  function HasPriority(p: ThreadPriority): Thread -> bool {
    (t: Thread) => t.priority == p
  }

  function SumWeights(ts: seq<Thread>): (w: nat)
    ensures |ts| <= w <= 4 * |ts|
  {
    if ts == [] then 0 else Weight(ts[0].priority) + SumWeights(ts[1..])
  }

  /** Sum of the weights of the running entries of `all`. */
  function TotalWeight(all: seq<Thread>): (w: nat)
    ensures |Filter(all, IsRunning)| <= w <= 4 * |Filter(all, IsRunning)|
  {
    SumWeights(Filter(all, IsRunning))
  }

  lemma {:induction false} SumWeightsConcat(a: seq<Thread>, b: seq<Thread>)
    ensures SumWeights(a + b) == SumWeights(a) + SumWeights(b)
  {
    if a == [] {
      assert a + b == b;
    } else {
      assert (a + b)[0] == a[0] && (a + b)[1..] == a[1..] + b;
      SumWeightsConcat(a[1..], b);
    }
  }

  /** Adding one thread at the end adds its weight exactly when it runs. */
  lemma TotalWeightSnoc(xs: seq<Thread>, x: Thread)
    ensures TotalWeight(xs + [x]) == TotalWeight(xs) + (if IsRunning(x) then Weight(x.priority) else 0)
  {
    FilterConcat(xs, [x], IsRunning);
    SumWeightsConcat(Filter(xs, IsRunning), Filter([x], IsRunning));
    assert Filter([x], IsRunning) == if IsRunning(x) then [x] else [];
  }

  /** weight / totalWeight * 100, the share before variance. */
  function BaseShare(t: Thread, all: seq<Thread>): real
    requires TotalWeight(all) > 0
  {
    (Weight(t.priority) as real / TotalWeight(all) as real) * 100.0
  }

  /** calculatePriorityCpuShare: `variance` stands for `(Math.random() - 0.5) * 10`. */
  function CpuShare(t: Thread, all: seq<Thread>, variance: real): (r: real)
    requires -5.0 <= variance < 5.0
    ensures 0.0 <= r <= 100.0
    ensures !IsRunning(t) ==> r == 0.0
    ensures TotalWeight(all) == 0 ==> r == 0.0
  {
    if t.state != Running then 0.0
    else if TotalWeight(all) == 0 then 0.0
    else Clamp(BaseShare(t, all) + variance, 0.0, 100.0)
  }

  lemma {:induction false} WeightAtMostSum(t: Thread, ts: seq<Thread>)
    requires t in ts
    ensures Weight(t.priority) <= SumWeights(ts)
  {
    if ts[0] != t {
      WeightAtMostSum(t, ts[1..]);
    }
  }

  /** A running member of the list has a positive total weight to divide by
      and a base share of at most 100. */
  lemma BaseShareOfMember(t: Thread, all: seq<Thread>)
    requires t in all && IsRunning(t)
    ensures TotalWeight(all) > 0
    ensures 0.0 < BaseShare(t, all) <= 100.0
  {
    WeightAtMostSum(t, Filter(all, IsRunning));
  }

  /** For a running member of the list, the share differs from the base
      share by at most the variance. */
  lemma ShareWithinVarianceOfBase(t: Thread, all: seq<Thread>, variance: real)
    requires -5.0 <= variance < 5.0
    requires t in all && IsRunning(t)
    ensures TotalWeight(all) > 0
    ensures -5.0 <= CpuShare(t, all, variance) - BaseShare(t, all) <= 5.0
    ensures variance == 0.0 ==> CpuShare(t, all, variance) == BaseShare(t, all)
  {
    BaseShareOfMember(t, all);
  }

  function SumWeightsScaled(xs: seq<Thread>, all: seq<Thread>): real
    requires TotalWeight(all) > 0
  {
    if xs == [] then 0.0 else BaseShare(xs[0], all) + SumWeightsScaled(xs[1..], all)
  }

  lemma ScaledSum(a: real, b: real, c: real)
    requires c > 0.0
    ensures (a / c) * 100.0 + (b / c) * 100.0 == ((a + b) / c) * 100.0
  {
  }

  lemma ScaledMonotone(a: real, b: real, c: real)
    requires c > 0.0 && a >= b
    ensures (a / c) * 100.0 >= (b / c) * 100.0
    ensures a > b ==> (a / c) * 100.0 > (b / c) * 100.0
  {
  }

  lemma WholeIsHundred(c: real)
    requires c > 0.0
    ensures (c / c) * 100.0 == 100.0
  {
  }

  lemma {:induction false} SumBaseShares(xs: seq<Thread>, all: seq<Thread>)
    requires TotalWeight(all) > 0
    ensures SumWeightsScaled(xs, all) == (SumWeights(xs) as real / TotalWeight(all) as real) * 100.0
  {
    if xs != [] {
      SumBaseShares(xs[1..], all);
      ScaledSum(Weight(xs[0].priority) as real, SumWeights(xs[1..]) as real, TotalWeight(all) as real);
    }
  }

  /** Sum of the noise-free shares of the running entries of a list. */
  function SumOfNoiseFreeShares(xs: seq<Thread>, all: seq<Thread>): real {
    if xs == [] then 0.0 else CpuShare(xs[0], all, 0.0) + SumOfNoiseFreeShares(xs[1..], all)
  }

  /** With zero variance the running threads' shares add up to exactly 100
      whenever anything runs (and to 0 otherwise). */
  lemma NoiseFreeSharesSumToHundred(all: seq<Thread>)
    ensures TotalWeight(all) > 0 ==> SumOfNoiseFreeShares(Filter(all, IsRunning), all) == 100.0
    ensures TotalWeight(all) == 0 ==> SumOfNoiseFreeShares(Filter(all, IsRunning), all) == 0.0
  {
    var running := Filter(all, IsRunning);
    NoiseFreeEqualsScaled(running, all);
    if TotalWeight(all) > 0 {
      SumBaseShares(running, all);
      WholeIsHundred(TotalWeight(all) as real);
    }
  }

  lemma {:induction false} NoiseFreeEqualsScaled(xs: seq<Thread>, all: seq<Thread>)
    requires forall x :: x in xs ==> x in all && IsRunning(x)
    ensures TotalWeight(all) > 0 ==> SumOfNoiseFreeShares(xs, all) == SumWeightsScaled(xs, all)
    ensures TotalWeight(all) == 0 ==> SumOfNoiseFreeShares(xs, all) == 0.0
  {
    if xs != [] {
      NoiseFreeEqualsScaled(xs[1..], all);
      if TotalWeight(all) > 0 {
        ShareWithinVarianceOfBase(xs[0], all, 0.0);
      }
    }
  }

  /** With zero variance a thread of higher priority never receives less CPU
      than one of lower priority, and strictly more when both run. */
  lemma HigherPriorityNoLessShare(a: Thread, b: Thread, all: seq<Thread>)
    requires a in all && b in all && IsRunning(a) && IsRunning(b)
    requires Weight(a.priority) >= Weight(b.priority)
    ensures CpuShare(a, all, 0.0) >= CpuShare(b, all, 0.0)
    ensures Weight(a.priority) > Weight(b.priority) ==> CpuShare(a, all, 0.0) > CpuShare(b, all, 0.0)
  {
    ShareWithinVarianceOfBase(a, all, 0.0);
    ShareWithinVarianceOfBase(b, all, 0.0);
    ScaledMonotone(Weight(a.priority) as real, Weight(b.priority) as real, TotalWeight(all) as real);
  }

  /** With zero variance, CRITICAL, MEDIUM and LOW threads running together
      get 4/7, 2/7 and 1/7 of the CPU, and a paused thread gets nothing. */
  lemma ThreeTierShares(c: Thread, m: Thread, l: Thread, p: Thread)
    requires c.state == Running && m.state == Running && l.state == Running && p.state == Paused
    requires c.priority == Critical && m.priority == Medium && l.priority == Low
    ensures CpuShare(c, [c, m, l, p], 0.0) == 400.0 / 7.0
    ensures CpuShare(m, [c, m, l, p], 0.0) == 200.0 / 7.0
    ensures CpuShare(l, [c, m, l, p], 0.0) == 100.0 / 7.0
    ensures CpuShare(p, [c, m, l, p], 0.0) == 0.0
  {
    var all := [c, m, l, p];
    FilterConcat([c, m, l], [p], IsRunning);
    FilterKeepsAll([c, m, l], IsRunning);
    assert all == [c, m, l] + [p];
    assert Filter([p], IsRunning) == [] by { assert [p][1..] == []; }
    assert Filter(all, IsRunning) == [c, m, l];
    assert SumWeights([c, m, l]) == 7 by {
      assert [l][1..] == [];
      assert SumWeights([l]) == 1;
      assert [m, l][1..] == [l];
      assert SumWeights([m, l]) == 3;
      assert [c, m, l][1..] == [m, l];
    }
    assert TotalWeight(all) == 7;
  }

  /** `reduce((oldest, current) => current.executionTime < oldest.executionTime ? current : oldest)`. */
  function LeastExecutedFrom(best: Thread, rest: seq<Thread>): Thread
    decreases |rest|
  {
    if rest == [] then best
    else LeastExecutedFrom(if rest[0].executionTime < best.executionTime then rest[0] else best, rest[1..])
  }

  lemma {:induction false} LeastExecutedFromSpec(best: Thread, rest: seq<Thread>)
    ensures var r := LeastExecutedFrom(best, rest);
      r.executionTime <= best.executionTime &&
      (forall u :: u in rest ==> r.executionTime <= u.executionTime) &&
      (r == best ||
       exists k :: 0 <= k < |rest| && rest[k] == r && r.executionTime < best.executionTime &&
         forall j :: 0 <= j < k ==> rest[j].executionTime > r.executionTime)
    decreases |rest|
  {
    if rest != [] {
      var next := if rest[0].executionTime < best.executionTime then rest[0] else best;
      LeastExecutedFromSpec(next, rest[1..]);
      var r := LeastExecutedFrom(best, rest);
      assert r == LeastExecutedFrom(next, rest[1..]);
      if r != next {
        var k1 :| 0 <= k1 < |rest[1..]| && rest[1..][k1] == r && r.executionTime < next.executionTime &&
                  forall j :: 0 <= j < k1 ==> rest[1..][j].executionTime > r.executionTime;
        assert rest[k1 + 1] == r;
        forall j | 0 <= j < k1 + 1 ensures rest[j].executionTime > r.executionTime {
          if j > 0 { assert rest[j] == rest[1..][j - 1]; }
        }
      } else if next != best {
        assert rest[0] == r;
      }
    }
  }

  lemma FirstMinimum(ts: seq<Thread>)
    requires |ts| > 0
    ensures var r := LeastExecutedFrom(ts[0], ts[1..]);
      r in ts &&
      (forall u :: u in ts ==> r.executionTime <= u.executionTime) &&
      exists k :: 0 <= k < |ts| && ts[k] == r &&
        forall j :: 0 <= j < k ==> ts[j].executionTime > r.executionTime
  {
    LeastExecutedFromSpec(ts[0], ts[1..]);
    var r := LeastExecutedFrom(ts[0], ts[1..]);
    assert ts == [ts[0]] + ts[1..];
    if r != ts[0] {
      var k1 :| 0 <= k1 < |ts[1..]| && ts[1..][k1] == r && r.executionTime < ts[0].executionTime &&
                forall j :: 0 <= j < k1 ==> ts[1..][j].executionTime > r.executionTime;
      assert ts[k1 + 1] == r;
      forall j | 0 <= j < k1 + 1 ensures ts[j].executionTime > r.executionTime {
        if j > 0 { assert ts[j] == ts[1..][j - 1]; }
      }
    } else {
      assert ts[0] == r;
    }
  }

  /** The least executionTime of a non-empty list; ties go to the earliest
      entry, because the comparison is strict. */
  function LeastExecuted(ts: seq<Thread>): (r: Thread)
    requires |ts| > 0
    ensures r in ts
    ensures forall u :: u in ts ==> r.executionTime <= u.executionTime
    ensures exists k :: 0 <= k < |ts| && ts[k] == r &&
              forall j :: 0 <= j < k ==> ts[j].executionTime > r.executionTime
  {
    FirstMinimum(ts);
    LeastExecutedFrom(ts[0], ts[1..])
  }

  function AtPriority(ts: seq<Thread>, p: ThreadPriority): seq<Thread> {
    Filter(ts, HasPriority(p))
  }

  /** The `for (const priority of priorityOrder)` walk over the remaining tiers. */
  function FirstTier(running: seq<Thread>, order: seq<ThreadPriority>): (r: Option<Thread>)
    ensures r.Some? ==> r.value in running
  {
    if order == [] then None
    else if |AtPriority(running, order[0])| > 0 then Some(LeastExecuted(AtPriority(running, order[0])))
    else FirstTier(running, order[1..])
  }

  /** getNextThread: the advisory "current thread". */
  function NextThread(ts: seq<Thread>): (r: Option<Thread>)
    ensures r.Some? ==> r.value in ts && IsRunning(r.value)
  {
    var running := Filter(ts, IsRunning);
    if |running| == 0 then None else FirstTier(running, PriorityOrder)
  }

  lemma {:induction false} FirstTierSpec(running: seq<Thread>, order: seq<ThreadPriority>)
    ensures FirstTier(running, order).None? <==> forall i :: 0 <= i < |order| ==> AtPriority(running, order[i]) == []
    ensures FirstTier(running, order).Some? ==>
      exists i :: 0 <= i < |order| && |AtPriority(running, order[i])| > 0 &&
        FirstTier(running, order).value == LeastExecuted(AtPriority(running, order[i])) &&
        forall j :: 0 <= j < i ==> AtPriority(running, order[j]) == []
  {
    if order != [] {
      FirstTierSpec(running, order[1..]);
      if |AtPriority(running, order[0])| == 0 {
        forall i | 0 <= i < |order[1..]| ensures order[1..][i] == order[i + 1] { }
        if FirstTier(running, order).Some? {
          var i1 :| 0 <= i1 < |order[1..]| && |AtPriority(running, order[1..][i1])| > 0 && FirstTier(running, order[1..]).value == LeastExecuted(AtPriority(running, order[1..][i1])) &&
                    forall j :: 0 <= j < i1 ==> AtPriority(running, order[1..][j]) == [];
          assert order[1..][i1] == order[i1 + 1];
          forall j | 0 <= j < i1 + 1 ensures AtPriority(running, order[j]) == [] {
            if j > 0 { assert order[j] == order[1..][j - 1]; }
          }
        }
        if forall i :: 0 <= i < |order[1..]| ==> AtPriority(running, order[1..][i]) == [] {
          forall i | 0 <= i < |order| ensures AtPriority(running, order[i]) == [] {
            if i > 0 { assert order[i] == order[1..][i - 1]; }
          }
        }
      }
    }
  }

  /** There is no next thread exactly when nothing is running. */
  lemma NextThreadNoneIff(ts: seq<Thread>)
    ensures NextThread(ts).None? <==> forall t :: t in ts ==> !IsRunning(t)
  {
    var running := Filter(ts, IsRunning);
    if |running| > 0 {
      var t := running[0];
      WeightFollowsPriorityOrder(t.priority, t.priority);
      var i :| 0 <= i < |PriorityOrder| && PriorityOrder[i] == t.priority;
      assert t in AtPriority(running, PriorityOrder[i]);
      FirstTierSpec(running, PriorityOrder);
    }
  }

  /** The tier the next thread is drawn from: non-empty, and every tier of
      higher weight is empty. */
  lemma NextThreadTier(ts: seq<Thread>) returns (p: ThreadPriority)
    requires NextThread(ts).Some?
    ensures |AtPriority(Filter(ts, IsRunning), p)| > 0
    ensures NextThread(ts).value == LeastExecuted(AtPriority(Filter(ts, IsRunning), p))
    ensures forall q :: Weight(q) > Weight(p) ==> AtPriority(Filter(ts, IsRunning), q) == []
  {
    var running := Filter(ts, IsRunning);
    FirstTierSpec(running, PriorityOrder);
    var i :| 0 <= i < |PriorityOrder| && |AtPriority(running, PriorityOrder[i])| > 0 &&
              NextThread(ts).value == LeastExecuted(AtPriority(running, PriorityOrder[i])) &&
              forall j :: 0 <= j < i ==> AtPriority(running, PriorityOrder[j]) == [];
    p := PriorityOrder[i];
    forall q | Weight(q) > Weight(p) ensures AtPriority(running, q) == [] {
      WeightFollowsPriorityOrder(q, p);
      var m :| 0 <= m < |PriorityOrder| && PriorityOrder[m] == q;
      assert m < i;
    }
  }

  /** The next thread is the earliest entry of the list among the running
      threads of its tier that have its executionTime. */
  lemma NextThreadIsEarliestOfTier(ts: seq<Thread>, p: ThreadPriority, r: Thread)
    requires |AtPriority(Filter(ts, IsRunning), p)| > 0
    requires r == LeastExecuted(AtPriority(Filter(ts, IsRunning), p))
    ensures exists k :: 0 <= k < |ts| && ts[k] == r &&
              forall j :: 0 <= j < k && IsRunning(ts[j]) && ts[j].priority == p ==>
                ts[j].executionTime > r.executionTime
  {
    var running := Filter(ts, IsRunning);
    var tier := AtPriority(running, p);
    var k :| 0 <= k < |tier| && tier[k] == r && forall j :: 0 <= j < k ==> tier[j].executionTime > r.executionTime;
    var later := (u: Thread) => u.executionTime > r.executionTime;
    var k1 := FilterPrefix(running, HasPriority(p), k, later);
    var tiedLater := (u: Thread) => u.priority == p ==> u.executionTime > r.executionTime;
    forall j | 0 <= j < k1 ensures tiedLater(running[j]) {
      if HasPriority(p)(running[j]) {
        assert later(running[j]);
      }
    }
    var k2 := FilterPrefix(ts, IsRunning, k1, tiedLater);
    assert ts[k2] == r;
    assert forall j :: 0 <= j < k2 && IsRunning(ts[j]) ==> tiedLater(ts[j]);
  }

  /** The next thread runs, belongs to the highest priority tier that has a
      running thread, has the least executionTime in that tier, and is the
      earliest entry of the list with that executionTime in that tier. */
  lemma NextThreadIsHighestLeastExecuted(ts: seq<Thread>)
    requires NextThread(ts).Some?
    ensures var r := NextThread(ts).value;
      r in ts && IsRunning(r) &&
      (forall u :: u in ts && IsRunning(u) ==> Weight(u.priority) <= Weight(r.priority)) &&
      (forall u :: u in ts && IsRunning(u) && u.priority == r.priority ==> r.executionTime <= u.executionTime) &&
      exists k :: 0 <= k < |ts| && ts[k] == r &&
        forall j :: 0 <= j < k && IsRunning(ts[j]) && ts[j].priority == r.priority ==>
          ts[j].executionTime > r.executionTime
  {
    var running := Filter(ts, IsRunning);
    var r := NextThread(ts).value;
    var p := NextThreadTier(ts);
    assert r in AtPriority(running, p);
    forall u | u in ts && IsRunning(u) ensures Weight(u.priority) <= Weight(p) {
      assert u in AtPriority(running, u.priority);
    }
    forall u | u in ts && IsRunning(u) && u.priority == p ensures r.executionTime <= u.executionTime {
      assert u in AtPriority(running, p);
    }
    NextThreadIsEarliestOfTier(ts, p, r);
  }

  datatype SchedulerInfo = SchedulerInfo(
    algorithm: string,
    description: string,
    currentThread: Option<string>,
    timeQuantum: int)

  /** getSchedulerInfo: `currentThread` is `nextThread?.name || null`, so an
      empty name is reported as no thread. */
  function GetSchedulerInfo(ts: seq<Thread>): (r: SchedulerInfo)
    ensures r.algorithm == AlgorithmName && r.timeQuantum == 1000
    ensures r.currentThread.None? <==>
      (forall t :: t in ts ==> !IsRunning(t)) || (NextThread(ts).Some? && NextThread(ts).value.name == "")
    ensures r.currentThread.Some? ==>
      NextThread(ts).Some? && r.currentThread.value == NextThread(ts).value.name
  {
    NextThreadNoneIff(ts);
    var next := NextThread(ts);
    SchedulerInfo(
      AlgorithmName,
      Description,
      if next.Some? && next.value.name != "" then Some(next.value.name) else None,
      TimeQuantum)
  }
}
