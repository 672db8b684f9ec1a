/** The execution timeline (src/components/thread/ThreadTimeline.tsx): the
    duration formatter, the newest-first order of the rows and the geometry
    of each row's bar, in percent of the displayed time range. */
module ThreadTimeline {
  import opened ThreadTypes
  import opened Text
  import opened Seqs
  import Card = ThreadCard

  /** Shortest time range the timeline shows: one minute. */
  const MinRange: int := 60000
  /** Narrowest bar, in percent. */
  const MinBarWidth: real := 5.0

  /** formatDuration: minutes and seconds, with no roll-up into hours. */
  function FormatDuration(ms: int): (s: string)
    ensures ms >= 60000 ==> s == IntToString(ms / 60000) + "m " + IntToString(ms % 60000 / 1000) + "s"
    ensures ms < 60000 ==> s == IntToString(ms / 1000) + "s"
  {
    Card.NestedDivision(ms);
    var seconds := ms / 1000;
    var minutes := seconds / 60;
    if minutes > 0 then IntToString(minutes) + "m " + IntToString(seconds % 60) + "s"
    else IntToString(seconds) + "s"
  }

  /** Below one hour the timeline and the card render durations alike; from
      one hour up they never do, since the card switches to hours. */
  lemma FormatDurationMatchesCard(ms: int)
    ensures ms < 3600000 ==> FormatDuration(ms) == Card.FormatTime(ms)
    ensures ms >= 3600000 ==> FormatDuration(ms) != Card.FormatTime(ms)
  {
    if ms >= 3600000 {
      var d, c := FormatDuration(ms), Card.FormatTime(ms);
      var m, h := IntToString(ms / 60000), IntToString(ms / 3600000);
      assert d[|d| - 1] == 's' && c[|c| - 1] == 'm';
    }
  }

  /** An hour and more is shown in minutes: one hour renders as "60m 0s". */
  lemma FormatDurationNoHourRollUp()
    ensures FormatDuration(3600000) == "60m 0s"
  {
    assert NatToString(60) == NatToString(6) + [DigitChar(0)];
  }

  // ---------------------------------------------------------------- sorting

  /** Rows are newest first. */
  predicate NewestFirst(ts: seq<Thread>) {
    forall i, j :: 0 <= i < j < |ts| ==> ts[i].startTime >= ts[j].startTime
  }

  function SameStart(v: int): Thread -> bool {
    (t: Thread) => t.startTime == v
  }

  /** Places `x` before the first row that is not newer than it. */
  function Insert(x: Thread, s: seq<Thread>): (r: seq<Thread>)
    ensures multiset(r) == multiset{x} + multiset(s)
  {
    if s == [] || s[0].startTime <= x.startTime then [x] + s
    else
      assert s == [s[0]] + s[1..];
      [s[0]] + Insert(x, s[1..])
  }

  /** Inserting into newest-first rows keeps them newest first. */
  lemma {:induction false} InsertKeepsOrder(x: Thread, s: seq<Thread>)
    requires NewestFirst(s)
    ensures NewestFirst(Insert(x, s))
  {
    if s != [] && s[0].startTime > x.startTime {
      var rest := Insert(x, s[1..]);
      InsertKeepsOrder(x, s[1..]);
      forall t | t in rest ensures t.startTime <= s[0].startTime {
        assert t in multiset(rest);
        if t != x {
          assert t in multiset(s[1..]);
        }
      }
      var r := [s[0]] + rest;
      forall i, j | 0 <= i < j < |r| ensures r[i].startTime >= r[j].startTime {
        if i == 0 {
          assert r[j] in rest;
        } else {
          assert r[i] == rest[i - 1] && r[j] == rest[j - 1];
        }
      }
    }
  }

  /** The comparator `b.startTime - a.startTime` as a stable sort (the
      sort of the language is stable), applied to a copy of the list. */
  function SortNewestFirst(ts: seq<Thread>): (r: seq<Thread>)
    ensures multiset(r) == multiset(ts)
    ensures NewestFirst(r)
  {
    if ts == [] then []
    else
      assert ts == [ts[0]] + ts[1..];
      InsertKeepsOrder(ts[0], SortNewestFirst(ts[1..]));
      Insert(ts[0], SortNewestFirst(ts[1..]))
  }

  lemma {:induction false} InsertKeepsTies(x: Thread, s: seq<Thread>, v: int)
    ensures Filter(Insert(x, s), SameStart(v)) ==
            (if x.startTime == v then [x] else []) + Filter(s, SameStart(v))
  {
    if s == [] || s[0].startTime <= x.startTime {
      assert ([x] + s)[1..] == s;
    } else {
      InsertKeepsTies(x, s[1..], v);
      assert ([s[0]] + Insert(x, s[1..]))[1..] == Insert(x, s[1..]);
      if x.startTime == v {
        assert !SameStart(v)(s[0]);
      }
    }
  }

  /** The sort is stable: rows with the same start time keep their order. */
  lemma {:induction false} SortKeepsTies(ts: seq<Thread>, v: int)
    ensures Filter(SortNewestFirst(ts), SameStart(v)) == Filter(ts, SameStart(v))
  {
    if ts != [] {
      SortKeepsTies(ts[1..], v);
      InsertKeepsTies(ts[0], SortNewestFirst(ts[1..]), v);
    }
  }

  /** Sorting a list that is already newest first changes nothing. */
  lemma {:induction false} SortOfSortedIsIdentity(ts: seq<Thread>)
    requires NewestFirst(ts)
    ensures SortNewestFirst(ts) == ts
  {
    if ts != [] {
      SortOfSortedIsIdentity(ts[1..]);
      assert SortNewestFirst(ts[1..]) == ts[1..];
      if |ts| > 1 {
        assert ts[1].startTime <= ts[0].startTime;
      }
      assert [ts[0]] + ts[1..] == ts;
    }
  }

  // --------------------------------------------------------- bar geometry

  /** The minimum start time (the spread `Math.min`). */
  function MinStart(ts: seq<Thread>): (m: int)
    requires ts != []
    ensures exists k :: 0 <= k < |ts| && ts[k].startTime == m
    ensures forall k :: 0 <= k < |ts| ==> m <= ts[k].startTime
  {
    if |ts| == 1 then ts[0].startTime
    else
      var rest := MinStart(ts[1..]);
      assert forall k :: 1 <= k < |ts| ==> ts[k] == ts[1..][k - 1];
      if ts[0].startTime <= rest then ts[0].startTime else rest
  }

  /** The left edge of the timeline: the oldest start, or now without rows. */
  function EarliestStart(ts: seq<Thread>, now: int): (e: int)
    ensures ts == [] ==> e == now
    ensures ts != [] ==> (exists k :: 0 <= k < |ts| && ts[k].startTime == e) &&
                         forall k :: 0 <= k < |ts| ==> e <= ts[k].startTime
  {
    if |ts| > 0 then MinStart(ts) else now
  }

  /** The time range shown, never less than one minute. */
  function MaxRange(ts: seq<Thread>, now: int): (r: int)
    ensures r >= MinRange && r >= now - EarliestStart(ts, now)
    ensures r == MinRange || r == now - EarliestStart(ts, now)
  {
    var timeRange := now - EarliestStart(ts, now);
    if timeRange >= MinRange then timeRange else MinRange
  }

  /** What a bar covers: the run time for a completed thread, the time since
      it started otherwise. */
  function BarDuration(t: Thread, now: int): int {
    if t.state == Completed then t.executionTime else now - t.startTime
  }

  function BarWidth(t: Thread, ts: seq<Thread>, now: int): (w: real)
    ensures w >= MinBarWidth
    ensures w >= (BarDuration(t, now) as real / MaxRange(ts, now) as real) * 100.0
    ensures w == MinBarWidth || w == (BarDuration(t, now) as real / MaxRange(ts, now) as real) * 100.0
  {
    MaxReal(MinBarWidth, (BarDuration(t, now) as real / MaxRange(ts, now) as real) * 100.0)
  }

  /** The left edge of a bar, in percent of the range from the oldest start. */
  function BarOffset(t: Thread, ts: seq<Thread>, now: int): (o: real)
    ensures o >= 0.0 <==> t.startTime >= EarliestStart(ts, now)
    ensures o == 0.0 <==> t.startTime == EarliestStart(ts, now)
  {
    PercentSign(t.startTime - EarliestStart(ts, now), MaxRange(ts, now));
    ((t.startTime - EarliestStart(ts, now)) as real / MaxRange(ts, now) as real) * 100.0
  }

  /** A percentage of a positive range has the sign of its numerator. */
  lemma PercentSign(a: int, c: int)
    requires c > 0
    ensures (a as real / c as real) * 100.0 >= 0.0 <==> a >= 0
    ensures (a as real / c as real) * 100.0 == 0.0 <==> a == 0
  {
    var x, z := a as real, c as real;
    assert (x / z) * z == x;
  }

  /** For 0 <= a <= b and positive c, a/c*100 lies in [0, b/c*100]. */
  lemma PercentBounds(a: int, b: int, c: int)
    requires 0 <= a <= b && c > 0
    ensures 0.0 <= (a as real / c as real) * 100.0 <= (b as real / c as real) * 100.0
  {
    var x, y, z := a as real, b as real, c as real;
    assert (x / z) * z == x && (y / z) * z == y;
  }

  /** Percentages of one range add up. */
  lemma PercentAdd(a: int, b: int, c: int)
    requires c > 0
    ensures (a as real / c as real) * 100.0 + (b as real / c as real) * 100.0 ==
            ((a + b) as real / c as real) * 100.0
  {
    var x, y, z := a as real, b as real, c as real;
    assert (x / z) * z == x && (y / z) * z == y;
    assert ((x / z) + (y / z)) * z == x + y;
  }

  /** Every row's bar starts inside the timeline, the oldest row's at the
      left edge; a row that started no later than now starts at most at the
      right edge. */
  lemma BarOffsetBounds(ts: seq<Thread>, now: int, k: nat)
    requires k < |ts|
    ensures BarOffset(ts[k], ts, now) >= 0.0
    ensures ts[k].startTime == EarliestStart(ts, now) ==> BarOffset(ts[k], ts, now) == 0.0
    ensures ts[k].startTime <= now ==> BarOffset(ts[k], ts, now) <= 100.0
  {
    var e, r := EarliestStart(ts, now), MaxRange(ts, now);
    if ts[k].startTime <= now {
      PercentBounds(ts[k].startTime - e, r, r);
    } else {
      PercentBounds(ts[k].startTime - e, ts[k].startTime - e, r);
    }
  }

  /** The bar of a row that has not completed and started no later than now
      ends inside the timeline unless it was widened to the minimum width:
      its offset plus its proportional width is at most 100 percent. */
  lemma LiveBarEndsInside(ts: seq<Thread>, now: int, k: nat)
    requires k < |ts| && ts[k].state != Completed && ts[k].startTime <= now
    ensures BarWidth(ts[k], ts, now) > MinBarWidth ==>
              BarOffset(ts[k], ts, now) + BarWidth(ts[k], ts, now) <= 100.0
    ensures BarWidth(ts[k], ts, now) <= 100.0
  {
    var t, e, r := ts[k], EarliestStart(ts, now), MaxRange(ts, now);
    PercentAdd(t.startTime - e, now - t.startTime, r);
    PercentBounds(now - e, r, r);
    PercentBounds(now - t.startTime, now - e, r);
    PercentBounds(t.startTime - e, now - e, r);
  }
}
