/** The display rules of one thread card (src/components/thread/ThreadCard.tsx):
    the millisecond formatter, the progress bar width and which buttons a
    thread's state enables. */
module ThreadCard {
  import opened ThreadTypes
  import opened Text
  import Hook = ThreadManagerHook

  /** Floor division by a positive constant composes: whole minutes of the
      whole seconds are the whole minutes of the milliseconds. */
  lemma NestedDivision(ms: int)
    ensures ms / 1000 / 60 == ms / 60000
    ensures ms / 1000 / 60 / 60 == ms / 3600000
    ensures ms / 1000 % 60 == ms % 60000 / 1000
  {
    var s, r := ms / 1000, ms % 1000;
    var m, r2 := s / 60, s % 60;
    assert ms == 60000 * m + (1000 * r2 + r);
    assert 0 <= 1000 * r2 + r < 60000;
    var h, r3 := m / 60, m % 60;
    assert ms == 3600000 * h + (60000 * r3 + 1000 * r2 + r);
  }

  /** formatTime: whole hours and minutes from one hour up, whole minutes
      and seconds from one minute up, whole seconds below that. */
  function FormatTime(ms: int): (s: string)
    ensures ms >= 3600000 ==>
              s == IntToString(ms / 3600000) + "h " + IntToString(ms % 3600000 / 60000) + "m"
    ensures 60000 <= ms < 3600000 ==>
              s == IntToString(ms / 60000) + "m " + IntToString(ms % 60000 / 1000) + "s"
    ensures ms < 60000 ==> s == IntToString(ms / 1000) + "s"
  {
    NestedDivision(ms);
    NestedDivision(ms % 3600000);
    var seconds := ms / 1000;
    var minutes := seconds / 60;
    var hours := minutes / 60;
    if hours > 0 then IntToString(hours) + "h " + IntToString(minutes % 60) + "m"
    else if minutes > 0 then IntToString(minutes) + "m " + IntToString(seconds % 60) + "s"
    else IntToString(seconds) + "s"
  }

  /** Anything shorter than a second renders as "0s". */
  lemma FormatTimeBelowOneSecond(ms: int)
    requires 0 <= ms < 1000
    ensures FormatTime(ms) == "0s"
  {
  }

  /** From one hour up the seconds are not shown: two durations in the same
      minute render alike. */
  lemma FormatTimeDropsSeconds(a: int, b: int)
    requires a >= 3600000 && b >= 3600000 && a / 60000 == b / 60000
    ensures FormatTime(a) == FormatTime(b)
  {
    NestedDivision(a);
    NestedDivision(b);
    HoursOfMinutes(a);
    HoursOfMinutes(b);
  }

  lemma HoursOfMinutes(ms: int)
    ensures ms / 3600000 == ms / 60000 / 60
    ensures ms % 3600000 / 60000 == ms / 60000 % 60
  {
    var m := ms / 60000;
    var h, r := m / 60, m % 60;
    assert ms == 3600000 * h + (60000 * r + ms % 60000);
  }

  /** Below one minute each whole second renders differently: the card's
      seconds display is injective there. */
  lemma FormatTimeSecondsInjective(a: int, b: int)
    requires 0 <= a < 60000 && 0 <= b < 60000
    ensures FormatTime(a) == FormatTime(b) <==> a / 1000 == b / 1000
  {
    if FormatTime(a) == FormatTime(b) {
      var sa, sb := IntToString(a / 1000), IntToString(b / 1000);
      assert sa == FormatTime(a)[..|FormatTime(a)| - 1];
      assert sb == FormatTime(b)[..|FormatTime(b)| - 1];
      IntToStringInjective(a / 1000, b / 1000);
    }
  }

  /** Width of the progress bar in percent: executionTime over burstTime,
      capped at 100. */
  function ProgressWidth(executionTime: int, burstTime: int): (w: real)
    requires burstTime != 0
    ensures w <= 100.0
    ensures burstTime > 0 ==> (w == 100.0 <==> executionTime >= burstTime)
    ensures burstTime > 0 && 0 <= executionTime <= burstTime ==>
              w == (executionTime as real / burstTime as real) * 100.0
    ensures burstTime > 0 && executionTime >= 0 ==> w >= 0.0
  {
    ProgressRatio(executionTime, burstTime);
    MinReal(100.0, (executionTime as real / burstTime as real) * 100.0)
  }

  lemma ProgressRatio(e: int, b: int)
    requires b != 0
    ensures b > 0 ==> ((e as real / b as real) * 100.0 >= 100.0 <==> e >= b)
    ensures b > 0 && e >= 0 ==> (e as real / b as real) * 100.0 >= 0.0
  {
    var x, y := e as real, b as real;
    var q := x / y;
    assert q * y == x;
    if b > 0 {
      if q >= 1.0 {
        assert q * y >= 1.0 * y;
      } else {
        assert q * y < 1.0 * y;
      }
    }
  }

  /** A thread the web engine has ticked never overshoots: its bar is the
      plain ratio, and it is full exactly when the thread is done. */
  lemma TickedProgressIsExact(t: Thread)
    requires 0 <= t.executionTime <= t.burstTime && t.burstTime > 0
    ensures ProgressWidth(t.executionTime, t.burstTime) == (t.executionTime as real / t.burstTime as real) * 100.0
    ensures ProgressWidth(t.executionTime, t.burstTime) == 100.0 <==> t.executionTime == t.burstTime
  {
  }

  /** The main button of a card. Only Pause and Resume can be pressed. */
  datatype PrimaryAction = CompletedBadge | PauseButton | ResumeButton | StoppedBadge

  /** COMPLETED shows a disabled badge, RUNNING a pause button, PAUSED a
      resume button, and every other state (STOPPED and WAITING alike) a
      disabled "Stopped" button. */
  function PrimaryActionOf(s: ThreadState): (a: PrimaryAction)
    ensures a == CompletedBadge <==> s == Completed
    ensures a == PauseButton <==> s == Running
    ensures a == ResumeButton <==> s == Paused
    ensures a == StoppedBadge <==> s == Stopped || s == Waiting
  {
    match s
    case Completed => CompletedBadge
    case Running => PauseButton
    case Paused => ResumeButton
    case Stopped => StoppedBadge
    case Waiting => StoppedBadge
  }

  predicate Pressable(a: PrimaryAction) {
    a == PauseButton || a == ResumeButton
  }

  /** The state a pressed button asks for. */
  function Requested(a: PrimaryAction): ThreadState
    requires Pressable(a)
  {
    if a == PauseButton then Paused else Running
  }

  /** The small stop button is disabled for STOPPED and COMPLETED threads;
      such a card offers no primary button either. */
  predicate StopDisabled(s: ThreadState)
    ensures StopDisabled(s) ==> !Pressable(PrimaryActionOf(s))
  {
    s == Stopped || s == Completed
  }

  /** Pressing the primary button always changes the state, and the card
      then offers the opposite button: pause and resume alternate. */
  lemma PrimaryActionToggles(s: ThreadState)
    requires Pressable(PrimaryActionOf(s))
    ensures Requested(PrimaryActionOf(s)) != s
    ensures Pressable(PrimaryActionOf(Requested(PrimaryActionOf(s))))
    ensures Requested(PrimaryActionOf(Requested(PrimaryActionOf(s)))) == s
  {
  }

  /** Through the web engine's update, pressing the primary button or the
      stop button of a card changes that thread's state to what the card
      shows next; once stopped, the stop button is disabled. */
  lemma CardButtonsThroughEngine(ts: seq<Thread>, k: nat)
    requires k < |ts|
    ensures Pressable(PrimaryActionOf(ts[k].state)) ==>
              Hook.SetState(ts, ts[k].id, Requested(PrimaryActionOf(ts[k].state)))[k].state != ts[k].state
    ensures !StopDisabled(ts[k].state) ==> StopDisabled(Hook.SetState(ts, ts[k].id, Stopped)[k].state)
  {
  }

  /** A WAITING thread shows the disabled "Stopped" button yet its stop
      button stays enabled; a COMPLETED thread offers no button at all. */
  lemma WaitingLooksStopped()
    ensures PrimaryActionOf(Waiting) == PrimaryActionOf(Stopped) && !StopDisabled(Waiting)
    ensures !Pressable(PrimaryActionOf(Completed)) && StopDisabled(Completed)
  {
  }
}
