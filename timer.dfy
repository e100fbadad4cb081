/** The rest timer of the client (`WorkoutTimer`): the `m:ss` clock text and
    the countdown state, stepped once a second while it runs, lengthened by
    the +30s button, stopped by Skip and reset when the user's settings
    arrive. Calls of `onComplete` are counted in `completions`. */
module RestTimer {

  import opened Wrappers
  import opened Text

  /** `s.padStart(2, '0')`. */
  function PadStart2(s: string): (r: string)
    ensures |r| == if |s| >= 2 then |s| else 2
    ensures |s| >= 2 ==> r == s
    ensures |s| < 2 ==> r[2 - |s|..] == s && forall i :: 0 <= i < 2 - |s| ==> r[i] == '0'
  {
    if |s| >= 2 then s else if |s| == 1 then "0" + s else "00"
  }

  /** `formatTime`: whole minutes (rounded down), a colon, and the remaining
      seconds as JavaScript's `%` leaves them, padded to two characters. For
      a time the timer can hold (never negative) the seconds part is exactly
      two digits. */
  function FormatTime(seconds: int): (r: string)
    ensures seconds >= 0 ==> |r| >= 4 && r[|r| - 3] == ':' && AllDigits(r[|r| - 2..]) && AllDigits(r[..|r| - 3])
    ensures 0 <= seconds < 600 ==> |r| == 4
  {
    var mins := seconds / 60;
    var secs := JsRem(seconds, 60);
    assert 0 <= seconds ==> 0 <= secs < 60;
    assert 10 <= secs < 60 ==> NatToString(secs) == NatToString(secs / 10) + [DigitChar(secs % 10)];
    IntToString(mins) + ":" + PadStart2(IntToString(secs))
  }

  /** Reading a clock text back: minutes, a colon, and two digits below 60. */
  function ReadClock(r: string): (t: Option<int>)
    ensures t.Some? ==> t.value >= 0
  {
    if |r| >= 4 && r[|r| - 3] == ':' then
      match (ParseNat(r[..|r| - 3]), ParseNat(r[|r| - 2..]))
      case (Some(m), Some(s)) => if s < 60 then Some(60 * m + s) else None
      case _ => None
    else None
  }

  /** A clock text splits back into its minutes and its seconds. */
  lemma ClockParts(d: string, ss: string)
    requires |d| >= 1 && |ss| == 2
    ensures var r := d + ":" + ss;
      |r| >= 4 && r[|r| - 3] == ':' && r[..|r| - 3] == d && r[|r| - 2..] == ss
  {
    var r := d + ":" + ss;
    assert r[..|r| - 3] == d;
    assert r[|r| - 2..] == ss;
  }

  /** The padded seconds read back as the seconds. */
  lemma PaddedSeconds(secs: int)
    requires 0 <= secs < 60
    ensures |PadStart2(IntToString(secs))| == 2
    ensures ParseNat(PadStart2(IntToString(secs))) == Some(secs)
  {
    var ss := PadStart2(IntToString(secs));
    if secs < 10 {
      assert ss == ['0', DigitChar(secs)];
      assert ss[..1] == "0";
      assert DigitsValue(ss[..1]) == 0 by {
        assert ss[..1][..0] == [];
      }
    } else {
      ParseNatToString(secs);
      assert NatToString(secs) == NatToString(secs / 10) + [DigitChar(secs % 10)];
    }
  }

  /** The clock text determines the time it shows: reading it back gives
      the number of seconds. */
  lemma ClockRoundTrip(seconds: int)
    requires seconds >= 0
    ensures ReadClock(FormatTime(seconds)) == Some(seconds)
  {
    var mins, secs := seconds / 60, seconds % 60;
    var d, ss := NatToString(mins), PadStart2(IntToString(secs));
    assert FormatTime(seconds) == d + ":" + ss;
    PaddedSeconds(secs);
    ClockParts(d, ss);
    ParseNatToString(mins);
  }

  /** Clock texts of different times differ. */
  lemma ClockInjective(a: int, b: int)
    requires a >= 0 && b >= 0 && FormatTime(a) == FormatTime(b)
    ensures a == b
  {
    ClockRoundTrip(a);
    ClockRoundTrip(b);
  }

  /** The timer's state: `timeLeft`, `totalTime`, `isActive`, and how many
      times `onComplete` has been called. */
  datatype Timer = Timer(timeLeft: int, totalTime: int, isActive: bool, completions: nat)

  /** Before the settings arrive: two minutes, running. */
  const Initial := Timer(120, 120, true, 0)

  /** What the progress bar measures. */
  function Elapsed(t: Timer): int {
    t.totalTime - t.timeLeft
  }

  /** No time is negative and no more time is left than the total. */
  ghost predicate Consistent(t: Timer) {
    0 <= t.timeLeft <= t.totalTime
  }

  /** The effect installs the one-second interval only in this state. */
  predicate Running(t: Timer) {
    t.isActive && t.timeLeft > 0
  }

  /** One firing of the interval: a second less, or, from the last second,
      zero, stopped, and `onComplete` called. */
  function Tick(t: Timer): (r: Timer)
    ensures !Running(t) ==> r == t
    ensures Running(t) ==> r.totalTime == t.totalTime && Elapsed(r) == Elapsed(t) + 1
    ensures Running(t) && t.timeLeft > 1 ==> r.isActive && r.completions == t.completions
    ensures Running(t) && t.timeLeft <= 1 ==> r.timeLeft == 0 && !r.isActive && r.completions == t.completions + 1
    ensures Consistent(t) ==> Consistent(r)
  {
    if !Running(t) then t
    else if t.timeLeft <= 1 then t.(timeLeft := 0, isActive := false, completions := t.completions + 1)
    else t.(timeLeft := t.timeLeft - 1)
  }

  /** `handleAddTime`: thirty more seconds on both counters. */
  function AddTime(t: Timer): (r: Timer)
    ensures r.timeLeft == t.timeLeft + 30 && Elapsed(r) == Elapsed(t)
    ensures r.isActive == t.isActive && r.completions == t.completions
    ensures Consistent(t) ==> Consistent(r)
  {
    t.(timeLeft := t.timeLeft + 30, totalTime := t.totalTime + 30)
  }

  /** `handleSkip`: stopped and `onComplete` called, the time left kept.
      With time left the card stays rendered; hiding it is left to the
      parent that receives `onComplete`. */
  function Skip(t: Timer): (r: Timer)
    ensures !r.isActive && !Running(r) && r.completions == t.completions + 1
    ensures r.timeLeft == t.timeLeft && r.totalTime == t.totalTime
    ensures t.timeLeft > 0 ==> Shown(r)
  {
    t.(isActive := false, completions := t.completions + 1)
  }

  /** The settings response: the stored duration on both counters; a
      missing response (or a failed request) changes nothing. */
  function Load(t: Timer, settings: Option<int>): (r: Timer)
    ensures settings.Some? ==> r.timeLeft == settings.value && r.totalTime == settings.value && Elapsed(r) == 0
    ensures settings.None? ==> r == t
    ensures r.isActive == t.isActive && r.completions == t.completions
    ensures settings.Some? && settings.value >= 0 ==> Consistent(r)
  {
    match settings
    case None => t
    case Some(d) => t.(timeLeft := d, totalTime := d)
  }

  /** The component renders nothing once stopped at zero. */
  predicate Shown(t: Timer) {
    !(!t.isActive && t.timeLeft == 0)
  }

  /** `n` firings of the interval. */
  function Ticks(t: Timer, n: nat): Timer
    decreases n
  {
    if n == 0 then t else Ticks(Tick(t), n - 1)
  }

  /** A running timer reaches zero after exactly as many seconds as it has
      left: it is then stopped and hidden, the whole total has elapsed and
      `onComplete` has been called exactly once more. */
  lemma {:induction false} CountdownCompletes(t: Timer)
    requires Consistent(t) && Running(t)
    ensures var r := Ticks(t, t.timeLeft);
      r.timeLeft == 0 && !r.isActive && !Shown(r) && r.completions == t.completions + 1
      && r.totalTime == t.totalTime && Elapsed(r) == t.totalTime
    decreases t.timeLeft
  {
    if t.timeLeft > 1 {
      CountdownCompletes(Tick(t));
    }
  }

  /** Before the last second nothing completes: the timer still runs. */
  lemma {:induction false} NoEarlyCompletion(t: Timer, n: nat)
    requires Running(t) && n < t.timeLeft
    ensures var r := Ticks(t, n);
      Running(r) && r.timeLeft == t.timeLeft - n && r.completions == t.completions
    decreases n
  {
    if n > 0 {
      NoEarlyCompletion(Tick(t), n - 1);
    }
  }

  /** A stopped timer stays as it is, so `onComplete` is not called again by
      the countdown. */
  lemma {:induction false} StoppedStays(t: Timer, n: nat)
    requires !Running(t)
    ensures Ticks(t, n) == t
    decreases n
  {
    if n > 0 {
      StoppedStays(Tick(t), n - 1);
    }
  }

  /** The component's state cell. */
  class TimerView {
    var timeLeft: int
    var totalTime: int
    var isActive: bool
    var completions: nat

    function State(): Timer
      reads this
    {
      Timer(timeLeft, totalTime, isActive, completions)
    }

    constructor ()
      ensures State() == Initial
    {
      timeLeft, totalTime, isActive, completions := 120, 120, true, 0;
    }

    /** The interval callback, with its functional update of `timeLeft`. */
    method OnTick()
      modifies this
      ensures State() == Tick(old(State()))
    {
      if isActive && timeLeft > 0 {
        if timeLeft <= 1 {
          isActive := false;
          completions := completions + 1;
          timeLeft := 0;
        } else {
          timeLeft := timeLeft - 1;
        }
      }
    }

    method HandleAddTime()
      modifies this
      ensures State() == AddTime(old(State()))
    {
      timeLeft := timeLeft + 30;
      totalTime := totalTime + 30;
    }

    method HandleSkip()
      modifies this
      ensures State() == Skip(old(State()))
    {
      isActive := false;
      completions := completions + 1;
    }

    method LoadSettings(settings: Option<int>)
      modifies this
      ensures State() == Load(old(State()), settings)
    {
      if settings.Some? {
        timeLeft := settings.value;
        totalTime := settings.value;
      }
    }
  }
}
