/** The settings screen of the client (`UserSettingsPanel`): the duration
    text shown beside the timer input, the input's fallback to 120, and the
    form state that is loaded from `getUserSettings` and saved whole through
    `updateUserSettings`. */
module SettingsPanel {

  import opened Wrappers
  import opened Text
  import opened Tables
  import opened Validation
  import opened SettingsHandlers

  /** `formatTimerDisplay`: "<s>s" below a minute, "<m>m" on whole minutes,
      otherwise "<m>m <s>s"; minutes rounded down and seconds as
      JavaScript's `%` leaves them. */
  function FormatTimerDisplay(seconds: int): (r: string)
    ensures seconds == 0 ==> r == "0s"
    ensures seconds >= 0 ==> |r| >= 2 && r[|r| - 1] in "ms"
    ensures seconds >= 0 ==> (r[|r| - 1] == 'm' <==> seconds >= 60 && seconds % 60 == 0)
  {
    var minutes := seconds / 60;
    var remaining := JsRem(seconds, 60);
    if minutes == 0 then IntToString(remaining) + "s"
    else if remaining == 0 then IntToString(minutes) + "m"
    else IntToString(minutes) + "m " + IntToString(remaining) + "s"
  }

  /** Reading a duration text back into seconds. */
  function ReadTimerDisplay(r: string): Option<nat> {
    if |r| >= 2 && r[|r| - 1] == 'm' then
      match ParseNat(r[..|r| - 1])
      case Some(m) => Some(60 * m)
      case None => None
    else if |r| >= 2 && r[|r| - 1] == 's' then ReadSecondsPart(r[..|r| - 1])
    else None
  }

  /** "<s>" or "<m>m <s>". */
  function ReadSecondsPart(body: string): Option<nat> {
    var d := LeadingDigits(body);
    if |d| == |body| then ParseNat(body)
    else if |body| >= |d| + 2 && body[|d|..|d| + 2] == "m " then Combine(ParseNat(d), ParseNat(body[|d| + 2..]))
    else None
  }

  function Combine(minutes: Option<nat>, seconds: Option<nat>): Option<nat> {
    if minutes.Some? && seconds.Some? then Some(60 * minutes.value + seconds.value) else None
  }

  /** The digits of a number followed by a non-digit: the leading digits
      are exactly the number's. */
  lemma {:induction false} LeadingDigitsStop(d: string, rest: string)
    requires AllDigits(d) && rest != [] && !IsDigit(rest[0])
    ensures LeadingDigits(d + rest) == d
    decreases |d|
  {
    if d == [] {
      assert d + rest == rest;
    } else {
      LeadingDigitsStop(d[1..], rest);
      assert (d + rest)[1..] == d[1..] + rest;
      assert d == [d[0]] + d[1..];
    }
  }

  lemma ReadSecondsOnly(sec: nat)
    ensures ReadTimerDisplay(NatToString(sec) + "s") == Some(sec)
  {
    var r := NatToString(sec) + "s";
    assert r[..|r| - 1] == NatToString(sec);
    LeadingDigitsOfDigits(NatToString(sec));
    ParseNatToString(sec);
  }

  lemma ReadMinutesOnly(m: nat)
    ensures ReadTimerDisplay(NatToString(m) + "m") == Some(60 * m)
  {
    var r := NatToString(m) + "m";
    assert r[..|r| - 1] == NatToString(m);
    ParseNatToString(m);
  }

  lemma ReadSecondsSuffix(body: string)
    requires |body| >= 1
    ensures ReadTimerDisplay(body + "s") == ReadSecondsPart(body)
  {
    var r := body + "s";
    assert r[..|r| - 1] == body;
  }

  lemma ReadTwoParts(d: string, t: string)
    requires AllDigits(d)
    ensures ReadSecondsPart(d + ("m " + t)) == Combine(ParseNat(d), ParseNat(t))
  {
    var rest := "m " + t;
    var body := d + rest;
    LeadingDigitsStop(d, rest);
    assert body[|d|..] == rest;
    assert body[|d|..|d| + 2] == rest[..2] == "m ";
    assert body[|d| + 2..] == rest[2..] == t;
  }

  /** The part before the final "s" of "<m>m <s>s" reads as the duration. */
  lemma ReadTwoNumbers(d: string, t: string, m: nat, sec: nat)
    requires AllDigits(d) && ParseNat(d) == Some(m) && ParseNat(t) == Some(sec)
    ensures ReadSecondsPart(d + ("m " + t)) == Some(60 * m + sec)
  {
    ReadTwoParts(d, t);
  }

  lemma Regroup(d: string, t: string)
    ensures d + "m " + t + "s" == (d + ("m " + t)) + "s"
  {
  }

  lemma ReadMinutesAndSeconds(m: nat, sec: nat)
    ensures ReadTimerDisplay(NatToString(m) + "m " + NatToString(sec) + "s") == Some(60 * m + sec)
  {
    var d, t := NatToString(m), NatToString(sec);
    ParseNatToString(m);
    ParseNatToString(sec);
    Regroup(d, t);
    ReadSecondsSuffix(d + ("m " + t));
    ReadTwoNumbers(d, t, m, sec);
  }

  /** The duration text names the duration: reading it back gives the
      number of seconds, so different durations show differently. */
  lemma TimerDisplayRoundTrip(seconds: int)
    requires seconds >= 0
    ensures ReadTimerDisplay(FormatTimerDisplay(seconds)) == Some(seconds)
  {
    var minutes, remaining := seconds / 60, seconds % 60;
    assert seconds == 60 * minutes + remaining;
    if minutes == 0 {
      ReadSecondsOnly(remaining);
    } else if remaining == 0 {
      ReadMinutesOnly(minutes);
    } else {
      ReadMinutesAndSeconds(minutes, remaining);
    }
  }

  lemma TimerDisplayInjective(a: int, b: int)
    requires a >= 0 && b >= 0 && FormatTimerDisplay(a) == FormatTimerDisplay(b)
    ensures a == b
  {
    TimerDisplayRoundTrip(a);
    TimerDisplayRoundTrip(b);
  }

  /** The timer input's change handler: `parseInt(value) || 120`, so a text
      that is not a number, and zero, both become 120. */
  function TimerInput(raw: string): (r: int)
    ensures r != 0
    ensures JsParseInt(raw).None? ==> r == 120
    ensures JsParseInt(raw).Some? && JsParseInt(raw).value != 0 ==> r == JsParseInt(raw).value
  {
    match JsParseInt(raw)
    case None => DefaultTimerDuration
    case Some(v) => if v == 0 then DefaultTimerDuration else v
  }

  /** Typing a number keeps it, unless it is zero; negative numbers are kept
      too (the `min` of the input does not stop them). */
  lemma TimerInputEcho(n: int)
    ensures TimerInput(IntToString(n)) == if n == 0 then 120 else n
  {
    JsParseIntOfIntToString(n);
  }

  /** The payload Save sends: all three fields, always. */
  function SavePayload(userId: string, timerDuration: int, darkMode: bool, reminderEnabled: bool): (u: SettingsUpdate)
    ensures u.userId == userId && u.timerDuration.Some? && u.darkMode.Some? && u.reminderEnabled.Some?
  {
    SettingsUpdate(userId, Some(timerDuration), Some(darkMode), Some(reminderEnabled))
  }

  /** The input schema lets a save through exactly when the form's duration
      is positive (a negative one typed into the input is rejected and
      nothing is stored); a save that gets through stores exactly what the
      form holds, whatever was stored before (or inserts it when nothing
      was). */
  lemma SaveStoresForm(rows: seq<UserSettings>, userId: string, timerDuration: int, darkMode: bool,
                       reminderEnabled: bool, nextId: int, now: int)
    ensures SettingsUpdateValid(SavePayload(userId, timerDuration, darkMode, reminderEnabled)) <==> timerDuration > 0
    ensures timerDuration > 0 ==>
      var r := Upsert(rows, SavePayload(userId, timerDuration, darkMode, reminderEnabled), nextId, now).row;
      r.userId == userId && r.timerDuration == timerDuration && r.darkMode == darkMode
      && r.reminderEnabled == reminderEnabled && r.updatedAt == now
  {
    var u := SavePayload(userId, timerDuration, darkMode, reminderEnabled);
    match FindSettings(rows, userId)
    case Some(k) =>
      assert Upsert(rows, u, nextId, now).row == MergeSettings(rows[k], u, now);
    case None =>
  }

  /** Loading the stored row and saving it straight back changes nothing but
      `updated_at`. */
  lemma LoadThenSaveKeeps(rows: seq<UserSettings>, userId: string, nextId: int, now: int, nextId': int, now': int)
    requires OneRowPerUser(rows)
    ensures var loaded := GetOrCreate(rows, userId, nextId, now);
      var l := loaded.row;
      var saved := Upsert(loaded.table, SavePayload(userId, l.timerDuration, l.darkMode, l.reminderEnabled), nextId', now');
      saved.row == l.(updatedAt := now') && |saved.table| == |loaded.table|
  {
    var loaded := GetOrCreate(rows, userId, nextId, now);
    GetOrCreateStable(rows, userId, nextId, now, nextId, now);
    var k := FindSettings(loaded.table, userId);
    assert k.Some? && loaded.table[k.value] == loaded.row;
  }

  /** The form's state. */
  class SettingsForm {
    var timerDuration: int
    var darkMode: bool
    var reminderEnabled: bool

    /** Before loading: the column defaults. */
    constructor ()
      ensures timerDuration == 120 && darkMode && reminderEnabled
    {
      timerDuration, darkMode, reminderEnabled := DefaultTimerDuration, DefaultDarkMode, DefaultReminderEnabled;
    }

    /** A loaded row is copied field for field, and its dark mode is passed
        to `onDarkModeChange` (the returned value); no row, or a failed
        request, changes nothing. */
    method Load(result: Option<UserSettings>) returns (darkModeNotice: Option<bool>)
      modifies this
      ensures result.Some? ==>
        && timerDuration == result.value.timerDuration && darkMode == result.value.darkMode
        && reminderEnabled == result.value.reminderEnabled && darkModeNotice == Some(result.value.darkMode)
      ensures result.None? ==> unchanged(this) && darkModeNotice.None?
    {
      darkModeNotice := None;
      if result.Some? {
        timerDuration := result.value.timerDuration;
        darkMode := result.value.darkMode;
        reminderEnabled := result.value.reminderEnabled;
        darkModeNotice := Some(result.value.darkMode);
      }
    }

    /** A change of the timer input. */
    method EditTimer(raw: string)
      modifies this`timerDuration
      ensures timerDuration == TimerInput(raw)
    {
      timerDuration := TimerInput(raw);
    }

    method ToggleDarkMode(on: bool)
      modifies this`darkMode
      ensures darkMode == on
    {
      darkMode := on;
    }

    method ToggleReminder(on: bool)
      modifies this`reminderEnabled
      ensures reminderEnabled == on
    {
      reminderEnabled := on;
    }

    /** The update Save sends for `userId`: the form's three values. */
    method Save(userId: string) returns (u: SettingsUpdate)
      ensures u == SavePayload(userId, timerDuration, darkMode, reminderEnabled)
    {
      u := SettingsUpdate(userId, Some(timerDuration), Some(darkMode), Some(reminderEnabled));
    }
  }
}
