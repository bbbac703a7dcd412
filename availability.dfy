/**
 * Store availability: open, inside the thirty-minute pre-order window before the next
 * opening time, or closed. Clock readings are milliseconds since local midnight.
 */
module Availability {
  import opened Wrappers
  import opened Text

  const DayMs := 86_400_000
  const HourMs := 3_600_000
  const MinuteMs := 60_000
  /** The pre-order window: thirty minutes before opening. */
  const WindowMs := 30 * MinuteMs

  datatype State = Open | PreOrder | Closed

  /** `s.split(sep)`: the pieces between separators, always at least one. */
  function Split(s: string, sep: char): (r: seq<string>)
    ensures |r| >= 1
    decreases |s|
  {
    if s == [] then [""]
    else
      var rest := Split(s[1..], sep);
      if s[0] == sep then [""] + rest else [[s[0]] + rest[0]] + rest[1..]
  }

  /**
   * The opening instant, in milliseconds after today's midnight, that `setHours(h, m, 0, 0)`
   * gives for `openTime.split(':').map(Number)`. `None` stands for the invalid date that a
   * non-numeric part, or a missing minute part, produces. Hours or minutes beyond a day
   * are carried into the next day, as `setHours` does.
   */
  function OpenInstant(openTime: string): (r: Option<int>)
  {
    var parts := Split(openTime, ':');
    if |parts| < 2 then None
    else
      match (ParseNumber(parts[0]), ParseNumber(parts[1]))
      case (Some(h), Some(m)) => Some(h * HourMs + m * MinuteMs)
      case _ => None
  }

  /** The next opening: today's opening time, or tomorrow's when `now` is strictly past it. */
  function NextOpening(now: int, openAt: int): int {
    if now > openAt then openAt + DayMs else openAt
  }

  /** The pre-order window of the source: `0 < minutes until the next opening <= 30`. */
  predicate InPreOrderWindow(now: int, openAt: int) {
    var diff := NextOpening(now, openAt) - now;
    0 < diff <= WindowMs
  }

  /**
   * `evaluate(now)`: an open store is open whatever the time; a closed store accepts
   * pre-orders inside the window before its (parsable, non-empty) opening time.
   */
  function Evaluate(isOpen: bool, openTime: string, now: int): State {
    if isOpen then Open
    else if openTime != "" && OpenInstant(openTime).Some? && InPreOrderWindow(now, OpenInstant(openTime).value)
    then PreOrder
    else Closed
  }

  /**
   * For an opening time within the day, the window is the same as a clock-face rule:
   * the time left until the opening, counted around the day, is more than zero and at most thirty minutes.
   */
  lemma WindowIsModularDistance(now: int, openAt: int)
    requires 0 <= now < DayMs && 0 <= openAt < DayMs
    ensures InPreOrderWindow(now, openAt) <==> 0 < (openAt - now) % DayMs <= WindowMs
  {
    if now > openAt {
      assert (openAt - now) % DayMs == openAt - now + DayMs;
    } else {
      assert (openAt - now) % DayMs == openAt - now;
    }
  }

  /** At the opening instant itself a closed store is not in the pre-order window. */
  lemma ClosedAtOpeningInstant(openAt: int)
    ensures !InPreOrderWindow(openAt, openAt)
  {
  }

  /** The next opening is never before `now` and at most a day after it. */
  lemma NextOpeningBounds(now: int, openAt: int)
    requires 0 <= now < DayMs && 0 <= openAt < DayMs
    ensures now <= NextOpening(now, openAt) <= now + DayMs
    ensures NextOpening(now, openAt) == now <==> now == openAt
  {
  }

  /** The window is exactly the thirty minutes up to and including the opening-time-of-day instant. */
  lemma WindowBounds(now: int, openAt: int)
    requires 0 <= now < DayMs && 0 <= openAt < DayMs
    ensures InPreOrderWindow(now, openAt) <==>
      (openAt - WindowMs <= now < openAt) || (openAt + DayMs - WindowMs <= now < openAt + DayMs && now > openAt)
  {
  }

  lemma {:induction false} SplitWithoutSeparator(s: string, sep: char)
    requires forall i :: 0 <= i < |s| ==> s[i] != sep
    ensures Split(s, sep) == [s]
    decreases |s|
  {
    if s != [] {
      SplitWithoutSeparator(s[1..], sep);
      assert [s[0]] + s[1..] == s;
    }
  }

  lemma {:induction false} SplitAtSeparator(x: string, sep: char, y: string)
    requires forall i :: 0 <= i < |x| ==> x[i] != sep
    ensures Split(x + [sep] + y, sep) == [x] + Split(y, sep)
    decreases |x|
  {
    var s := x + [sep] + y;
    if x == [] {
      assert s[1..] == y;
    } else {
      assert s[1..] == x[1..] + [sep] + y;
      SplitAtSeparator(x[1..], sep, y);
      assert [x[0]] + x[1..] == x;
    }
  }

  lemma TwoDigits(t: string)
    requires |t| == 2 && IsDigit(t[0]) && IsDigit(t[1])
    ensures ParseNumber(t) == Some(DigitValue(t[0]) * 10 + DigitValue(t[1]))
  {
    assert AllDigits(t);
    ParseDigits(t);
    DigitsOfPair(t);
  }

  lemma DigitsOfPair(t: string)
    requires |t| == 2 && IsDigit(t[0]) && IsDigit(t[1])
    ensures DigitsValue(t) == DigitValue(t[0]) * 10 + DigitValue(t[1])
  {
    var first := t[..1];
    assert first[..0] == [];
    assert DigitsValue(first) == DigitValue(t[0]);
  }

  lemma SplitPair(x: string, y: string)
    requires forall i :: 0 <= i < |x| ==> x[i] != ':'
    requires forall i :: 0 <= i < |y| ==> y[i] != ':'
    ensures Split(x + [':'] + y, ':') == [x, y]
  {
    SplitAtSeparator(x, ':', y);
    SplitWithoutSeparator(y, ':');
  }

  /** An opening time "H:M" is read as hour H and minute M. */
  lemma OpenInstantOf(x: string, y: string, h: int, m: int)
    requires forall i :: 0 <= i < |x| ==> x[i] != ':'
    requires forall i :: 0 <= i < |y| ==> y[i] != ':'
    requires ParseNumber(x) == Some(h) && ParseNumber(y) == Some(m)
    ensures OpenInstant(x + [':'] + y) == Some(h * HourMs + m * MinuteMs)
  {
    SplitPair(x, y);
    var parts := Split(x + [':'] + y, ':');
    assert parts[0] == x && parts[1] == y;
    assert ParseNumber(parts[0]) == Some(h) && ParseNumber(parts[1]) == Some(m);
  }

  /** An opening time with no minute part, or an empty one, never opens a pre-order window. */
  lemma MalformedOpenTimeIsClosed(now: int)
    ensures Evaluate(false, "", now) == Closed
    ensures Evaluate(false, "10", now) == Closed
  {
    SplitWithoutSeparator("10", ':');
  }
}

/** Worked examples of the availability rule on concrete opening times. */
module AvailabilityExamples {
  import opened Wrappers
  import opened Text
  import opened Availability
  import opened Schema

  lemma ParseEighteen()
    ensures ParseNumber("18") == Some(18)
  {
    var t := "18";
    assert |t| == 2 && t[0] == '1' && t[1] == '8';
    TwoDigits(t);
  }

  lemma ParseZeroZero()
    ensures ParseNumber("00") == Some(0)
  {
    var t := "00";
    assert |t| == 2 && t[0] == '0' && t[1] == '0';
    TwoDigits(t);
  }

  lemma SplitEighteen()
    ensures Split("18" + [':'] + "00", ':') == ["18", "00"]
  {
    SplitAtSeparator("18", ':', "00");
    SplitWithoutSeparator("00", ':');
  }

  /** "18:00" is read as six in the evening. */
  lemma OpenInstantEighteen()
    ensures OpenInstant("18" + [':'] + "00") == Some(18 * HourMs)
  {
    SplitEighteen();
    ParseEighteen();
    ParseZeroZero();
  }

  /** A store closed until "18:00" takes pre-orders at 17:45. */
  lemma PreOrderAtQuarterToSix()
    ensures Evaluate(false, "18" + [':'] + "00", 17 * HourMs + 45 * MinuteMs) == PreOrder
  {
    OpenInstantEighteen();
  }

  /** A store closed until "18:00" refuses at 17:29:30, half a minute before the window. */
  lemma ClosedBeforeWindow()
    ensures Evaluate(false, "18" + [':'] + "00", 17 * HourMs + 29 * MinuteMs + 30_000) == Closed
  {
    OpenInstantEighteen();
  }

  /** A store closed until "18:00" refuses at 18:00 itself: the next opening is then a day away. */
  lemma ClosedAtSix()
    ensures Evaluate(false, "18" + [':'] + "00", 18 * HourMs) == Closed
  {
    OpenInstantEighteen();
  }

  lemma ParseTen()
    ensures ParseNumber("10") == Some(10)
  {
    var t := "10";
    assert |t| == 2 && t[0] == '1' && t[1] == '0';
    TwoDigits(t);
  }

  /** "10:00" is read as ten in the morning. */
  lemma OpenInstantTen()
    ensures OpenInstant("10" + [':'] + "00") == Some(10 * HourMs)
  {
    SplitAtSeparator("10", ':', "00");
    SplitWithoutSeparator("00", ':');
    ParseTen();
    ParseZeroZero();
  }

  /** The default settings row opens at ten in the morning. */
  lemma DefaultOpensAtTen(id: int)
    ensures OpenInstant(DefaultSettings(id).openTime) == Some(10 * HourMs)
  {
    var open := DefaultSettings(id).openTime;
    assert open == "10:00";
    assert open == "10" + [':'] + "00";
    OpenInstantTen();
  }
}
