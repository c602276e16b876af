/**
 * Clock normalisation: a play clock "M:SS" and a period become the time left in
 * the game and the time left when that period started.
 *
 * All times are integers counting tenths of a second, so "5:30" is 3300 and a
 * ten-minute regulation period is 6000.
 */
module Clock {
  import opened Wrappers

  /** A play clock already split into whole minutes and tenths of a second. */
  datatype PlayClock = PlayClock(minutes: nat, tenths: nat)

  /** The pair returned by the conversion: time left in the game and at period start. */
  datatype ClockTimes = ClockTimes(gameTimeRemaining: nat, maxPeriodTime: nat)

  const RegulationPeriods: nat := 4
  const TenthsPerMinute: nat := 600
  /** Ten minutes. */
  const RegulationLength: nat := 6000
  /** Five minutes. */
  const OvertimeLength: nat := 3000

  /** The value shown on the play clock, in tenths. */
  function ClockTenths(c: PlayClock): nat
  {
    TenthsPerMinute * c.minutes + c.tenths
  }

  /** How long `period` lasts: regulation periods are ten minutes, overtimes five. */
  function PeriodLength(period: nat): nat
  {
    if period <= RegulationPeriods then RegulationLength else OvertimeLength
  }

  /**
   * The conversion. In regulation the full periods still to come are added to the
   * clock; an overtime period counts on its own, whichever overtime it is.
   */
  function PlayClockToSeconds(c: PlayClock, period: nat): (r: ClockTimes)
    // the drop from the period-start value is the time already played in the period
    ensures r.maxPeriodTime - r.gameTimeRemaining == PeriodLength(period) - ClockTenths(c)
    // the period-start value: the remaining regulation periods including this one, or 5:00
    ensures period <= RegulationPeriods ==> r.maxPeriodTime == RegulationLength * (5 - period)
    ensures period > RegulationPeriods ==> r.maxPeriodTime == OvertimeLength
    // a clock that fits in its period gives a value between the period's start and end
    ensures ClockTenths(c) <= PeriodLength(period) ==>
      r.maxPeriodTime - PeriodLength(period) <= r.gameTimeRemaining <= r.maxPeriodTime
  {
    var periodTime := if period <= RegulationPeriods then RegulationLength * (4 - period) else 0;
    var maxPeriodTime := if period <= RegulationPeriods then RegulationLength * (5 - period) else OvertimeLength;
    ClockTimes(periodTime + ClockTenths(c), maxPeriodTime)
  }

  /**
   * Within regulation the value is chronological: an earlier period never has less
   * time remaining than a later one, and ties only at the shared boundary instant.
   */
  lemma RegulationChronology(c1: PlayClock, p1: nat, c2: PlayClock, p2: nat)
    requires p1 < p2 <= RegulationPeriods
    requires ClockTenths(c1) <= RegulationLength && ClockTenths(c2) <= RegulationLength
    ensures PlayClockToSeconds(c1, p1).gameTimeRemaining >= PlayClockToSeconds(c2, p2).gameTimeRemaining
    ensures PlayClockToSeconds(c1, p1).gameTimeRemaining == PlayClockToSeconds(c2, p2).gameTimeRemaining ==>
      p2 == p1 + 1 && ClockTenths(c1) == 0 && ClockTenths(c2) == RegulationLength
  {
  }

  /** Every overtime period gives the same values for the same clock. */
  lemma OvertimeIgnoresWhichOvertime(c: PlayClock, p1: nat, p2: nat)
    requires p1 > RegulationPeriods && p2 > RegulationPeriods
    ensures PlayClockToSeconds(c, p1) == PlayClockToSeconds(c, p2)
    ensures PlayClockToSeconds(c, p1).gameTimeRemaining == ClockTenths(c)
  {
  }

  /** "5:30" in the second period: 15300 tenths remain, 18000 remained at its start. */
  lemma SecondPeriodExample()
    ensures PlayClockToSeconds(PlayClock(5, 300), 2) == ClockTimes(15300, 18000)
  {
  }

  /** "0:00" in the second overtime: nothing remains, 3000 tenths remained at its start. */
  lemma SecondOvertimeExample()
    ensures PlayClockToSeconds(PlayClock(0, 0), 6) == ClockTimes(0, 3000)
  {
  }

  // ---------------------------------------------------------------------------
  // Splitting the clock string

  predicate IsDigit(ch: char)
  {
    '0' <= ch <= '9'
  }

  predicate AllDigits(s: string)
  {
    forall i :: 0 <= i < |s| ==> IsDigit(s[i])
  }

  function DigitValue(ch: char): nat
    requires IsDigit(ch)
  {
    ch as int - '0' as int
  }

  function DigitChar(d: nat): (ch: char)
    requires d < 10
    ensures IsDigit(ch) && DigitValue(ch) == d
  {
    ('0' as int + d) as char
  }

  /** The decimal value of a string of digits. */
  function DigitsValue(s: string): nat
    requires AllDigits(s)
  {
    if |s| == 0 then 0 else 10 * DigitsValue(s[..|s| - 1]) + DigitValue(s[|s| - 1])
  }

  /** The decimal digits of `n`, without leading zeros. */
  function NatDigits(n: nat): (s: string)
    ensures |s| > 0 && AllDigits(s)
  {
    if n < 10 then [DigitChar(n)] else NatDigits(n / 10) + [DigitChar(n % 10)]
  }

  lemma {:induction false} DigitsRoundTrip(n: nat)
    ensures DigitsValue(NatDigits(n)) == n
  {
    if n >= 10 {
      var s := NatDigits(n);
      assert s[..|s| - 1] == NatDigits(n / 10);
      DigitsRoundTrip(n / 10);
    }
  }

  /** The position of the first `ch` in `s`, or |s| when there is none. */
  function IndexOf(s: string, ch: char): (i: nat)
    ensures i <= |s|
    ensures i < |s| ==> s[i] == ch
    ensures forall k :: 0 <= k < i ==> s[k] != ch
  {
    if |s| == 0 then 0 else if s[0] == ch then 0 else 1 + IndexOf(s[1..], ch)
  }

  /**
   * The seconds field: whole seconds, optionally followed by a point and a single
   * tenths digit; the result is in tenths.
   */
  function ParseSeconds(f: string): Option<nat>
  {
    var j := IndexOf(f, '.');
    var whole := f[..j];
    if |whole| == 0 || !AllDigits(whole) then None
    else if j == |f| then Some(10 * DigitsValue(whole))
    else if |f| == j + 2 && IsDigit(f[j + 1]) then Some(10 * DigitsValue(whole) + DigitValue(f[j + 1]))
    else None
  }

  /**
   * Splits the clock at ':' and reads the first two fields, as `split(":")` followed
   * by indexing 0 and 1 does; a string without ':' has no seconds field.
   */
  function ParseClock(s: string): (r: Option<PlayClock>)
    ensures r.Some? ==> ':' in s
  {
    var i := IndexOf(s, ':');
    if i == |s| then None
    else
      var minutesField := s[..i];
      var rest := s[i + 1..];
      var secondsField := rest[..IndexOf(rest, ':')];
      if |minutesField| == 0 || !AllDigits(minutesField) then None
      else
        match ParseSeconds(secondsField)
        case None => None
        case Some(tenths) => Some(PlayClock(DigitsValue(minutesField), tenths))
  }

  /** Writes a number of tenths as "S.t". */
  function FormatSeconds(tenths: nat): string
  {
    NatDigits(tenths / 10) + "." + [DigitChar(tenths % 10)]
  }

  /** Writes a clock as "M:S.t". */
  function FormatClock(c: PlayClock): string
  {
    NatDigits(c.minutes) + ":" + FormatSeconds(c.tenths)
  }

  lemma IndexOfMissing(s: string, ch: char)
    requires ch !in s
    ensures IndexOf(s, ch) == |s|
  {
  }

  lemma IndexOfAfter(a: string, ch: char, b: string)
    requires AllDigits(a) && !IsDigit(ch)
    ensures IndexOf(a + [ch] + b, ch) == |a|
  {
    var s := a + [ch] + b;
    assert s[|a|] == ch;
  }

  /** A digit field, a ':' and a seconds field without ':' split into those two fields. */
  lemma ParseClockFields(m: string, f: string)
    requires |m| > 0 && AllDigits(m) && ':' !in f
    ensures ParseClock(m + ":" + f) == match ParseSeconds(f)
      case None => None
      case Some(tenths) => Some(PlayClock(DigitsValue(m), tenths))
  {
    var s := m + ":" + f;
    assert s == m + [':'] + f;
    IndexOfAfter(m, ':', f);
    assert s[..|m|] == m;
    assert s[|m| + 1..] == f;
    IndexOfMissing(f, ':');
    assert f[..|f|] == f;
  }

  /** A seconds field written by `FormatSeconds` has no ':' and reads back as the same tenths. */
  lemma ParseFormatSeconds(tenths: nat)
    ensures ':' !in FormatSeconds(tenths)
    ensures ParseSeconds(FormatSeconds(tenths)) == Some(tenths)
  {
    var ws := NatDigits(tenths / 10);
    var d := DigitChar(tenths % 10);
    var f := FormatSeconds(tenths);
    assert f == ws + ['.'] + [d];
    assert forall k :: 0 <= k < |f| ==> f[k] != ':';
    IndexOfAfter(ws, '.', [d]);
    assert f[..|ws|] == ws;
    assert f[|ws| + 1] == d;
    DigitsRoundTrip(tenths / 10);
  }

  /** Formatting a clock and parsing it back gives the same clock. */
  lemma ParseFormatRoundTrip(c: PlayClock)
    ensures ParseClock(FormatClock(c)) == Some(c)
  {
    ParseFormatSeconds(c.tenths);
    ParseClockFields(NatDigits(c.minutes), FormatSeconds(c.tenths));
    DigitsRoundTrip(c.minutes);
  }

  /** A clock written "M:SS", both fields plain digits, is read as M minutes and SS seconds. */
  lemma ParseWholeSeconds(m: string, sec: string)
    requires |m| > 0 && AllDigits(m) && |sec| > 0 && AllDigits(sec)
    ensures ParseClock(m + ":" + sec) == Some(PlayClock(DigitsValue(m), 10 * DigitsValue(sec)))
  {
    assert ':' !in sec && '.' !in sec;
    ParseClockFields(m, sec);
    IndexOfMissing(sec, '.');
    assert sec[..|sec|] == sec;
  }
}
