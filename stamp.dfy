/** The run stamp: a UTC wall-clock reading formatted with strftime("%Y%m%d_%H%M"). */
module Stamp {

  import opened Text

  /** The calendar fields of a clock reading, minute resolution. */
  datatype Clock = Clock(year: nat, month: nat, day: nat, hour: nat, minute: nat)

  /** What a real clock can show. Years below 1000 are excluded: %Y does not pad them on every platform. */
  predicate ValidClock(t: Clock)
  {
    1000 <= t.year <= 9999 && 1 <= t.month <= 12 && 1 <= t.day <= 31 && t.hour <= 23 && t.minute <= 59
  }

  /** A string shaped like a stamp: eight digits, an underscore, four digits. */
  predicate StampShaped(s: string)
  {
    |s| == 13 && s[8] == '_' && (forall k :: 0 <= k < 13 && k != 8 ==> IsDigit(s[k]))
  }

  /** YYYYMMDD_HHMM */
  function Format(t: Clock): (s: string)
    requires ValidClock(t)
    ensures StampShaped(s)
    ensures ';' !in s && ',' !in s
  {
    var s := Padded(t.year, 4) + Padded(t.month, 2) + Padded(t.day, 2) + "_" + Padded(t.hour, 2) + Padded(t.minute, 2);
    assert forall k :: 0 <= k < 13 && k != 8 ==> IsDigit(s[k]);
    s
  }

  /** Reads the fields back out of a stamp. */
  function Parse(s: string): Clock
    requires StampShaped(s)
  {
    assert AllDigits(s[0..4]) && AllDigits(s[4..6]) && AllDigits(s[6..8]);
    assert AllDigits(s[9..11]) && AllDigits(s[11..13]);
    Clock(Value(s[0..4]), Value(s[4..6]), Value(s[6..8]), Value(s[9..11]), Value(s[11..13]))
  }

  /** Formatting loses nothing: the stamp determines the minute it was taken. */
  lemma ParseFormat(t: Clock)
    requires ValidClock(t)
    ensures Parse(Format(t)) == t
  {
    var y, mo, d, h, mi := Padded(t.year, 4), Padded(t.month, 2), Padded(t.day, 2), Padded(t.hour, 2), Padded(t.minute, 2);
    var s := Format(t);
    assert s == y + mo + d + "_" + h + mi;
    assert s[0..4] == y && s[4..6] == mo && s[6..8] == d && s[9..11] == h && s[11..13] == mi;
    PaddedValue(t.year, 4);
    PaddedValue(t.month, 2);
    PaddedValue(t.day, 2);
    PaddedValue(t.hour, 2);
    PaddedValue(t.minute, 2);
  }

  /** Two runs in different minutes never share a stamp. */
  lemma FormatInjective(t1: Clock, t2: Clock)
    requires ValidClock(t1) && ValidClock(t2) && t1 != t2
    ensures Format(t1) != Format(t2)
  {
    ParseFormat(t1);
    ParseFormat(t2);
  }
}
