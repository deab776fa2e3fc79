/** Wall-clock readings (`datetime.now()`) and the two `strftime` layouts the
    programs use: `%H:%M:%S` for measurement stamps and `%Y%m%d_%H%M%S` for
    file names. The clock itself is an input. */
module Timestamps {
  import opened Text

  datatype DateTime = DateTime(year: nat, month: nat, day: nat, hour: nat, minute: nat, second: nat)

  /** The ranges a Python `datetime` guarantees for its fields. */
  predicate ValidDateTime(t: DateTime) {
    1 <= t.year <= 9999 && 1 <= t.month <= 12 && 1 <= t.day <= 31 &&
    t.hour < 24 && t.minute < 60 && t.second < 60
  }

  /** `strftime('%H:%M:%S')`. */
  function ClockText(t: DateTime): string {
    Pad(t.hour, 2) + ":" + Pad(t.minute, 2) + ":" + Pad(t.second, 2)
  }

  /** `strftime("%Y%m%d_%H%M%S")`. */
  function CompactText(t: DateTime): string {
    Pad(t.year, 4) + Pad(t.month, 2) + Pad(t.day, 2) + "_" +
    Pad(t.hour, 2) + Pad(t.minute, 2) + Pad(t.second, 2)
  }

  /** Reads back hours, minutes and seconds from `HH:MM:SS`. */
  function ParseClockText(s: string): Option<(nat, nat, nat)> {
    if |s| == 8 && s[2] == ':' && s[5] == ':' &&
       AllDigits(s[0..2]) && AllDigits(s[3..5]) && AllDigits(s[6..8])
    then Some((DigitsValue(s[0..2]), DigitsValue(s[3..5]), DigitsValue(s[6..8])))
    else None
  }

  /** Reads back a date and time from `YYYYMMDD_HHMMSS`. */
  function ParseCompactText(s: string): Option<DateTime> {
    if |s| == 15 && s[8] == '_' &&
       AllDigits(s[0..4]) && AllDigits(s[4..6]) && AllDigits(s[6..8]) &&
       AllDigits(s[9..11]) && AllDigits(s[11..13]) && AllDigits(s[13..15])
    then Some(DateTime(DigitsValue(s[0..4]), DigitsValue(s[4..6]), DigitsValue(s[6..8]),
                       DigitsValue(s[9..11]), DigitsValue(s[11..13]), DigitsValue(s[13..15])))
    else None
  }

  /** Fields below 100 take exactly two characters. */
  lemma Width2(n: nat)
    requires n < 100
    ensures |Pad(n, 2)| == 2
  {
    PadWidth(n, 2);
  }

  lemma ClockTextRoundTrip(t: DateTime)
    requires ValidDateTime(t)
    ensures |ClockText(t)| == 8
    ensures ParseClockText(ClockText(t)) == Some((t.hour, t.minute, t.second))
  {
    var h, m, s := Pad(t.hour, 2), Pad(t.minute, 2), Pad(t.second, 2);
    Width2(t.hour); Width2(t.minute); Width2(t.second);
    var text := ClockText(t);
    assert text[0..2] == h && text[3..5] == m && text[6..8] == s;
    PadRoundTrip(t.hour, 2); PadRoundTrip(t.minute, 2); PadRoundTrip(t.second, 2);
  }

  lemma CompactTextRoundTrip(t: DateTime)
    requires ValidDateTime(t)
    ensures |CompactText(t)| == 15
    ensures ParseCompactText(CompactText(t)) == Some(t)
  {
    var y := Pad(t.year, 4);
    PadWidth(t.year, 4);
    Width2(t.month); Width2(t.day); Width2(t.hour); Width2(t.minute); Width2(t.second);
    var text := CompactText(t);
    assert text[0..4] == y;
    assert text[4..6] == Pad(t.month, 2);
    assert text[6..8] == Pad(t.day, 2);
    assert text[9..11] == Pad(t.hour, 2);
    assert text[11..13] == Pad(t.minute, 2);
    assert text[13..15] == Pad(t.second, 2);
    PadRoundTrip(t.year, 4); PadRoundTrip(t.month, 2); PadRoundTrip(t.day, 2);
    PadRoundTrip(t.hour, 2); PadRoundTrip(t.minute, 2); PadRoundTrip(t.second, 2);
  }

  /** Two readings give the same `%Y%m%d_%H%M%S` text only if they are the same second. */
  lemma CompactTextInjective(a: DateTime, b: DateTime)
    requires ValidDateTime(a) && ValidDateTime(b) && CompactText(a) == CompactText(b)
    ensures a == b
  {
    CompactTextRoundTrip(a);
    CompactTextRoundTrip(b);
  }
}
