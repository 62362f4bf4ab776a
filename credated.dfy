/**
  `ExperimentDetailDB.credated` (src/data/models/sqlite/autosubmit_models.py): the `created` text
  of an Autosubmit experiment read as a naive date and time.
 */
module AutosubmitModels {
  import opened Wrappers

  /** A naive `datetime` at whole-second resolution. */
  datatype DateTime = DateTime(year: int, month: int, day: int, hour: int, minute: int, second: int)

  predicate LeapYear(y: int) {
    y % 4 == 0 && (y % 100 != 0 || y % 400 == 0)
  }

  function DaysInMonth(y: int, m: int): int
    requires 1 <= m <= 12
  {
    if m == 2 then (if LeapYear(y) then 29 else 28)
    else if m == 4 || m == 6 || m == 9 || m == 11 then 30
    else 31
  }

  /** The values `datetime` accepts: years 1 to 9999 and a real calendar day. */
  predicate ValidDateTime(d: DateTime) {
    1 <= d.year <= 9999 && 1 <= d.month <= 12 && 1 <= d.day <= DaysInMonth(d.year, d.month) &&
    0 <= d.hour < 24 && 0 <= d.minute < 60 && 0 <= d.second < 60
  }

  predicate IsDigit(c: char) {
    '0' <= c <= '9'
  }

  /** The decimal value of a run of digits. */
  function Num(s: string): (r: nat)
    requires forall i :: 0 <= i < |s| ==> IsDigit(s[i])
  {
    if s == [] then 0 else Num(s[..|s| - 1]) * 10 + DigitValue(s[|s| - 1])
  }

  function DigitValue(c: char): nat
    requires IsDigit(c)
  {
    c as int - '0' as int
  }

  predicate DigitsAt(s: string, i: nat, n: nat)
    requires i + n <= |s|
  {
    forall k :: i <= k < i + n ==> IsDigit(s[k])
  }

  /** `(\d{4}-\d{2}-\d{2}T\d{2}:\d{2}:\d{2})([+-])(\d{2}):(\d{2})` matched at the start of `s` (the
      first 25 characters; whatever follows is not looked at). */
  predicate OffsetPattern(s: string) {
    |s| >= 25 &&
    DigitsAt(s, 0, 4) && s[4] == '-' && DigitsAt(s, 5, 2) && s[7] == '-' && DigitsAt(s, 8, 2) &&
    s[10] == 'T' && DigitsAt(s, 11, 2) && s[13] == ':' && DigitsAt(s, 14, 2) && s[16] == ':' &&
    DigitsAt(s, 17, 2) && (s[19] == '+' || s[19] == '-') && DigitsAt(s, 20, 2) && s[22] == ':' &&
    DigitsAt(s, 23, 2)
  }

  /** The fields of `YYYY-MM-DDTHH:MM:SS` at the start of a string matching the pattern. */
  function Fields(s: string): DateTime
    requires OffsetPattern(s)
  {
    DateTime(Num(s[0..4]), Num(s[5..7]), Num(s[8..10]), Num(s[11..13]), Num(s[14..16]), Num(s[17..19]))
  }

  /** The offset the pattern captures, in seconds; it is computed and then discarded. */
  function OffsetSeconds(s: string): int
    requires OffsetPattern(s)
  {
    var magnitude := Num(s[20..22]) * 3600 + Num(s[23..25]) * 60;
    if s[19] == '-' then -magnitude else magnitude
  }

  /** `credated`. An empty `created` gives None. When `created` starts with the pattern, its first 19
      characters are read as a date and time, and the offset is dropped; otherwise the whole string
      goes to `datetime.fromisoformat`, whose result is the parameter `isoParse` (None for a
      `ValueError`). Any `ValueError` yields the current time `now`. */
  function Credated(created: string, isoParse: Option<DateTime>, now: DateTime): (r: Option<DateTime>)
    ensures created == [] <==> r.None?
    ensures OffsetPattern(created) && ValidDateTime(Fields(created)) ==> r == Some(Fields(created))
    ensures OffsetPattern(created) && !ValidDateTime(Fields(created)) ==> r == Some(now)
    ensures created != [] && !OffsetPattern(created) ==> r == Some(if isoParse.Some? then isoParse.value else now)
  {
    if created == [] then None
    else if OffsetPattern(created) then
      var dt := Fields(created);
      var _ := OffsetSeconds(created);
      if ValidDateTime(dt) then Some(dt) else Some(now)
    else if isoParse.Some? then Some(isoParse.value)
    else Some(now)
  }

  // ---------------------------------------------------------------------------------------------
  // Writing a timestamp the way Autosubmit stores it

  function Digit(n: nat): char
    requires n < 10
  {
    ('0' as int + n) as char
  }

  /** `n` written with exactly `width` digits. */
  function Pad(n: nat, width: nat): (s: string)
    ensures |s| == width
    ensures forall i :: 0 <= i < |s| ==> IsDigit(s[i])
  {
    if width == 0 then [] else Pad(n / 10, width - 1) + [Digit(n % 10)]
  }

  /** `10 ** k`. */
  function Power10(k: nat): nat {
    if k == 0 then 1 else 10 * Power10(k - 1)
  }

  /** Reading back a padded number gives the number, when it fits. */
  lemma {:induction false} NumPad(n: nat, width: nat)
    requires n < Power10(width)
    ensures Num(Pad(n, width)) == n
  {
    if width > 0 {
      var s := Pad(n, width);
      assert s[..|s| - 1] == Pad(n / 10, width - 1);
      NumPad(n / 10, width - 1);
    }
  }

  /** Fields that can be written as `YYYY-MM-DDTHH:MM:SS`, whether or not they name a real time. */
  predicate Writable(d: DateTime) {
    0 <= d.year < 10000 && 0 <= d.month < 100 && 0 <= d.day < 100 &&
    0 <= d.hour < 100 && 0 <= d.minute < 100 && 0 <= d.second < 100
  }

  function DatePart(d: DateTime): string
    requires Writable(d)
  {
    Pad(d.year, 4) + "-" + Pad(d.month, 2) + "-" + Pad(d.day, 2)
  }

  function TimePart(d: DateTime): string
    requires Writable(d)
  {
    Pad(d.hour, 2) + ":" + Pad(d.minute, 2) + ":" + Pad(d.second, 2)
  }

  function OffsetPart(negative: bool, offsetHours: nat, offsetMinutes: nat): string
    requires offsetHours < 100 && offsetMinutes < 100
  {
    (if negative then "-" else "+") + Pad(offsetHours, 2) + ":" + Pad(offsetMinutes, 2)
  }

  /** `YYYY-MM-DDTHH:MM:SS±HH:MM`, the form in which `created` is stored. */
  function Format(d: DateTime, negative: bool, offsetHours: nat, offsetMinutes: nat): string
    requires Writable(d) && offsetHours < 100 && offsetMinutes < 100
  {
    DatePart(d) + "T" + TimePart(d) + OffsetPart(negative, offsetHours, offsetMinutes)
  }

  /** Where the pieces of `a + [x] + b + [y] + c` sit. */
  lemma Pieces(a: string, x: char, b: string, y: char, c: string)
    ensures var s := a + [x] + b + [y] + c;
            |s| == |a| + |b| + |c| + 2 && s[..|a|] == a && s[|a|] == x &&
            s[|a| + 1..|a| + 1 + |b|] == b && s[|a| + 1 + |b|] == y && s[|a| + 2 + |b|..] == c
  {
    var s := a + [x] + b + [y] + c;
    assert s == a + ([x] + b + [y] + c);
    assert ([x] + b + [y] + c) == [x] + (b + ([y] + c));
  }

  lemma DateShape(d: DateTime)
    requires Writable(d)
    ensures var s := DatePart(d);
            |s| == 10 && s[0..4] == Pad(d.year, 4) && s[4] == '-' && s[5..7] == Pad(d.month, 2) &&
            s[7] == '-' && s[8..10] == Pad(d.day, 2)
  {
    Pieces(Pad(d.year, 4), '-', Pad(d.month, 2), '-', Pad(d.day, 2));
  }

  lemma TimeShape(d: DateTime)
    requires Writable(d)
    ensures var s := TimePart(d);
            |s| == 8 && s[0..2] == Pad(d.hour, 2) && s[2] == ':' && s[3..5] == Pad(d.minute, 2) &&
            s[5] == ':' && s[6..8] == Pad(d.second, 2)
  {
    Pieces(Pad(d.hour, 2), ':', Pad(d.minute, 2), ':', Pad(d.second, 2));
  }

  lemma OffsetShape(negative: bool, h: nat, m: nat)
    requires h < 100 && m < 100
    ensures var s := OffsetPart(negative, h, m);
            |s| == 6 && s[0] == (if negative then '-' else '+') && s[1..3] == Pad(h, 2) &&
            s[3] == ':' && s[4..6] == Pad(m, 2)
  {
    var sign := if negative then "-" else "+";
    assert OffsetPart(negative, h, m) == sign + Pad(h, 2) + [':'] + [] + Pad(m, 2);
    Pieces(sign + Pad(h, 2), ':', [], ':', Pad(m, 2));
    assert (sign + Pad(h, 2))[1..3] == Pad(h, 2);
  }

  /** Where the characters of the three parts sit in the stored form. */
  lemma Layout(date: string, time: string, offset: string)
    requires |date| == 10 && |time| == 8 && |offset| == 6
    ensures var s := date + "T" + time + offset;
            |s| == 25 && s[0..4] == date[0..4] && s[4] == date[4] && s[5..7] == date[5..7] &&
            s[7] == date[7] && s[8..10] == date[8..10] && s[10] == 'T' &&
            s[11..13] == time[0..2] && s[13] == time[2] && s[14..16] == time[3..5] &&
            s[16] == time[5] && s[17..19] == time[6..8] &&
            s[19] == offset[0] && s[20..22] == offset[1..3] && s[22] == offset[3] && s[23..25] == offset[4..6]
  {
    var s := date + "T" + time + offset;
    assert s == date + ("T" + time + offset);
    assert s[..10] == date;
    assert s[11..19] == time;
    assert s[19..] == offset;
  }

  lemma FormatShape(d: DateTime, negative: bool, h: nat, m: nat)
    requires Writable(d) && h < 100 && m < 100
    ensures var s := Format(d, negative, h, m);
            |s| == 25 && s[0..4] == Pad(d.year, 4) && s[5..7] == Pad(d.month, 2) &&
            s[8..10] == Pad(d.day, 2) && s[11..13] == Pad(d.hour, 2) &&
            s[14..16] == Pad(d.minute, 2) && s[17..19] == Pad(d.second, 2) &&
            s[4] == '-' && s[7] == '-' && s[10] == 'T' && s[13] == ':' && s[16] == ':' &&
            s[19] == (if negative then '-' else '+') && s[22] == ':' &&
            s[20..22] == Pad(h, 2) && s[23..25] == Pad(m, 2)
  {
    DateShape(d);
    TimeShape(d);
    OffsetShape(negative, h, m);
    Layout(DatePart(d), TimePart(d), OffsetPart(negative, h, m));
  }

  /** The prefix of a string fixes whether the pattern matches and the fields read. */
  lemma PatternPrefix(s: string, tail: string)
    requires OffsetPattern(s)
    ensures OffsetPattern(s + tail)
    ensures Fields(s + tail) == Fields(s)
  {
    var t := s + tail;
    assert t[0..4] == s[0..4] && t[5..7] == s[5..7] && t[8..10] == s[8..10];
    assert t[11..13] == s[11..13] && t[14..16] == s[14..16] && t[17..19] == s[17..19];
  }

  /** Whatever follows a written timestamp, the pattern matches and reads back the written fields. */
  lemma FormatFields(d: DateTime, negative: bool, h: nat, m: nat, tail: string)
    requires Writable(d) && h < 100 && m < 100
    ensures OffsetPattern(Format(d, negative, h, m) + tail)
    ensures Fields(Format(d, negative, h, m) + tail) == d
  {
    var s := Format(d, negative, h, m);
    FormatShape(d, negative, h, m);
    assert OffsetPattern(s);
    NumPad(d.year, 4);
    NumPad(d.month, 2);
    NumPad(d.day, 2);
    NumPad(d.hour, 2);
    NumPad(d.minute, 2);
    NumPad(d.second, 2);
    assert Fields(s) == d;
    PatternPrefix(s, tail);
  }

  /** A stored timestamp reads back as its date and time, whatever its offset and whatever text
      follows it: the offset is never applied, and the match is anchored only at the start. */
  lemma FormatRoundTrip(d: DateTime, negative: bool, h: nat, m: nat, tail: string, isoParse: Option<DateTime>, now: DateTime)
    requires ValidDateTime(d) && h < 100 && m < 100
    ensures Credated(Format(d, negative, h, m) + tail, isoParse, now) == Some(d)
  {
    FormatFields(d, negative, h, m, tail);
  }

  /** A stored timestamp naming a time the calendar does not have (February 29 of a common year,
      hour 24, month 13, year 0) reads as the current time, whatever follows it. */
  lemma ImpossibleTimeReadsAsNow(d: DateTime, negative: bool, h: nat, m: nat, tail: string, isoParse: Option<DateTime>, now: DateTime)
    requires Writable(d) && !ValidDateTime(d) && h < 100 && m < 100
    ensures Credated(Format(d, negative, h, m) + tail, isoParse, now) == Some(now)
  {
    FormatFields(d, negative, h, m, tail);
  }

  /** Two stored timestamps that differ only in their offset read as the same time, although they
      denote instants apart by the difference of the offsets. */
  lemma OffsetIgnored(d: DateTime, h1: nat, m1: nat, h2: nat, m2: nat, isoParse: Option<DateTime>, now: DateTime)
    requires ValidDateTime(d) && h1 < 100 && m1 < 100 && h2 < 100 && m2 < 100
    ensures OffsetSeconds(Format(d, false, h1, m1)) - OffsetSeconds(Format(d, true, h2, m2)) ==
              (h1 + h2) * 3600 + (m1 + m2) * 60
    ensures Credated(Format(d, false, h1, m1), isoParse, now) == Credated(Format(d, true, h2, m2), isoParse, now)
  {
    FormatShape(d, false, h1, m1);
    FormatShape(d, true, h2, m2);
    NumPad(h1, 2);
    NumPad(m1, 2);
    NumPad(h2, 2);
    NumPad(m2, 2);
    FormatRoundTrip(d, false, h1, m1, [], isoParse, now);
    FormatRoundTrip(d, true, h2, m2, [], isoParse, now);
    assert Format(d, false, h1, m1) + [] == Format(d, false, h1, m1);
    assert Format(d, true, h2, m2) + [] == Format(d, true, h2, m2);
  }
}
