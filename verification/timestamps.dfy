/** Date-time parsing and formatting as the normalizer uses it through moment:
    a local (zone-less) date-time is parsed from an ISO 8601 string and printed
    back with the tokens YYYY-MM-DDTHH:mm:ss and Z. The host's time zone is
    not modelled by rules: it is a parameter that gives the offset in force
    at each local date-time. */
module Timestamps {
  import opened Wrappers

  /** A wall-clock date and time with no zone attached. */
  datatype LocalDateTime = LocalDateTime(year: nat, month: nat, day: nat, hour: nat, minute: nat, second: nat)

  predicate IsLeapYear(year: nat) {
    (year % 4 == 0 && year % 100 != 0) || year % 400 == 0
  }

  function DaysInMonth(year: nat, month: nat): nat
    requires 1 <= month <= 12
  {
    if month == 2 then (if IsLeapYear(year) then 29 else 28)
    else if month == 4 || month == 6 || month == 9 || month == 11 then 30
    else 31
  }

  /** A date-time that exists on the calendar and fits four year digits. */
  predicate IsValid(t: LocalDateTime) {
    && t.year <= 9999
    && 1 <= t.month <= 12
    && 1 <= t.day <= DaysInMonth(t.year, t.month)
    && t.hour <= 23
    && t.minute <= 59
    && t.second <= 59
  }

  /** What a valid moment holds. */
  type Moment = t: LocalDateTime | IsValid(t) witness LocalDateTime(1970, 1, 1, 0, 0, 0)

  /** Minutes by which local time is ahead of UTC (+60 for UTC+01:00). */
  type Offset = m: int | -1440 < m < 1440

  /** The host's time zone: the offset in force at each local date-time. */
  type Zone = Moment -> Offset

  // ---------------------------------------------------------------------
  // Fixed-width decimal fields

  predicate IsDigit(c: char) {
    '0' <= c <= '9'
  }

  function DigitValue(c: char): nat
    requires IsDigit(c)
  {
    c as int - '0' as int
  }

  function DigitChar(d: nat): char
    requires d < 10
  {
    (d + '0' as int) as char
  }

  /** s[lo..hi] is all decimal digits. */
  predicate DigitsAt(s: string, lo: nat, hi: nat)
    requires lo <= hi <= |s|
  {
    forall i :: lo <= i < hi ==> IsDigit(s[i])
  }

  /** The two-digit number at s[i..i+2]. */
  function Field2(s: string, i: nat): nat
    requires i + 2 <= |s| && DigitsAt(s, i, i + 2)
  {
    10 * DigitValue(s[i]) + DigitValue(s[i + 1])
  }

  /** The four-digit number at s[i..i+4]. */
  function Field4(s: string, i: nat): nat
    requires i + 4 <= |s| && DigitsAt(s, i, i + 4)
  {
    100 * Field2(s, i) + Field2(s, i + 2)
  }

  /** n as two digits, zero-padded (the tokens MM, DD, HH, mm, ss). */
  function Pad2(n: nat): (s: string)
    requires n < 100
    ensures |s| == 2
  {
    [DigitChar(n / 10), DigitChar(n % 10)]
  }

  /** n as four digits, zero-padded (the token YYYY). */
  function Pad4(n: nat): (s: string)
    requires n < 10000
    ensures |s| == 4
  {
    Pad2(n / 100) + Pad2(n % 100)
  }

  /** A two-digit field reads back as the number it was printed from. */
  lemma Field2OfPad2(n: nat)
    requires n < 100
    ensures DigitsAt(Pad2(n), 0, 2) && Field2(Pad2(n), 0) == n
  {
  }

  /** A four-digit field reads back as the number it was printed from. */
  lemma Field4OfPad4(n: nat)
    requires n < 10000
    ensures DigitsAt(Pad4(n), 0, 4) && Field4(Pad4(n), 0) == n
  {
    var s := Pad4(n);
    Field2OfPad2(n / 100);
    Field2OfPad2(n % 100);
    assert s[2..] == Pad2(n % 100);
    assert Field2(s, 2) == Field2(Pad2(n % 100), 0);
  }

  /** Printing a two-digit field gives back its characters. */
  lemma Pad2OfField2(s: string, i: nat)
    requires i + 2 <= |s| && DigitsAt(s, i, i + 2)
    ensures Field2(s, i) < 100 && Pad2(Field2(s, i)) == s[i..i + 2]
  {
  }

  /** Printing a four-digit field gives back its characters. */
  lemma Pad4OfField4(s: string, i: nat)
    requires i + 4 <= |s| && DigitsAt(s, i, i + 4)
    ensures Field4(s, i) < 10000 && Pad4(Field4(s, i)) == s[i..i + 4]
  {
    var a, b := Field2(s, i), Field2(s, i + 2);
    Pad2OfField2(s, i);
    Pad2OfField2(s, i + 2);
    assert Field4(s, i) / 100 == a && Field4(s, i) % 100 == b;
    assert s[i..i + 4] == s[i..i + 2] + s[i + 2..i + 4];
  }

  // ---------------------------------------------------------------------
  // Parsing "YYYY-MM-DD HH:mm"

  /** The shape moment accepts for a date-time without seconds: four year
      digits, two-digit month, day, hour and minute, with the date and the
      time separated by a space or a 'T'. */
  predicate HasLocalShape(s: string) {
    && |s| == 16
    && DigitsAt(s, 0, 4) && s[4] == '-'
    && DigitsAt(s, 5, 7) && s[7] == '-'
    && DigitsAt(s, 8, 10) && (s[10] == ' ' || s[10] == 'T')
    && DigitsAt(s, 11, 13) && s[13] == ':'
    && DigitsAt(s, 14, 16)
  }

  /** Local-mode parse of a date-time string; None is moment's invalid date
      (a string of another shape, or a date that is not on the calendar). */
  function ParseLocal(s: string): (r: Option<Moment>)
    ensures r.Some? ==> HasLocalShape(s) && r.value.second == 0
    ensures HasLocalShape(s) ==>
              (r.Some? <==> IsValid(LocalDateTime(Field4(s, 0), Field2(s, 5), Field2(s, 8), Field2(s, 11), Field2(s, 14), 0)))
  {
    if HasLocalShape(s) then
      var t := LocalDateTime(Field4(s, 0), Field2(s, 5), Field2(s, 8), Field2(s, 11), Field2(s, 14), 0);
      if IsValid(t) then Some(t) else None
    else None
  }

  // ---------------------------------------------------------------------
  // Formatting

  /** The tokens YYYY-MM-DD. */
  function FormatDate(t: Moment): (s: string)
    ensures |s| == 10
  {
    Pad4(t.year) + "-" + Pad2(t.month) + "-" + Pad2(t.day)
  }

  /** The tokens HH:mm:ss. */
  function FormatClock(t: Moment): (s: string)
    ensures |s| == 8
  {
    Pad2(t.hour) + ":" + Pad2(t.minute) + ":" + Pad2(t.second)
  }

  /** The token string YYYY-MM-DDTHH:mm:ss. */
  function FormatDeviceTime(t: Moment): (s: string)
    ensures |s| == 19
  {
    FormatDate(t) + "T" + FormatClock(t)
  }

  function Abs(x: int): nat {
    if x < 0 then -x else x
  }

  /** The token Z: a sign, two hour digits, a colon and two minute digits. */
  function FormatOffset(offset: Offset): (s: string)
    ensures |s| == 6
  {
    (if offset < 0 then "-" else "+") + Pad2(Abs(offset) / 60) + ":" + Pad2(Abs(offset) % 60)
  }

  /** The token string YYYY-MM-DDTHH:mm:ssZ. */
  function FormatTime(t: Moment, offset: Offset): string
  {
    FormatDeviceTime(t) + FormatOffset(offset)
  }

  /** Reads a "+HH:mm" / "-HH:mm" suffix back into minutes. */
  function ParseOffset(s: string): Option<int>
  {
    if |s| == 6 && (s[0] == '+' || s[0] == '-') && DigitsAt(s, 1, 3) && s[3] == ':' && DigitsAt(s, 4, 6) then
      var minutes := 60 * Field2(s, 1) + Field2(s, 4);
      Some(if s[0] == '-' then -minutes else minutes)
    else None
  }

  // ---------------------------------------------------------------------
  // Properties

  /** The offset suffix reads back as the offset it was printed from. */
  lemma OffsetRoundTrip(offset: Offset)
    ensures ParseOffset(FormatOffset(offset)) == Some(offset)
  {
    var s := FormatOffset(offset);
    var a := Abs(offset);
    Field2OfPad2(a / 60);
    Field2OfPad2(a % 60);
    assert s[1..3] == Pad2(a / 60) && s[4..6] == Pad2(a % 60);
    assert Field2(s, 1) == a / 60 && Field2(s, 4) == a % 60;
  }

  /** A time string is its device time followed by an offset that reads back. */
  lemma TimeExtendsDeviceTime(t: Moment, offset: Offset)
    ensures FormatTime(t, offset)[..19] == FormatDeviceTime(t)
    ensures ParseOffset(FormatTime(t, offset)[19..]) == Some(offset)
  {
    var s := FormatTime(t, offset);
    assert s[19..] == FormatOffset(offset);
    OffsetRoundTrip(offset);
  }

  /** Parsing then formatting rewrites the input: the separator becomes 'T'
      and ":00" seconds are appended; the digits are the input's own. */
  lemma DeviceTimeOfParse(s: string)
    requires ParseLocal(s).Some?
    ensures FormatDeviceTime(ParseLocal(s).value) == s[..10] + "T" + s[11..] + ":00"
  {
    var t := ParseLocal(s).value;
    Pad4OfField4(s, 0);
    Pad2OfField2(s, 5);
    Pad2OfField2(s, 8);
    Pad2OfField2(s, 11);
    Pad2OfField2(s, 14);
    assert FormatDate(t) == s[..10];
    assert Pad2(0) == "00";
    assert FormatClock(t) == s[11..] + ":00";
  }

  /** Every valid date-time with zero seconds is what some string parses to:
      the first sixteen characters of its own device time. */
  lemma ParseOfDeviceTime(t: Moment)
    requires t.second == 0
    ensures ParseLocal(FormatDeviceTime(t)[..16]) == Some(t)
  {
    var d, c := FormatDate(t), FormatClock(t);
    var s := FormatDeviceTime(t)[..16];
    assert forall i :: 0 <= i < 10 ==> s[i] == d[i];
    assert forall i :: 11 <= i < 16 ==> s[i] == c[i - 11];
    assert s[10] == 'T';
    assert forall i :: 0 <= i < 4 ==> d[i] == Pad4(t.year)[i];
    assert d[4] == '-' && d[5] == Pad2(t.month)[0] && d[6] == Pad2(t.month)[1];
    assert d[7] == '-' && d[8] == Pad2(t.day)[0] && d[9] == Pad2(t.day)[1];
    assert c[0] == Pad2(t.hour)[0] && c[1] == Pad2(t.hour)[1] && c[2] == ':';
    assert c[3] == Pad2(t.minute)[0] && c[4] == Pad2(t.minute)[1];
    Field4OfChars(s, 0, t.year);
    Field2OfChars(s, 5, t.month);
    Field2OfChars(s, 8, t.day);
    Field2OfChars(s, 11, t.hour);
    Field2OfChars(s, 14, t.minute);
    assert HasLocalShape(s);
  }

  /** Characters printed by Pad2 read back as the number printed. */
  lemma Field2OfChars(s: string, i: nat, n: nat)
    requires n < 100 && i + 2 <= |s|
    requires s[i] == Pad2(n)[0] && s[i + 1] == Pad2(n)[1]
    ensures DigitsAt(s, i, i + 2) && Field2(s, i) == n
  {
    Field2OfPad2(n);
  }

  /** Characters printed by Pad4 read back as the number printed. */
  lemma Field4OfChars(s: string, i: nat, n: nat)
    requires n < 10000 && i + 4 <= |s|
    requires forall k :: 0 <= k < 4 ==> s[i + k] == Pad4(n)[k]
    ensures DigitsAt(s, i, i + 4) && Field4(s, i) == n
  {
    Field4OfPad4(n);
    var p := Pad4(n);
    assert s[i] == p[0] && s[i + 1] == p[1] && s[i + 2] == p[2] && s[i + 3] == p[3];
  }
}
