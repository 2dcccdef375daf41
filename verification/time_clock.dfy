/**
 * The clock display and set helpers of the BLE sample applications
 * (common/cc26xx/time/time_clock.c): two- and four-digit decimal
 * formatting through an advancing character pointer, the display line
 * "HH:MM MmmDD YYYY", and the parsing of a Date Time characteristic
 * value into a UTC time structure.
 *
 * Reading and setting the UTC clock and printing to the display are left
 * to the caller: the display method returns the buffer it would print and
 * the set function returns the time structure it would hand to the clock.
 */
module TimeClock {
  import opened Bytes
  import opened Strings
  import Arith

  const DISPLAY_BUF_LEN: nat := 20

  /** `UTCTimeStruct`: month and day count from 0. */
  datatype UtcTime = UtcTime(seconds: nat, minutes: nat, hour: nat, day: nat, month: nat, year: nat)

  predicate ValidFields(t: UtcTime)
  {
    t.seconds < 0x100 && t.minutes < 0x100 && t.hour < 0x100 && t.day < 0x100 && t.month < 0x100 && t.year < 0x1_0000
  }

  /** The character `'0' + d`. */
  function DigitChar(d: nat): (c: char)
    requires d < 0x100
    ensures c as int == '0' as int + d
  {
    ('0' as int + d) as char
  }

  /** The two characters `num2Str` writes for `num`: its tens and its
      units, each added to '0'. */
  function TwoDigits(num: nat): (s: string)
    requires num < 0x100
    ensures |s| == 2
  {
    [DigitChar(num / 10), DigitChar(num % 10)]
  }

  /** For 0..99 the two characters are decimal digits spelling `num`. */
  lemma TwoDigitsDecimal(num: nat)
    requires num <= 99
    ensures AllDigits(TwoDigits(num)) && DecimalValue(TwoDigits(num)) == num
  {
    var s := TwoDigits(num);
    assert s[..1][..0] == [];
    assert DecimalValue(s[..1]) == num / 10;
  }

  /** The four characters `year2Str` writes: the thousands, hundreds, tens
      and units of `year`, each added to '0'. */
  function FourDigits(year: nat): (s: string)
    ensures |s| == 4 && AllDigits(s)
  {
    [DigitChar(year / 1000 % 10), DigitChar(year / 100 % 10), DigitChar(year / 10 % 10), DigitChar(year % 10)]
  }

  /** The four digits spell the year modulo 10000. */
  lemma {:induction false} FourDigitsDecimal(year: nat)
    ensures DecimalValue(FourDigits(year)) == year % 10000
  {
    var y := year % 10000;
    FourDigitValue(FourDigits(year));
    DecimalSplit(year);
    SmallDigits(y);
  }

  /** The value of four digits, digit by digit. */
  lemma FourDigitValue(s: string)
    requires |s| == 4 && AllDigits(s)
    ensures DecimalValue(s) ==
      (((s[0] as int - '0' as int) * 10 + (s[1] as int - '0' as int)) * 10 + (s[2] as int - '0' as int)) * 10
      + (s[3] as int - '0' as int)
  {
    assert DecimalValue(s[..1]) == s[0] as int - '0' as int by {
      assert s[..1][..0] == [];
    }
    assert DecimalValue(s[..2]) == DecimalValue(s[..1]) * 10 + (s[1] as int - '0' as int) by {
      assert s[..2][..1] == s[..1];
    }
    assert DecimalValue(s[..3]) == DecimalValue(s[..2]) * 10 + (s[2] as int - '0' as int) by {
      assert s[..3][..2] == s[..2];
    }
    assert s[..3] == s[..|s| - 1];
  }

  /** A number below 10000 is its four decimal digits. */
  lemma SmallDigits(y: nat)
    requires y < 10000
    ensures y == ((y / 1000 * 10 + y / 100 % 10) * 10 + y / 10 % 10) * 10 + y % 10
  {
    assert y / 10 == y / 10 / 10 * 10 + y / 10 % 10;
    assert y / 10 / 10 == y / 100;
    assert y / 100 == y / 100 / 10 * 10 + y / 100 % 10;
    assert y / 100 / 10 == y / 1000;
  }

  /** `(m * n + r) % n == r % n`. */
  lemma MulAddMod(m: nat, r: nat, n: nat)
    requires 0 < n
    ensures (m * n + r) % n == r % n
  {
    assert m * n + r == (m + r / n) * n + r % n;
    Arith.DivModUnique(m + r / n, r % n, n);
  }

  /** The decimal digits of `year` below the ten-thousands are those of
      `year % 10000`. */
  lemma {:induction false} DecimalSplit(year: nat)
    ensures var y := year % 10000;
      year / 1000 % 10 == y / 1000 && year / 100 % 10 == y / 100 % 10
      && year / 10 % 10 == y / 10 % 10 && year % 10 == y % 10
  {
    var q, y := year / 10000, year % 10000;
    Arith.DivModUnique(q * 10 + y / 1000, y % 1000, 1000);
    MulAddMod(q, y / 1000, 10);
    Arith.DivModUnique(q * 100 + y / 100, y % 100, 100);
    MulAddMod(q * 10, y / 100, 10);
    Arith.DivModUnique(q * 1000 + y / 10, y % 10, 10);
    MulAddMod(q * 100, y / 10, 10);
    MulAddMod(q * 1000, y, 10);
  }

  /**
   * `num2Str`: write the two characters for `num` at `p` and return the
   * position after them; the rest of the buffer is unchanged.
   */
  method Num2Str(buf: array<char>, p: nat, num: nat) returns (q: nat)
    requires num < 0x100 && p + 2 <= buf.Length
    modifies buf
    ensures q == p + 2 && buf[p..q] == TwoDigits(num)
    ensures buf[..p] == old(buf[..p]) && buf[q..] == old(buf[q..])
  {
    buf[p] := DigitChar(num / 10);
    buf[p + 1] := DigitChar(num % 10);
    q := p + 2;
  }

  /** `year2Str`: write the four characters for `year` at `p` and return
      the position after them. */
  method Year2Str(buf: array<char>, p: nat, year: nat) returns (q: nat)
    requires p + 4 <= buf.Length
    modifies buf
    ensures q == p + 4 && buf[p..q] == FourDigits(year)
    ensures buf[..p] == old(buf[..p]) && buf[q..] == old(buf[q..])
  {
    buf[p] := DigitChar(year / 1000 % 10);
    buf[p + 1] := DigitChar(year / 100 % 10);
    buf[p + 2] := DigitChar(year / 10 % 10);
    buf[p + 3] := DigitChar(year % 10);
    q := p + 4;
  }

  /** `timeMonthStr`. */
  const MonthNames: seq<string> :=
    ["Jan", "Feb", "Mar", "Apr", "May", "Jun", "Jul", "Aug", "Sep", "Oct", "Nov", "Dec"]

  /** Every month name is three letters long. */
  lemma MonthNameLength(month: nat)
    requires month < 12
    ensures |MonthNames[month]| == 3
  {
  }

  /** The display line "HH:MM MmmDD YYYY" with the day shown from 1 (the
      day is a `uint8_t`, so 255 shows as 0). */
  function DisplayLine(t: UtcTime): (s: string)
    requires ValidFields(t) && t.month < 12
    ensures |s| == 16
  {
    TwoDigits(t.hour) + ":" + TwoDigits(t.minutes) + " " + MonthNames[t.month]
    + TwoDigits((t.day + 1) % 0x100) + " " + FourDigits(t.year)
  }

  /** Where each field of the display line sits. */
  lemma DisplayLineLayout(t: UtcTime)
    requires ValidFields(t) && t.month < 12
    ensures var s := DisplayLine(t);
      s[0..2] == TwoDigits(t.hour) && s[2] == ':' && s[3..5] == TwoDigits(t.minutes) && s[5] == ' '
      && s[6..9] == MonthNames[t.month] && s[9..11] == TwoDigits((t.day + 1) % 0x100) && s[11] == ' '
      && s[12..16] == FourDigits(t.year)
  {
  }

  /** A time of day with an hour below 100 and a day below 99 reads back
      from the display line: hour, minutes, day + 1 and the year mod 10000. */
  lemma DisplayLineReadsBack(t: UtcTime)
    requires ValidFields(t) && t.month < 12 && t.hour <= 99 && t.minutes <= 99 && t.day < 99
    ensures var s := DisplayLine(t);
      AllDigits(s[0..2]) && DecimalValue(s[0..2]) == t.hour
      && AllDigits(s[3..5]) && DecimalValue(s[3..5]) == t.minutes
      && AllDigits(s[9..11]) && DecimalValue(s[9..11]) == t.day + 1
      && AllDigits(s[12..16]) && DecimalValue(s[12..16]) == t.year % 10000
  {
    DisplayLineLayout(t);
    Arith.ModBelow(t.day + 1, 0x100);
    ReadBackFields(DisplayLine(t), t.hour, t.minutes, t.day + 1, t.year);
  }

  /** A line holding the renderings of the fields at their places reads
      back the fields. */
  lemma ReadBackFields(s: string, hour: nat, minutes: nat, day: nat, year: nat)
    requires hour <= 99 && minutes <= 99 && day <= 99 && |s| == 16
    requires s[0..2] == TwoDigits(hour) && s[3..5] == TwoDigits(minutes)
    requires s[9..11] == TwoDigits(day) && s[12..16] == FourDigits(year)
    ensures AllDigits(s[0..2]) && DecimalValue(s[0..2]) == hour
    ensures AllDigits(s[3..5]) && DecimalValue(s[3..5]) == minutes
    ensures AllDigits(s[9..11]) && DecimalValue(s[9..11]) == day
    ensures AllDigits(s[12..16]) && DecimalValue(s[12..16]) == year % 10000
  {
    TwoDigitsDecimal(hour);
    TwoDigitsDecimal(minutes);
    TwoDigitsDecimal(day);
    FourDigitsDecimal(year);
  }

  /**
   * `Time_clockDisplay`: a zeroed 20-character buffer filled through an
   * advancing pointer; the result is the buffer handed to the display.
   */
  method ClockDisplay(t: UtcTime) returns (displayBuf: string)
    requires ValidFields(t) && t.month < 12
    ensures |displayBuf| == DISPLAY_BUF_LEN
    ensures displayBuf == DisplayLine(t) + Blank(DISPLAY_BUF_LEN - 16)
  {
    var buf := new char[DISPLAY_BUF_LEN](_ => 0 as char);
    assert buf[..0] == [] && buf[0..] == Blank(DISPLAY_BUF_LEN);
    var p := PutTimeOfDay(buf, t);
    p := PutDate(buf, p, t);
    displayBuf := buf[..];
    assert displayBuf == buf[..p] + buf[p..];
  }

  /** The "HH:MM " part of `Time_clockDisplay`, from the start of a blank
      buffer. */
  method PutTimeOfDay(buf: array<char>, t: UtcTime) returns (p: nat)
    requires ValidFields(t) && buf.Length == DISPLAY_BUF_LEN && buf[..] == Blank(DISPLAY_BUF_LEN)
    modifies buf
    ensures p == 6 && buf[..p] == TwoDigits(t.hour) + ":" + TwoDigits(t.minutes) + " "
    ensures buf[p..] == Blank(DISPLAY_BUF_LEN - p)
  {
    assert buf[..0] == [] && buf[0..] == Blank(DISPLAY_BUF_LEN);
    ghost var before := buf[..];
    p := Num2Str(buf, 0, t.hour);
    Extend(before, buf[..], 0, p, [], TwoDigits(t.hour));
    ghost var line := TwoDigits(t.hour);
    p := PutChar(buf, p, ':', line);
    line := line + ":";
    before := buf[..];
    var p0 := p;
    p := Num2Str(buf, p, t.minutes);
    Extend(before, buf[..], p0, p, line, TwoDigits(t.minutes));
    line := line + TwoDigits(t.minutes);
    p := PutChar(buf, p, ' ', line);
  }

  /** The "MmmDD YYYY" part of `Time_clockDisplay`, after the time of
      day. */
  method PutDate(buf: array<char>, p: nat, t: UtcTime) returns (q: nat)
    requires ValidFields(t) && t.month < 12 && buf.Length == DISPLAY_BUF_LEN && p == 6
    requires buf[..p] == TwoDigits(t.hour) + ":" + TwoDigits(t.minutes) + " " && buf[p..] == Blank(DISPLAY_BUF_LEN - p)
    modifies buf
    ensures q == 16 && buf[..q] == DisplayLine(t) && buf[q..] == Blank(DISPLAY_BUF_LEN - q)
  {
    ghost var line := TwoDigits(t.hour) + ":" + TwoDigits(t.minutes) + " ";
    MonthNameLength(t.month);
    var m := MonthNames[t.month];
    q := PutMonth(buf, p, m, line);
    line := line + m;
    ghost var before := buf[..];
    var q0 := q;
    q := Num2Str(buf, q, (t.day + 1) % 0x100);
    Extend(before, buf[..], q0, q, line, TwoDigits((t.day + 1) % 0x100));
    line := line + TwoDigits((t.day + 1) % 0x100);
    q := PutChar(buf, q, ' ', line);
    line := line + " ";
    before := buf[..];
    q0 := q;
    q := Year2Str(buf, q, t.year);
    Extend(before, buf[..], q0, q, line, FourDigits(t.year));
  }

  /** The three `*p++ = timeMonthStr[month][k]` steps. */
  method PutMonth(buf: array<char>, p: nat, m: string, ghost line: string) returns (q: nat)
    requires |m| == 3 && p + 3 <= buf.Length && buf[..p] == line && buf[p..] == Blank(buf.Length - p)
    modifies buf
    ensures q == p + 3 && buf[..q] == line + m && buf[q..] == Blank(buf.Length - q)
  {
    q := PutChar(buf, p, m[0], line);
    q := PutChar(buf, q, m[1], line + [m[0]]);
    q := PutChar(buf, q, m[2], line + [m[0]] + [m[1]]);
    assert line + [m[0]] + [m[1]] + [m[2]] == line + m;
  }

  /** Writing `w` after `line` into a blank tail leaves `line + w`
      followed by a blank tail. */
  lemma Extend(before: string, after: string, p: nat, q: nat, line: string, w: string)
    requires p <= q <= |before| == |after| && |w| == q - p
    requires before[..p] == line && before[p..] == Blank(|before| - p)
    requires after[..p] == before[..p] && after[p..q] == w && after[q..] == before[q..]
    ensures after[..q] == line + w && after[q..] == Blank(|after| - q)
  {
    assert after[..q] == after[..p] + after[p..q];
  }

  /** `n` NUL characters: the part of the buffer nothing writes. */
  function Blank(n: nat): (s: string)
    ensures |s| == n && forall i :: 0 <= i < n ==> s[i] == 0 as char
  {
    seq(n, _ => 0 as char)
  }

  /** `*p++ = c` on a buffer whose first `p` characters are `line` and
      whose rest is blank. */
  method PutChar(buf: array<char>, p: nat, c: char, ghost line: string) returns (q: nat)
    requires p < buf.Length && buf[..p] == line && buf[p..] == Blank(buf.Length - p)
    modifies buf
    ensures q == p + 1 && buf[..q] == line + [c] && buf[q..] == Blank(buf.Length - q)
  {
    buf[p] := c;
    q := p + 1;
    assert buf[..q] == buf[..p] + [c];
  }

  /** The Date Time characteristic value: year (low byte first), month,
      day, hours, minutes, seconds. */
  function DateTimeBytes(t: UtcTime): (data: seq<nat>)
    requires ValidFields(t)
    ensures |data| == 7 && IsBytes(data)
  {
    Le16(t.year) + [t.month, t.day, t.hour, t.minutes, t.seconds]
  }

  /**
   * `Time_clockSet`'s parse: the year from the first two bytes, low byte
   * first, with 0 taken as 2000; month, day, hour, minutes and seconds
   * copied unchanged.
   */
  function ClockSetTime(data: seq<nat>): (t: UtcTime)
    requires |data| >= 7
    ensures t.year == (if ReadLe16(data, 0) == 0 then 2000 else ReadLe16(data, 0))
    ensures t.month == data[2] && t.day == data[3] && t.hour == data[4] && t.minutes == data[5] && t.seconds == data[6]
  {
    var year := ReadLe16(data, 0);
    UtcTime(data[6], data[5], data[4], data[3], data[2], if year == 0 then 2000 else year)
  }

  /** A time with a known year is parsed back from its characteristic
      value unchanged; an unknown year (0) becomes 2000. */
  lemma ClockSetRoundTrip(t: UtcTime)
    requires ValidFields(t)
    ensures t.year != 0 ==> ClockSetTime(DateTimeBytes(t)) == t
    ensures t.year == 0 ==> ClockSetTime(DateTimeBytes(t)) == t.(year := 2000)
  {
    var data := DateTimeBytes(t);
    assert data[0..2] == Le16(t.year);
    ReadLe16At(data, 0, t.year);
  }
}
