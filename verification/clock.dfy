/** Instants as milliseconds since 1970-01-01T00:00:00Z, and their rendering by
    `Date.prototype.toISOString` on the proleptic Gregorian calendar. */
module Clock {
  import opened Text
  import opened Decimal

  const MsPerSecond: nat := 1000
  const MsPerMinute: nat := 60 * MsPerSecond
  const MsPerHour: nat := 60 * MsPerMinute
  const MsPerDay: nat := 24 * MsPerHour

  predicate IsLeapYear(y: int) {
    y % 4 == 0 && (y % 100 != 0 || y % 400 == 0)
  }

  function DaysInYear(y: int): nat {
    if IsLeapYear(y) then 366 else 365
  }

  function DaysInMonth(y: int, m: int): (r: nat)
    requires 1 <= m <= 12
    ensures 28 <= r <= 31
  {
    if m == 2 then (if IsLeapYear(y) then 29 else 28)
    else if m == 4 || m == 6 || m == 9 || m == 11 then 30
    else 31
  }

  /** Days of year `y` before the first of month `m`. */
  function DaysBeforeMonth(y: int, m: int): (r: nat)
    requires 1 <= m <= 12
    ensures r + DaysInMonth(y, m) <= DaysInYear(y)
    ensures m == 12 ==> r + DaysInMonth(y, m) == DaysInYear(y)
  {
    var leap := if IsLeapYear(y) then 1 else 0;
    if m == 1 then 0 else if m == 2 then 31 else if m == 3 then 59 + leap
    else if m == 4 then 90 + leap else if m == 5 then 120 + leap else if m == 6 then 151 + leap
    else if m == 7 then 181 + leap else if m == 8 then 212 + leap else if m == 9 then 243 + leap
    else if m == 10 then 273 + leap else if m == 11 then 304 + leap else 334 + leap
  }

  /** The year holding day `d` counted from January 1 of year `y`, and the day within it. */
  function YearOf(y: int, d: nat): (r: (int, nat))
    ensures r.0 >= y && r.1 < DaysInYear(r.0)
    decreases d
  {
    if d < DaysInYear(y) then (y, d) else YearOf(y + 1, d - DaysInYear(y))
  }

  /** The month holding day `d` counted from the first of month `m`, and the day within it. */
  function MonthOf(y: int, m: int, d: nat): (r: (int, nat))
    requires 1 <= m <= 12
    requires DaysBeforeMonth(y, m) + d < DaysInYear(y)
    ensures m <= r.0 <= 12 && r.1 < DaysInMonth(y, r.0)
    decreases 12 - m
  {
    if d < DaysInMonth(y, m) || m == 12 then (m, d)
    else
      DaysBeforeNextMonth(y, m);
      MonthOf(y, m + 1, d - DaysInMonth(y, m))
  }

  lemma DaysBeforeNextMonth(y: int, m: int)
    requires 1 <= m < 12
    ensures DaysBeforeMonth(y, m + 1) == DaysBeforeMonth(y, m) + DaysInMonth(y, m)
  {
  }

  /** Year, month (1..12) and day of month (1..31) of an instant. */
  function CivilDate(ms: nat): (r: (int, int, int))
    ensures r.0 >= 1970 && 1 <= r.1 <= 12 && 1 <= r.2 <= 31
  {
    var (y, dayOfYear) := YearOf(1970, ms / MsPerDay);
    var (m, dayOfMonth) := MonthOf(y, 1, dayOfYear);
    (y, m, dayOfMonth + 1)
  }

  function Pow10(k: nat): (r: nat)
    ensures r >= 1
  {
    if k == 0 then 1 else 10 * Pow10(k - 1)
  }

  lemma {:induction false} DecimalLength(n: nat, width: nat)
    ensures width >= 1 && n < Pow10(width) ==> |NatToDecimal(n)| <= width
  {
    if n >= 10 && width >= 1 && n < Pow10(width) {
      assert width >= 2;
      DecimalLength(n / 10, width - 1);
    }
  }

  /** `n` in decimal, left-padded with zeros to at least `width` digits (`padStart(width, '0')`). */
  function PadNat(n: nat, width: nat): (r: string)
    ensures |r| >= width && AllDigits(r) && ':' !in r
    ensures width >= 1 && n < Pow10(width) ==> |r| == width
  {
    var d := NatToDecimal(n);
    DecimalLength(n, width);
    if |d| >= width then d else seq(width - |d|, _ => '0') + d
  }

  /** The year as `toISOString` writes it: four digits, or a sign and six digits after 9999. */
  function YearText(y: int): (r: string)
    requires y >= 0
    ensures ':' !in r
  {
    if y <= 9999 then PadNat(y, 4) else "+" + PadNat(y, 6)
  }

  /** `YYYY-MM-DD`: the calendar date that both `toISOString` and SQLite's `datetime` start with.
      It depends on the day alone. */
  function DateText(ms: nat): (r: string)
    ensures ':' !in r
  {
    var (y, m, d) := CivilDate(ms);
    YearText(y) + "-" + PadNat(m, 2) + "-" + PadNat(d, 2)
  }

  /** The three `:`-free pieces of the ISO text: date with hour, minutes, seconds with fraction. */
  function IsoParts(ms: nat): (r: seq<string>)
    ensures |r| == 3 && forall i :: 0 <= i < 3 ==> ':' !in r[i]
    ensures r[0] != ""
  {
    var inDay := ms % MsPerDay;
    [DateText(ms) + "T" + PadNat(inDay / MsPerHour, 2),
     PadNat(inDay / MsPerMinute % 60, 2),
     PadNat(inDay / MsPerSecond % 60, 2) + "." + PadNat(inDay % 1000, 3) + "Z"]
  }

  /** `new Date(ms).toISOString()`: `YYYY-MM-DDTHH:mm:ss.sssZ`. Its `:`-separated fields are the
      date with hour, the minutes, and the seconds with milliseconds. */
  function IsoText(ms: nat): (r: string)
    ensures Split(r, ':') == IsoParts(ms)
  {
    var p := IsoParts(ms);
    SplitThree(p[0], p[1], p[2], ':');
    assert [p[0], p[1], p[2]] == p;
    p[0] + ":" + p[1] + ":" + p[2]
  }

  /** The time of day as SQLite writes it: `HH:MM:SS`. */
  function SqlTime(ms: nat): string {
    var inDay := ms % MsPerDay;
    PadNat(inDay / MsPerHour, 2) + ":" + PadNat(inDay / MsPerMinute % 60, 2) + ":" + PadNat(inDay / MsPerSecond % 60, 2)
  }

  /** SQLite's `datetime(…)`: `YYYY-MM-DD HH:MM:SS`, a space between date and time and no
      fraction or zone. */
  function SqlDateTime(ms: nat): string {
    DateText(ms) + (" " + SqlTime(ms))
  }

  /** Everything of the ISO text after the date's `T`. */
  function IsoTime(ms: nat): string {
    var p := IsoParts(ms);
    PadNat(ms % MsPerDay / MsPerHour, 2) + ":" + p[1] + ":" + p[2]
  }

  lemma Regroup5(a: string, t: string, h: string, p1: string, p2: string)
    ensures a + t + h + ":" + p1 + ":" + p2 == a + (t + (h + ":" + p1 + ":" + p2))
  {
  }

  /** The ISO text is the date, a `T`, and then the time. */
  lemma IsoStartsWithDate(ms: nat)
    ensures IsoText(ms) == DateText(ms) + ("T" + IsoTime(ms))
  {
    var p := IsoParts(ms);
    var h := PadNat(ms % MsPerDay / MsPerHour, 2);
    assert p[0] == DateText(ms) + "T" + h;
    Regroup5(DateText(ms), "T", h, p[1], p[2]);
  }

  /** Instants whose year still has four digits. */
  predicate FourDigitYear(ms: nat) {
    CivilDate(ms).0 <= 9999
  }

  lemma Pow10Values()
    ensures Pow10(2) == 100 && Pow10(3) == 1000 && Pow10(4) == 10000
  {
    assert Pow10(1) == 10;
  }

  /** The date-with-hour field has 13 characters and the seconds field 7, up to year 9999. */
  lemma IsoPartLengths(ms: nat)
    requires FourDigitYear(ms)
    ensures |IsoParts(ms)[0]| == 13 && |IsoParts(ms)[1]| == 2 && |IsoParts(ms)[2]| == 7
  {
    Pow10Values();
    var (y, m, d) := CivilDate(ms);
    var inDay := ms % MsPerDay;
    assert |YearText(y)| == 4;
    assert |PadNat(m, 2)| == 2 && |PadNat(d, 2)| == 2;
    assert inDay / MsPerHour < 24;
    assert |PadNat(inDay / MsPerHour, 2)| == 2;
    assert |PadNat(inDay / MsPerMinute % 60, 2)| == 2;
    assert |PadNat(inDay / MsPerSecond % 60, 2)| == 2;
    assert |PadNat(inDay % 1000, 3)| == 3;
  }

  /** Up to year 9999 the text has the fixed 24-character shape, with its first `:` at index 13. */
  lemma IsoShape(ms: nat)
    requires FourDigitYear(ms)
    ensures |IsoText(ms)| == 24
    ensures IsoText(ms)[13] == ':' && ':' !in IsoText(ms)[..13]
  {
    var p := IsoParts(ms);
    IsoPartLengths(ms);
    var s := IsoText(ms);
    assert s == p[0] + ":" + p[1] + ":" + p[2];
    assert s[..13] == p[0];
  }

  lemma DigitsAscii(s: string)
    requires AllDigits(s)
    ensures IsAscii(s)
  {
  }

  /** The ISO text is plain ASCII. */
  lemma IsoAscii(ms: nat)
    ensures IsAscii(IsoText(ms))
  {
    var p := IsoParts(ms);
    var (y, m, d) := CivilDate(ms);
    var inDay := ms % MsPerDay;
    var year := YearText(y);
    if y <= 9999 {
      DigitsAscii(PadNat(y, 4));
    } else {
      DigitsAscii(PadNat(y, 6));
      AsciiConcat("+", PadNat(y, 6));
    }
    var mm := PadNat(m, 2);
    var dd := PadNat(d, 2);
    var hh := PadNat(inDay / MsPerHour, 2);
    DigitsAscii(mm);
    DigitsAscii(dd);
    DigitsAscii(hh);
    AsciiConcat(year, "-");
    AsciiConcat(year + "-", mm);
    AsciiConcat(year + "-" + mm, "-");
    AsciiConcat(year + "-" + mm + "-", dd);
    AsciiConcat(year + "-" + mm + "-" + dd, "T");
    AsciiConcat(year + "-" + mm + "-" + dd + "T", hh);
    var mi := PadNat(inDay / MsPerMinute % 60, 2);
    var ss := PadNat(inDay / MsPerSecond % 60, 2);
    var ff := PadNat(inDay % 1000, 3);
    DigitsAscii(mi);
    DigitsAscii(ss);
    DigitsAscii(ff);
    AsciiConcat(ss, ".");
    AsciiConcat(ss + ".", ff);
    AsciiConcat(ss + "." + ff, "Z");
    assert IsAscii(p[0]) && IsAscii(p[1]) && IsAscii(p[2]);
    AsciiConcat(p[0], ":");
    AsciiConcat(p[0] + ":", p[1]);
    AsciiConcat(p[0] + ":" + p[1], ":");
    AsciiConcat(p[0] + ":" + p[1] + ":", p[2]);
  }
}
