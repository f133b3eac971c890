/** `System.DateTime` as the core uses it: a calendar date and a time of day, compared
    lexicographically; `.Date` (midnight of the same day); `ToString("yyyy-MM-dd")`;
    and the reading back of such a string. No date arithmetic is needed by the core. */
module Calendar {
  import opened Wrappers
  import opened NumberText

  /** One day in 100-nanosecond ticks, the resolution of `DateTime`. */
  const TicksPerDay: int := 864_000_000_000

  datatype Date = Date(year: int, month: int, day: int)

  /** A point in time: its calendar date and the ticks elapsed since midnight. */
  datatype DateTime = DateTime(date: Date, tick: int)

  predicate IsLeapYear(y: int)
  {
    y % 4 == 0 && (y % 100 != 0 || y % 400 == 0)
  }

  function DaysInMonth(y: int, m: int): (n: int)
    requires 1 <= m <= 12
    ensures 28 <= n <= 31
  {
    if m == 2 then (if IsLeapYear(y) then 29 else 28)
    else if m == 4 || m == 6 || m == 9 || m == 11 then 30
    else 31
  }

  /** The dates `DateTime` can represent: years 1 to 9999, real calendar days. */
  predicate ValidDate(d: Date)
  {
    1 <= d.year <= 9999 && 1 <= d.month <= 12 && 1 <= d.day <= DaysInMonth(d.year, d.month)
  }

  predicate ValidDateTime(t: DateTime)
  {
    ValidDate(t.date) && 0 <= t.tick < TicksPerDay
  }

  /** `a <= b` on dates. */
  predicate DateLe(a: Date, b: Date)
  {
    a.year < b.year
    || (a.year == b.year && (a.month < b.month || (a.month == b.month && a.day <= b.day)))
  }

  /** `a <= b` on `DateTime`. */
  predicate Le(a: DateTime, b: DateTime)
  {
    (DateLe(a.date, b.date) && a.date != b.date) || (a.date == b.date && a.tick <= b.tick)
  }

  /** `t.Date`: midnight of the same day. */
  function Midnight(t: DateTime): (r: DateTime)
    ensures r.date == t.date && Le(r, t) == (0 <= t.tick)
  {
    DateTime(t.date, 0)
  }

  lemma DateLeTotal(a: Date, b: Date)
    ensures DateLe(a, b) || DateLe(b, a)
    ensures DateLe(a, b) && DateLe(b, a) ==> a == b
  {
  }

  lemma DateLeTransitive(a: Date, b: Date, c: Date)
    requires DateLe(a, b) && DateLe(b, c)
    ensures DateLe(a, c)
  {
  }

  /** A time is at or after midnight of `now` exactly when its date is `now`'s date
      or later. */
  lemma AtOrAfterMidnight(now: DateTime, t: DateTime)
    requires 0 <= t.tick
    ensures Le(Midnight(now), t) <==> DateLe(now.date, t.date)
  {
  }

  /** Comparing whole `DateTime`s orders them by date first: a time on a later day
      is never at or before a time on an earlier one. */
  lemma LaterDayIsLater(a: DateTime, b: DateTime)
    requires DateLe(a.date, b.date) && a.date != b.date
    ensures !Le(b, a)
  {
  }

  // ----- "yyyy-MM-dd" -----

  function Pad2(n: nat): (s: string)
    requires n < 100
    ensures |s| == 2 && AllDigits(s)
  {
    [DigitChar(n / 10), DigitChar(n % 10)]
  }

  function Pad4(n: nat): (s: string)
    requires n < 10000
    ensures |s| == 4 && AllDigits(s)
  {
    Pad2(n / 100) + Pad2(n % 100)
  }

  /** `d.ToString("yyyy-MM-dd")`. */
  function FormatIsoDate(d: Date): (s: string)
    requires ValidDate(d)
    ensures |s| == 10 && s[4] == '-' && s[7] == '-'
  {
    Pad4(d.year) + "-" + Pad2(d.month) + "-" + Pad2(d.day)
  }

  predicate IsoShape(s: string)
  {
    |s| == 10 && s[4] == '-' && s[7] == '-'
    && AllDigits(s[0..4]) && AllDigits(s[5..7]) && AllDigits(s[8..10])
  }

  /** Reads a "yyyy-MM-dd" string back into a date, if it is one. */
  function ParseIsoDate(s: string): (r: Option<Date>)
    ensures r.Some? ==> ValidDate(r.value)
  {
    if IsoShape(s) then
      var d := Date(DigitsValue(s[0..4]), DigitsValue(s[5..7]), DigitsValue(s[8..10]));
      if ValidDate(d) then Some(d) else None
    else None
  }

  lemma Value2(s: string)
    requires |s| == 2 && AllDigits(s)
    ensures DigitsValue(s) == DigitValue(s[0]) * 10 + DigitValue(s[1])
  {
    var h := s[..1];
    assert h[..0] == [];
    assert DigitsValue(h) == DigitValue(s[0]);
  }

  lemma Value4(s: string)
    requires |s| == 4 && AllDigits(s)
    ensures DigitsValue(s) == DigitsValue(s[..2]) * 100 + DigitsValue(s[2..])
  {
    Value2(s[2..]);
    assert s[..3][..2] == s[..2];
    assert s[..3][2] == s[2];
  }

  lemma Pad2Value(n: nat)
    requires n < 100
    ensures DigitsValue(Pad2(n)) == n
  {
    Value2(Pad2(n));
  }

  lemma Pad4Value(n: nat)
    requires n < 10000
    ensures DigitsValue(Pad4(n)) == n
  {
    var s := Pad4(n);
    Value4(s);
    assert s[..2] == Pad2(n / 100) && s[2..] == Pad2(n % 100);
    Pad2Value(n / 100);
    Pad2Value(n % 100);
  }

  lemma Pad2OfValue(s: string)
    requires |s| == 2 && AllDigits(s)
    ensures DigitsValue(s) < 100 && Pad2(DigitsValue(s)) == s
  {
    Value2(s);
    var n := DigitsValue(s);
    assert n / 10 == DigitValue(s[0]);
    assert n % 10 == DigitValue(s[1]);
  }

  lemma Pad4OfValue(s: string)
    requires |s| == 4 && AllDigits(s)
    ensures DigitsValue(s) < 10000 && Pad4(DigitsValue(s)) == s
  {
    Value4(s);
    Pad2OfValue(s[..2]);
    Pad2OfValue(s[2..]);
    var n := DigitsValue(s);
    assert n / 100 == DigitsValue(s[..2]);
    assert n % 100 == DigitsValue(s[2..]);
    assert s == s[..2] + s[2..];
  }

  /** Round trip: a formatted date reads back as itself. */
  lemma ParseFormatIsoDate(d: Date)
    requires ValidDate(d)
    ensures ParseIsoDate(FormatIsoDate(d)) == Some(d)
  {
    var s := FormatIsoDate(d);
    assert s[0..4] == Pad4(d.year);
    assert s[5..7] == Pad2(d.month);
    assert s[8..10] == Pad2(d.day);
    Pad4Value(d.year);
    Pad2Value(d.month);
    Pad2Value(d.day);
  }

  /** The other direction: the parser accepts exactly the strings the formatter
      produces. */
  lemma FormatParseIsoDate(s: string)
    requires ParseIsoDate(s).Some?
    ensures FormatIsoDate(ParseIsoDate(s).value) == s
  {
    var d := ParseIsoDate(s).value;
    Pad4OfValue(s[0..4]);
    Pad2OfValue(s[5..7]);
    Pad2OfValue(s[8..10]);
    var f := FormatIsoDate(d);
    assert f[0..4] == s[0..4] && f[5..7] == s[5..7] && f[8..10] == s[8..10];
    assert f == f[0..4] + f[4..5] + f[5..7] + f[7..8] + f[8..10];
    assert s == s[0..4] + s[4..5] + s[5..7] + s[7..8] + s[8..10];
  }
}
