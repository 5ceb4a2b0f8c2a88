/**
  The run store keeps its timestamps as text and compares them as text. This module shows that
  the text order is the order of the instants, so that the rest of the model may use integers.
 */
module Timestamps {

  // Text comparison, as the database compares two strings: by the first difference, a proper
  // prefix being smaller.
  predicate TextLess(a: string, b: string) {
    |b| > 0 && (|a| == 0 || a[0] < b[0] || (a[0] == b[0] && TextLess(a[1..], b[1..])))
  }

  // ----- The civil calendar -----

  datatype DateTime = DateTime(year: int, month: int, day: int, hour: int, minute: int, second: int, micro: int)

  predicate IsLeap(year: int) {
    year % 4 == 0 && (year % 100 != 0 || year % 400 == 0)
  }

  function DaysInMonth(year: int, month: int): int {
    if month == 2 then if IsLeap(year) then 29 else 28
    else if month in {4, 6, 9, 11} then 30
    else 31
  }

  // The years whose decimal form has four digits, in UTC, without leap seconds (as Python's datetime).
  predicate Valid(t: DateTime) {
    && 1000 <= t.year <= 9999
    && 1 <= t.month <= 12
    && 1 <= t.day <= DaysInMonth(t.year, t.month)
    && 0 <= t.hour < 24
    && 0 <= t.minute < 60
    && 0 <= t.second < 60
    && 0 <= t.micro < 1000000
  }

  function DaysBeforeYear(year: int): int
    decreases year
  {
    if year <= 1 then 0 else DaysBeforeYear(year - 1) + if IsLeap(year - 1) then 366 else 365
  }

  function DaysBeforeMonth(year: int, month: int): int
    decreases month
  {
    if month <= 1 then 0 else DaysBeforeMonth(year, month - 1) + DaysInMonth(year, month - 1)
  }

  function Days(t: DateTime): int {
    DaysBeforeYear(t.year) + DaysBeforeMonth(t.year, t.month) + t.day
  }

  // The instant on the integer microsecond axis.
  function Micros(t: DateTime): int {
    (((Days(t) * 24 + t.hour) * 60 + t.minute) * 60 + t.second) * 1000000 + t.micro
  }

  // ----- The text form "%Y-%m-%dT%H:%M:%S.%fZ" -----

  function Digit(d: nat): char
    requires d < 10
  {
    ['0', '1', '2', '3', '4', '5', '6', '7', '8', '9'][d]
  }

  // The `width` low decimal digits of n, zero-padded.
  function Digits(n: nat, width: nat): (s: string)
    ensures |s| == width
  {
    if width == 0 then "" else Digits(n / 10, width - 1) + [Digit(n % 10)]
  }

  // One number of the format, with its width and the character after it.
  datatype Field = Field(value: nat, width: nat, after: char)

  function Render(fields: seq<Field>): string {
    if fields == [] then "" else Digits(fields[0].value, fields[0].width) + [fields[0].after] + Render(fields[1..])
  }

  function Fields(t: DateTime): seq<Field>
    requires Valid(t)
  {
    [Field(t.year, 4, '-'), Field(t.month, 2, '-'), Field(t.day, 2, 'T'), Field(t.hour, 2, ':'),
     Field(t.minute, 2, ':'), Field(t.second, 2, '.'), Field(t.micro, 6, 'Z')]
  }

  function Fmt(t: DateTime): string
    requires Valid(t)
  {
    Render(Fields(t))
  }

  // ----- Text order of fixed-width forms -----

  lemma {:induction false} TextLessConcat(a: string, b: string, c: string, d: string)
    requires |a| == |c|
    ensures TextLess(a + b, c + d) <==> TextLess(a, c) || (a == c && TextLess(b, d))
  {
    if a == [] {
      assert a + b == b && c + d == d;
    } else {
      TextLessConcat(a[1..], b, c[1..], d);
      assert (a + b)[1..] == a[1..] + b && (c + d)[1..] == c[1..] + d;
      assert a == [a[0]] + a[1..] && c == [c[0]] + c[1..];
    }
  }

  function Pow10(w: nat): nat {
    if w == 0 then 1 else 10 * Pow10(w - 1)
  }

  lemma OneDigitOrder(c: nat, d: nat)
    requires c < 10 && d < 10
    ensures TextLess([Digit(c)], [Digit(d)]) <==> c < d
    ensures Digit(c) == Digit(d) <==> c == d
  {
    assert [Digit(c)][1..] == "" && [Digit(d)][1..] == "";
  }

  lemma {:induction false} DigitsOrder(m: nat, n: nat, width: nat)
    requires m < Pow10(width) && n < Pow10(width)
    ensures TextLess(Digits(m, width), Digits(n, width)) <==> m < n
    ensures Digits(m, width) == Digits(n, width) <==> m == n
  {
    if width > 0 {
      DigitsOrder(m / 10, n / 10, width - 1);
      var a, b := Digits(m / 10, width - 1), Digits(n / 10, width - 1);
      var x, y := Digit(m % 10), Digit(n % 10);
      OneDigitOrder(m % 10, n % 10);
      TextLessConcat(a, [x], b, [y]);
      assert a + [x] == b + [y] <==> a == b && x == y by {
        assert (a + [x])[..width - 1] == a && (b + [y])[..width - 1] == b;
        assert (a + [x])[width - 1] == x && (b + [y])[width - 1] == y;
      }
    }
  }

  predicate FieldsLess(xs: seq<Field>, ys: seq<Field>)
    requires |xs| == |ys|
  {
    xs != [] && (xs[0].value < ys[0].value || (xs[0].value == ys[0].value && FieldsLess(xs[1..], ys[1..])))
  }

  // Same layout, and every value fits its width.
  predicate SameLayout(xs: seq<Field>, ys: seq<Field>) {
    && |xs| == |ys|
    && forall i :: 0 <= i < |xs| ==>
      && xs[i].width == ys[i].width && xs[i].after == ys[i].after
      && xs[i].value < Pow10(xs[i].width) && ys[i].value < Pow10(ys[i].width)
  }

  lemma RenderFirst(xs: seq<Field>)
    requires xs != []
    ensures Render(xs) == Digits(xs[0].value, xs[0].width) + ([xs[0].after] + Render(xs[1..]))
  {
  }

  lemma {:induction false} RenderOrder(xs: seq<Field>, ys: seq<Field>)
    requires SameLayout(xs, ys)
    ensures TextLess(Render(xs), Render(ys)) <==> FieldsLess(xs, ys)
  {
    if xs != [] {
      var x, y := xs[0], ys[0];
      RenderOrder(xs[1..], ys[1..]);
      DigitsOrder(x.value, y.value, x.width);
      var dx, dy := Digits(x.value, x.width), Digits(y.value, y.width);
      TextLessConcat([x.after], Render(xs[1..]), [y.after], Render(ys[1..]));
      TextLessConcat(dx, [x.after] + Render(xs[1..]), dy, [y.after] + Render(ys[1..]));
      RenderFirst(xs);
      RenderFirst(ys);
    }
  }

  // ----- Calendar order -----

  lemma {:induction false} YearsAdd(a: int, b: int)
    requires 1 <= a < b
    ensures DaysBeforeYear(a) + (if IsLeap(a) then 366 else 365) <= DaysBeforeYear(b)
    decreases b
  {
    if a + 1 < b {
      YearsAdd(a, b - 1);
    }
  }

  lemma {:induction false} MonthsAdd(year: int, a: int, b: int)
    requires 1 <= a < b
    ensures DaysBeforeMonth(year, a) + DaysInMonth(year, a) <= DaysBeforeMonth(year, b)
    decreases b
  {
    if a + 1 < b {
      MonthsAdd(year, a, b - 1);
    }
  }

  // The months of a year fill exactly that year.
  lemma MonthsFillYear(year: int)
    ensures DaysBeforeMonth(year, 12) + DaysInMonth(year, 12) == if IsLeap(year) then 366 else 365
  {
    assert DaysBeforeMonth(year, 3) == DaysInMonth(year, 1) + DaysInMonth(year, 2);
    assert DaysBeforeMonth(year, 6) == DaysBeforeMonth(year, 3) + 31 + 30 + 31;
    assert DaysBeforeMonth(year, 9) == DaysBeforeMonth(year, 6) + 30 + 31 + 31;
    assert DaysBeforeMonth(year, 12) == DaysBeforeMonth(year, 9) + 30 + 31 + 30;
  }

  lemma DayOfYearBounds(t: DateTime)
    requires Valid(t)
    ensures 1 <= DaysBeforeMonth(t.year, t.month) + t.day <= if IsLeap(t.year) then 366 else 365
  {
    MonthsFillYear(t.year);
    if t.month < 12 {
      MonthsAdd(t.year, t.month, 12);
    }
    if t.month > 1 {
      MonthsAdd(t.year, 1, t.month);
    }
  }

  predicate DateLess(a: DateTime, b: DateTime) {
    a.year < b.year || (a.year == b.year && (a.month < b.month || (a.month == b.month && a.day < b.day)))
  }

  lemma DaysGrow(a: DateTime, b: DateTime)
    requires Valid(a) && Valid(b) && DateLess(a, b)
    ensures Days(a) < Days(b)
  {
    if a.year < b.year {
      YearsAdd(a.year, b.year);
      DayOfYearBounds(a);
      DayOfYearBounds(b);
    } else if a.month < b.month {
      MonthsAdd(a.year, a.month, b.month);
    }
  }

  lemma InstantOrder(a: DateTime, b: DateTime)
    requires Valid(a) && Valid(b)
    ensures Micros(a) < Micros(b) <==> FieldsLess(Fields(a), Fields(b))
    ensures Micros(a) == Micros(b) <==> a == b
  {
    var x, y := Fields(a), Fields(b);
    assert x[1..][1..] == x[2..] && x[2..][1..] == x[3..] && y[1..][1..] == y[2..] && y[2..][1..] == y[3..];
    assert FieldsLess(x[2..], y[2..]) == (a.day < b.day || (a.day == b.day && FieldsLess(x[3..], y[3..])));
    assert FieldsLess(x[1..], y[1..]) == (a.month < b.month || (a.month == b.month && FieldsLess(x[2..], y[2..])));
    TimeOfDay(x[3..], y[3..]);
    if DateLess(a, b) {
      DaysGrow(a, b);
    } else if DateLess(b, a) {
      DaysGrow(b, a);
    }
  }

  lemma TimeOfDay(x: seq<Field>, y: seq<Field>)
    requires |x| == |y| == 4
    ensures FieldsLess(x, y) <==>
      x[0].value < y[0].value || (x[0].value == y[0].value && (x[1].value < y[1].value || (x[1].value == y[1].value
      && (x[2].value < y[2].value || (x[2].value == y[2].value && x[3].value < y[3].value)))))
  {
    assert x[1..][1..] == x[2..] && x[2..][1..] == x[3..] && x[3..][1..] == [];
    assert y[1..][1..] == y[2..] && y[2..][1..] == y[3..] && y[3..][1..] == [];
    assert FieldsLess(x[3..], y[3..]) <==> x[3].value < y[3].value;
    assert FieldsLess(x[2..], y[2..]) <==> x[2].value < y[2].value || (x[2].value == y[2].value && FieldsLess(x[3..], y[3..]));
  }

  /** Comparing two stamps as text is comparing the instants. */
  lemma FmtOrder(a: DateTime, b: DateTime)
    requires Valid(a) && Valid(b)
    ensures TextLess(Fmt(a), Fmt(b)) <==> Micros(a) < Micros(b)
    ensures Fmt(a) == Fmt(b) <==> a == b
  {
    assert Pow10(2) == 100 && Pow10(4) == 10000;
    assert Pow10(6) == 1000000;
    InstantOrder(a, b);
    InstantOrder(b, a);
    RenderOrder(Fields(a), Fields(b));
    RenderOrder(Fields(b), Fields(a));
    TextIrreflexive(Fmt(a));
  }

  lemma {:induction false} TextIrreflexive(s: string)
    ensures !TextLess(s, s)
  {
    if s != [] {
      TextIrreflexive(s[1..]);
    }
  }

  /** The claim's and the sweeper's text cutoff tests exactly "more than `seconds` old". */
  lemma CutoffIsNumeric(updatedAt: DateTime, cutoff: DateTime, now: DateTime, seconds: int)
    requires Valid(updatedAt) && Valid(cutoff) && Valid(now)
    requires Micros(cutoff) == Micros(now) - seconds * 1000000
    ensures TextLess(Fmt(updatedAt), Fmt(cutoff)) <==> Micros(updatedAt) + seconds * 1000000 < Micros(now)
  {
    FmtOrder(updatedAt, cutoff);
  }

  // ----- The calendar and the text, apart from their own definitions -----

  lemma {:induction false} YearsClosed(year: int)
    requires 1 <= year
    ensures DaysBeforeYear(year) == 365 * (year - 1) + (year - 1) / 4 - (year - 1) / 100 + (year - 1) / 400
    decreases year
  {
    if year > 1 {
      YearsClosed(year - 1);
      Quotient(year - 1, 4);
      Quotient(year - 1, 100);
      Quotient(year - 1, 400);
    }
  }

  lemma Quotient(n: int, d: int)
    requires 0 < n && (d == 4 || d == 100 || d == 400)
    ensures n / d == (n - 1) / d + if n % d == 0 then 1 else 0
  {
  }

  // The days before each month of a common year.
  const MONTH_STARTS: seq<int> := [0, 31, 59, 90, 120, 151, 181, 212, 243, 273, 304, 334]

  lemma MonthsClosed(year: int, month: int)
    requires 1 <= month <= 12
    ensures DaysBeforeMonth(year, month) == MONTH_STARTS[month - 1] + if month > 2 && IsLeap(year) then 1 else 0
  {
    assert DaysBeforeMonth(year, 3) == 59 + if IsLeap(year) then 1 else 0;
    assert DaysBeforeMonth(year, 6) == DaysBeforeMonth(year, 3) + 31 + 30 + 31;
    assert DaysBeforeMonth(year, 9) == DaysBeforeMonth(year, 6) + 30 + 31 + 31;
  }

  /** The day count is the proleptic Gregorian ordinal, 1 for the first of January of the year 1 and 719163 for that of
      1970: four centuries have 97 leap days, and every month its usual length. */
  lemma GregorianDays(t: DateTime)
    requires Valid(t)
    ensures var y := t.year - 1;
      Days(t) == 365 * y + y / 4 - y / 100 + y / 400 + MONTH_STARTS[t.month - 1]
        + (if t.month > 2 && t.year % 4 == 0 && (t.year % 100 != 0 || t.year % 400 == 0) then 1 else 0) + t.day
    ensures t.year == 1970 && t.month == 1 && t.day == 1 ==> Days(t) == 719163
  {
    YearsClosed(t.year);
    MonthsClosed(t.year, t.month);
  }

  // The number that a text of digits stands for.
  function Read(s: string): int {
    if s == "" then 0 else 10 * Read(s[..|s| - 1]) + (s[|s| - 1] as int - '0' as int)
  }

  lemma {:induction false} ReadDigits(n: nat, width: nat)
    requires n < Pow10(width)
    ensures Read(Digits(n, width)) == n
  {
    if width > 0 {
      ReadDigits(n / 10, width - 1);
      var front := Digits(n / 10, width - 1);
      assert (front + [Digit(n % 10)])[..width - 1] == front;
      DigitValue(n % 10);
    }
  }

  lemma DigitValue(d: nat)
    requires d < 10
    ensures Digit(d) as int - '0' as int == d
  {
  }

  // The numbers and the separators of a rendered text, one field after the other.
  predicate Shows(s: string, fields: seq<Field>) {
    if fields == [] then s == ""
    else
      var w := fields[0].width;
      |s| > w && Read(s[..w]) == fields[0].value && s[w] == fields[0].after && Shows(s[w + 1..], fields[1..])
  }

  lemma {:induction false} RenderShows(fields: seq<Field>)
    requires forall i :: 0 <= i < |fields| ==> fields[i].value < Pow10(fields[i].width)
    ensures Shows(Render(fields), fields)
  {
    if fields != [] {
      var f, rest := fields[0], Render(fields[1..]);
      RenderShows(fields[1..]);
      RenderFirst(fields);
      ReadDigits(f.value, f.width);
      var d := Digits(f.value, f.width);
      assert (d + ([f.after] + rest))[..f.width] == d && (d + ([f.after] + rest))[f.width + 1..] == rest;
    }
  }

  /** The stamp can be read back: four digits of the year, a dash, two of the month, a dash, two of the day, a T, and so
      on to the six of the microseconds and a Z. */
  lemma FmtShows(t: DateTime)
    requires Valid(t)
    ensures Shows(Fmt(t), [Field(t.year, 4, '-'), Field(t.month, 2, '-'), Field(t.day, 2, 'T'), Field(t.hour, 2, ':'),
                           Field(t.minute, 2, ':'), Field(t.second, 2, '.'), Field(t.micro, 6, 'Z')])
  {
    assert Pow10(2) == 100 && Pow10(4) == 10000;
    assert Pow10(6) == 1000000;
    RenderShows(Fields(t));
  }
}
