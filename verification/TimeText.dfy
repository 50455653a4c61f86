/** Timestamps as fixed-width text: comparing the texts compares the instants. */
module TimeText {
  import opened Common
  import opened Decimal

  // ----- Text order -------------------------------------------------------------------------------

  /** Byte order of texts, as the database compares them. */
  predicate Less(s: string, t: string) {
    t != "" && (s == "" || s[0] < t[0] || (s[0] == t[0] && Less(s[1..], t[1..])))
  }

  lemma {:induction false} LessConcat(a: string, x: string, b: string, y: string)
    requires |a| == |b|
    ensures Less(a + x, b + y) <==> Less(a, b) || (a == b && Less(x, y))
  {
    if a == "" {
      assert a + x == x && b + y == y;
    } else {
      assert (a + x)[1..] == a[1..] + x && (b + y)[1..] == b[1..] + y;
      assert a == [a[0]] + a[1..] && b == [b[0]] + b[1..];
      LessConcat(a[1..], x, b[1..], y);
    }
  }

  lemma {:induction false} LessIrreflexive(s: string)
    ensures !Less(s, s)
  {
    if s != "" {
      LessIrreflexive(s[1..]);
    }
  }

  // ----- Fields of fixed width --------------------------------------------------------------------

  function Power(w: nat): nat {
    if w == 0 then 1 else 10 * Power(w - 1)
  }

  /** `n` with leading zeros. */
  function Pad(n: nat, w: nat): (s: string)
    ensures |s| == w
  {
    if w == 0 then "" else Pad(n / 10, w - 1) + [DigitOf(n % 10)]
  }

  lemma {:induction false} PadIsDigits(n: nat, w: nat)
    ensures forall c | c in Pad(n, w) :: IsDigit(c)
  {
    if w > 0 {
      PadIsDigits(n / 10, w - 1);
    }
  }

  lemma {:induction false} ValueOfPad(n: nat, w: nat)
    requires n < Power(w)
    ensures (forall c | c in Pad(n, w) :: IsDigit(c)) && Value(Pad(n, w)) == n
  {
    PadIsDigits(n, w);
    if w > 0 {
      ValueOfPad(n / 10, w - 1);
      assert Pad(n, w)[..w - 1] == Pad(n / 10, w - 1);
    }
  }

  lemma {:induction false} PadOrder(n: nat, m: nat, w: nat)
    requires n < Power(w) && m < Power(w)
    ensures Less(Pad(n, w), Pad(m, w)) <==> n < m
    ensures Pad(n, w) == Pad(m, w) <==> n == m
  {
    ValueOfPad(n, w);
    ValueOfPad(m, w);
    if w > 0 {
      PadOrder(n / 10, m / 10, w - 1);
      var x, y := [DigitOf(n % 10)], [DigitOf(m % 10)];
      LessConcat(Pad(n / 10, w - 1), x, Pad(m / 10, w - 1), y);
      assert Less(x, y) <==> n % 10 < m % 10;
    }
  }

  /** A field: its width, and the character that follows it. */
  datatype Field = Field(width: nat, mark: char)

  const LAYOUT := [Field(4, '-'), Field(2, '-'), Field(2, 'T'), Field(2, ':'), Field(2, ':'), Field(2, '.'), Field(9, 'Z')]

  predicate Fitting(values: seq<nat>, layout: seq<Field>) {
    |values| == |layout| && forall i | 0 <= i < |values| :: values[i] < Power(layout[i].width)
  }

  function Written(values: seq<nat>, layout: seq<Field>): string
    requires |values| == |layout|
  {
    if values == [] then "" else Pad(values[0], layout[0].width) + ([layout[0].mark] + Written(values[1..], layout[1..]))
  }

  predicate LexLess(a: seq<nat>, b: seq<nat>)
    requires |a| == |b|
  {
    a != [] && (a[0] < b[0] || (a[0] == b[0] && LexLess(a[1..], b[1..])))
  }

  lemma {:induction false} WrittenOrder(a: seq<nat>, b: seq<nat>, layout: seq<Field>)
    requires Fitting(a, layout) && Fitting(b, layout)
    ensures Less(Written(a, layout), Written(b, layout)) <==> LexLess(a, b)
  {
    if a != [] {
      WrittenOrder(a[1..], b[1..], layout[1..]);
      var w, mark := layout[0].width, [layout[0].mark];
      PadOrder(a[0], b[0], w);
      LessConcat(mark, Written(a[1..], layout[1..]), mark, Written(b[1..], layout[1..]));
      LessIrreflexive(mark);
      LessConcat(Pad(a[0], w), mark + Written(a[1..], layout[1..]), Pad(b[0], w), mark + Written(b[1..], layout[1..]));
    }
  }

  predicate AllDigits(s: string) {
    forall c | c in s :: IsDigit(c)
  }

  /** Reads fields of the exact widths, each followed by its mark, to the end of the text. */
  function ReadFields(s: string, layout: seq<Field>): (values: Option<seq<nat>>)
    ensures values.Some? ==> |values.value| == |layout|
  {
    if layout == [] then (if s == "" then Some([]) else None)
    else
      var w := layout[0].width;
      if |s| <= w || !AllDigits(s[..w]) || s[w] != layout[0].mark then None
      else
        var rest :- ReadFields(s[w + 1..], layout[1..]);
        Some([Value(s[..w])] + rest)
  }

  lemma {:induction false} ReadWritten(values: seq<nat>, layout: seq<Field>)
    requires Fitting(values, layout)
    ensures ReadFields(Written(values, layout), layout) == Some(values)
  {
    if values != [] {
      var w, s := layout[0].width, Written(values, layout);
      ValueOfPad(values[0], w);
      ReadWritten(values[1..], layout[1..]);
      assert s[..w] == Pad(values[0], w) && s[w + 1..] == Written(values[1..], layout[1..]);
      assert [values[0]] + values[1..] == values;
    }
  }

  // ----- The calendar -----------------------------------------------------------------------------

  datatype Civil = Civil(year: nat, month: nat, day: nat, hour: nat, minute: nat, second: nat, nano: nat)

  predicate IsLeap(y: nat) {
    y % 4 == 0 && (y % 100 != 0 || y % 400 == 0)
  }

  function DaysIn(y: nat, m: nat): nat {
    if m == 2 then (if IsLeap(y) then 29 else 28)
    else if m in {4, 6, 9, 11} then 30
    else 31
  }

  /** The days of the year before month `m`. */
  function DaysToMonth(y: nat, m: nat): nat
    requires 1 <= m <= 13
  {
    if m == 1 then 0 else DaysToMonth(y, m - 1) + DaysIn(y, m - 1)
  }

  function YearLength(y: nat): (n: nat)
    ensures n > 0
  {
    if IsLeap(y) then 366 else 365
  }

  /** The days before year `y`, counted from the year 0. */
  function DaysToYear(y: nat): nat {
    if y == 0 then 0 else DaysToYear(y - 1) + YearLength(y - 1)
  }

  lemma MonthsMakeAYear(y: nat)
    ensures DaysToMonth(y, 13) == YearLength(y)
  {
    assert DaysToMonth(y, 2) == DaysIn(y, 1);
    assert DaysToMonth(y, 3) == DaysToMonth(y, 2) + DaysIn(y, 2);
    assert DaysToMonth(y, 5) == DaysToMonth(y, 3) + DaysIn(y, 3) + DaysIn(y, 4);
    assert DaysToMonth(y, 7) == DaysToMonth(y, 5) + DaysIn(y, 5) + DaysIn(y, 6);
    assert DaysToMonth(y, 9) == DaysToMonth(y, 7) + DaysIn(y, 7) + DaysIn(y, 8);
    assert DaysToMonth(y, 11) == DaysToMonth(y, 9) + DaysIn(y, 9) + DaysIn(y, 10);
  }

  predicate ValidCivil(c: Civil) {
    && c.year <= 9999 && 1 <= c.month <= 12 && 1 <= c.day <= DaysIn(c.year, c.month)
    && c.hour < 24 && c.minute < 60 && c.second < 60 && c.nano < 1_000_000_000
  }

  function DayNumber(c: Civil): nat
    requires ValidCivil(c)
  {
    DaysToYear(c.year) + DaysToMonth(c.year, c.month) + (c.day - 1)
  }

  function TimeOfDay(c: Civil): nat {
    ((c.hour * 60 + c.minute) * 60 + c.second) * 1_000_000_000 + c.nano
  }

  const DAY: nat := 86_400_000_000_000

  /** The instant: nanoseconds since the start of the year 0. */
  function Instant(c: Civil): nat
    requires ValidCivil(c)
  {
    DayNumber(c) * DAY + TimeOfDay(c)
  }

  lemma {:induction false} MonthsGrow(y: nat, m: nat, k: nat)
    requires 1 <= m < k <= 13
    ensures DaysToMonth(y, m) + DaysIn(y, m) <= DaysToMonth(y, k)
    decreases k
  {
    if m < k - 1 {
      MonthsGrow(y, m, k - 1);
    }
  }

  lemma {:induction false} YearsGrow(y: nat, z: nat)
    requires y < z
    ensures DaysToYear(y) + YearLength(y) <= DaysToYear(z)
    decreases z
  {
    if y < z - 1 {
      YearsGrow(y, z - 1);
    }
  }

  lemma DayInYear(c: Civil)
    requires ValidCivil(c)
    ensures DayNumber(c) < DaysToYear(c.year) + YearLength(c.year)
  {
    MonthsGrow(c.year, c.month, 13);
    MonthsMakeAYear(c.year);
  }

  /** A later date has a larger day number. */
  lemma DayOrder(a: Civil, b: Civil)
    requires ValidCivil(a) && ValidCivil(b)
    requires a.year < b.year || (a.year == b.year && (a.month < b.month || (a.month == b.month && a.day < b.day)))
    ensures DayNumber(a) < DayNumber(b)
  {
    if a.year < b.year {
      DayInYear(a);
      YearsGrow(a.year, b.year);
    } else if a.month < b.month {
      MonthsGrow(a.year, a.month, b.month);
    }
  }

  lemma TimeInDay(c: Civil)
    requires ValidCivil(c)
    ensures TimeOfDay(c) < DAY
  {
  }

  predicate Earlier(a: Civil, b: Civil) {
    || a.year < b.year || (a.year == b.year
    && (a.month < b.month || (a.month == b.month
    && (a.day < b.day || (a.day == b.day
    && (a.hour < b.hour || (a.hour == b.hour
    && (a.minute < b.minute || (a.minute == b.minute
    && (a.second < b.second || (a.second == b.second && a.nano < b.nano)))))))))))
  }

  lemma EarlierIsLess(a: Civil, b: Civil)
    requires ValidCivil(a) && ValidCivil(b) && Earlier(a, b)
    ensures Instant(a) < Instant(b)
  {
    TimeInDay(a);
    if a.year == b.year && a.month == b.month && a.day == b.day {
    } else {
      DayOrder(a, b);
    }
  }

  function Values(c: Civil): seq<nat> {
    [c.year, c.month, c.day, c.hour, c.minute, c.second, c.nano]
  }

  lemma LexIsEarlier(a: Civil, b: Civil)
    ensures LexLess(Values(a), Values(b)) <==> Earlier(a, b)
  {
    var x, y := Values(a), Values(b);
    assert x[1..][1..] == x[2..] && y[1..][1..] == y[2..];
    assert x[2..][1..] == x[3..] && y[2..][1..] == y[3..];
    assert x[3..][1..] == x[4..] && y[3..][1..] == y[4..];
    assert x[4..][1..] == x[5..] && y[4..][1..] == y[5..];
    assert x[5..][1..] == x[6..] && y[5..][1..] == y[6..];
    assert LexLess(x[6..], y[6..]) <==> a.nano < b.nano;
    assert LexLess(x[5..], y[5..]) <==> a.second < b.second || (a.second == b.second && LexLess(x[6..], y[6..]));
    assert LexLess(x[4..], y[4..]) <==> a.minute < b.minute || (a.minute == b.minute && LexLess(x[5..], y[5..]));
    assert LexLess(x[3..], y[3..]) <==> a.hour < b.hour || (a.hour == b.hour && LexLess(x[4..], y[4..]));
    assert LexLess(x[2..], y[2..]) <==> a.day < b.day || (a.day == b.day && LexLess(x[3..], y[3..]));
    assert LexLess(x[1..], y[1..]) <==> a.month < b.month || (a.month == b.month && LexLess(x[2..], y[2..]));
  }

  // ----- From an instant to its civil time --------------------------------------------------------

  /** The year that contains the day, searched upwards. */
  function YearOf(day: nat, y: nat): (r: nat)
    requires DaysToYear(y) <= day
    ensures r >= y && DaysToYear(r) <= day < DaysToYear(r) + YearLength(r)
    decreases day - DaysToYear(y)
  {
    if day < DaysToYear(y) + YearLength(y) then y
    else
      assert DaysToYear(y + 1) == DaysToYear(y) + YearLength(y);
      YearOf(day, y + 1)
  }

  function MonthOf(day: nat, y: nat, m: nat): (r: nat)
    requires 1 <= m <= 12 && DaysToMonth(y, m) <= day < YearLength(y)
    ensures m <= r <= 12 && DaysToMonth(y, r) <= day < DaysToMonth(y, r) + DaysIn(y, r)
    decreases 12 - m
  {
    if day < DaysToMonth(y, m) + DaysIn(y, m) then m
    else
      MonthsMakeAYear(y);
      assert DaysToMonth(y, m + 1) == DaysToMonth(y, m) + DaysIn(y, m);
      MonthOf(day, y, m + 1)
  }

  const END: nat := DaysToYear(10_000) * DAY

  function CivilOf(t: nat): Civil {
    var day, rest := t / DAY, t % DAY;
    var y := YearOf(day, 0);
    var m := MonthOf(day - DaysToYear(y), y, 1);
    var seconds := rest / 1_000_000_000;
    Civil(y, m, day - DaysToYear(y) - DaysToMonth(y, m) + 1,
          seconds / 3600, seconds / 60 % 60, seconds % 60, rest % 1_000_000_000)
  }

  lemma CivilOfInstant(t: nat)
    requires t < END
    ensures ValidCivil(CivilOf(t)) && Instant(CivilOf(t)) == t
  {
    var c := CivilOf(t);
    if c.year > 10_000 {
      YearsGrow(10_000, c.year);
    }
    assert TimeOfDay(c) == t % DAY;
  }

  // ----- Timestamps -------------------------------------------------------------------------------

  function FormatTime(t: nat): string { Written(Values(CivilOf(t)), LAYOUT) }

  function ParseTime(s: string): Option<nat> {
    var v :- ReadFields(s, LAYOUT);
    var c := Civil(v[0], v[1], v[2], v[3], v[4], v[5], v[6]);
    if ValidCivil(c) then Some(Instant(c)) else None
  }

  lemma Powers()
    ensures Power(2) == 100 && Power(4) == 10_000 && Power(9) == 1_000_000_000
  {
    assert Power(3) == 1000 && Power(5) == 100_000 && Power(6) == 1_000_000 && Power(7) == 10_000_000 && Power(8) == 100_000_000;
  }

  lemma ValuesFit(c: Civil)
    requires ValidCivil(c)
    ensures Fitting(Values(c), LAYOUT)
  {
    Powers();
  }

  /** For all instants of the years 0000 to 9999: text order is time order. */
  lemma TextOrderIsTimeOrder(t: nat, u: nat)
    requires t < END && u < END
    ensures Less(FormatTime(t), FormatTime(u)) <==> t < u
    ensures FormatTime(t) == FormatTime(u) <==> t == u
  {
    var a, b := CivilOf(t), CivilOf(u);
    CivilOfInstant(t);
    CivilOfInstant(u);
    ValuesFit(a);
    ValuesFit(b);
    WrittenOrder(Values(a), Values(b), LAYOUT);
    LexIsEarlier(a, b);
    if Earlier(a, b) {
      EarlierIsLess(a, b);
    } else if Earlier(b, a) {
      EarlierIsLess(b, a);
    } else {
      assert a == b;
    }
    ParseInvertsFormat(t);
    ParseInvertsFormat(u);
  }

  lemma ParseInvertsFormat(t: nat)
    requires t < END
    ensures ParseTime(FormatTime(t)) == Some(t)
  {
    var c := CivilOf(t);
    CivilOfInstant(t);
    ValuesFit(c);
    ReadWritten(Values(c), LAYOUT);
  }

  /** Every valid civil time is the civil time of its instant, so all accepted texts are covered. */
  lemma InstantOfCivil(c: Civil)
    requires ValidCivil(c)
    ensures Instant(c) < END && CivilOf(Instant(c)) == c
  {
    InstantInRange(c);
    var d := CivilOf(Instant(c));
    CivilOfInstant(Instant(c));
    if Earlier(c, d) {
      EarlierIsLess(c, d);
    } else if Earlier(d, c) {
      EarlierIsLess(d, c);
    }
  }

  lemma InstantInRange(c: Civil)
    requires ValidCivil(c)
    ensures Instant(c) < END
  {
    DayInYear(c);
    TimeInDay(c);
    YearsGrow(c.year, 10_000);
    assert DayNumber(c) + 1 <= DaysToYear(10_000);
  }
}
