// Stored times are UTC isoformat strings and SQL compares them as text
// (src/rosetta/persistence.py:374-386, 425-440). The order of the texts is the order of time, so
// the tables can be modelled with integer times.
module IsoTime {
  import opened Orders

  // A datetime in UTC.
  datatype DateTime = DateTime(year: nat, month: nat, day: nat, hour: nat, minute: nat, second: nat, micro: nat)

  // ---- the calendar ----

  predicate Leap(year: nat) {
    year % 4 == 0 && (year % 100 != 0 || year % 400 == 0)
  }

  function DaysInMonth(year: nat, month: nat): nat {
    if month == 2 then (if Leap(year) then 29 else 28)
    else if month in {4, 6, 9, 11} then 30
    else 31
  }

  predicate Valid(t: DateTime) {
    && 1 <= t.year <= 9999 && 1 <= t.month <= 12 && 1 <= t.day <= DaysInMonth(t.year, t.month)
    && t.hour < 24 && t.minute < 60 && t.second < 60 && t.micro < 1_000_000
  }

  function DaysBeforeYear(year: nat): nat {
    if year <= 1 then 0 else DaysBeforeYear(year - 1) + if Leap(year - 1) then 366 else 365
  }

  function DaysBeforeMonth(year: nat, month: nat): nat {
    if month <= 1 then 0 else DaysBeforeMonth(year, month - 1) + DaysInMonth(year, month - 1)
  }

  function DayNumber(t: DateTime): nat {
    DaysBeforeYear(t.year) + DaysBeforeMonth(t.year, t.month) + t.day
  }

  // Microseconds on the time line.
  function Instant(t: DateTime): nat {
    (((DayNumber(t) * 24 + t.hour) * 60 + t.minute) * 60 + t.second) * 1_000_000 + t.micro
  }

  lemma {:induction false} YearsPass(a: nat, b: nat)
    requires 1 <= a < b
    ensures DaysBeforeYear(b) >= DaysBeforeYear(a) + if Leap(a) then 366 else 365
    decreases b
  {
    if a + 1 >= b {
    } else {
      YearsPass(a, b - 1);
    }
  }

  lemma {:induction false} MonthsPass(year: nat, a: nat, b: nat)
    requires 1 <= a < b
    ensures DaysBeforeMonth(year, b) >= DaysBeforeMonth(year, a) + DaysInMonth(year, a)
    decreases b
  {
    if a + 1 >= b {
    } else {
      MonthsPass(year, a, b - 1);
    }
  }

  lemma {:induction false} MonthStep(year: nat, month: nat)
    requires month >= 1
    ensures DaysBeforeMonth(year, month + 1) == DaysBeforeMonth(year, month) + DaysInMonth(year, month)
  {
  }

  lemma {:induction false} YearLength(year: nat)
    ensures DaysBeforeMonth(year, 12) + DaysInMonth(year, 12) == if Leap(year) then 366 else 365
  {
    forall m | 1 <= m <= 11 ensures DaysBeforeMonth(year, m + 1) == DaysBeforeMonth(year, m) + DaysInMonth(year, m) {
      MonthStep(year, m);
    }
    MonthStep(year, 1); MonthStep(year, 2); MonthStep(year, 3);
    MonthStep(year, 4); MonthStep(year, 5); MonthStep(year, 6);
    MonthStep(year, 7); MonthStep(year, 8); MonthStep(year, 9); MonthStep(year, 10); MonthStep(year, 11);
    assert DaysBeforeMonth(year, 1) == 0;
  }

  // Earlier by year, month and day.
  predicate DateBefore(a: DateTime, b: DateTime) {
    a.year < b.year || (a.year == b.year && (a.month < b.month || (a.month == b.month && a.day < b.day)))
  }

  lemma {:induction false} DatesPass(a: DateTime, b: DateTime)
    requires Valid(a) && Valid(b) && DateBefore(a, b)
    ensures DayNumber(a) < DayNumber(b)
  {
    if a.year < b.year {
      YearsPass(a.year, b.year);
      YearLength(a.year);
      if a.month < 12 { MonthsPass(a.year, a.month, 12); }
    } else if a.month < b.month {
      MonthsPass(a.year, a.month, b.month);
    }
  }

  // ---- the text ----

  function Digit(n: nat): char {
    (n % 10 + 48) as char
  }

  // n in `width` decimal digits.
  function Padded(n: nat, width: nat): (s: string)
    ensures |s| == width
  {
    if width == 0 then "" else Padded(n / 10, width - 1) + [Digit(n)]
  }

  function Ten(width: nat): (p: nat)
    ensures p > 0
  {
    if width == 0 then 1 else 10 * Ten(width - 1)
  }

  // A number, how many digits it gets, and what follows them.
  datatype Field = Field(value: nat, width: nat, after: string)

  function Text(fields: seq<Field>): string {
    if fields == [] then "" else Padded(fields[0].value, fields[0].width) + fields[0].after + Text(fields[1..])
  }

  function ToSecond(t: DateTime): seq<Field> {
    [Field(t.year, 4, "-"), Field(t.month, 2, "-"), Field(t.day, 2, "T"),
     Field(t.hour, 2, ":"), Field(t.minute, 2, ":"), Field(t.second, 2, "")]
  }

  // isoformat leaves the microseconds out when they are zero.
  function Fraction(t: DateTime): string {
    if t.micro == 0 then "+00:00" else "." + Padded(t.micro, 6) + "+00:00"
  }

  function IsoFormat(t: DateTime): string {
    Text(ToSecond(t)) + Fraction(t)
  }

  // ---- texts in order ----

  lemma {:induction false} LexOfConcat(x: string, y: string, u: string, v: string)
    requires |x| == |y|
    ensures StringLe(x + u, y + v) <==> if x == y then StringLe(u, v) else StringLe(x, y)
  {
    if x == "" {
      assert x + u == u && y + v == v;
    } else {
      LexOfConcat(x[1..], y[1..], u, v);
      assert (x + u)[1..] == x[1..] + u && (y + v)[1..] == y[1..] + v;
      assert x == [x[0]] + x[1..] && y == [y[0]] + y[1..];
    }
  }

  lemma {:induction false} PaddedOrder(a: nat, b: nat, width: nat)
    requires a < Ten(width) && b < Ten(width)
    ensures Padded(a, width) == Padded(b, width) <==> a == b
    ensures StringLe(Padded(a, width), Padded(b, width)) <==> a <= b
  {
    if width == 0 {
    } else {
      PaddedOrder(a / 10, b / 10, width - 1);
      LexOfConcat(Padded(a / 10, width - 1), Padded(b / 10, width - 1), [Digit(a)], [Digit(b)]);
      LastDigits(a, b, width);
    }
  }

  lemma {:induction false} LastDigits(a: nat, b: nat, width: nat)
    requires width > 0
    ensures Padded(a, width) == Padded(b, width) <==>
              Padded(a / 10, width - 1) == Padded(b / 10, width - 1) && Digit(a) == Digit(b)
    ensures StringLe([Digit(a)], [Digit(b)]) <==> a % 10 <= b % 10
    ensures Digit(a) == Digit(b) <==> a % 10 == b % 10
  {
    var x, y := Padded(a, width), Padded(b, width);
    assert x[..width - 1] == Padded(a / 10, width - 1) && y[..width - 1] == Padded(b / 10, width - 1);
    assert x[width - 1] == Digit(a) && y[width - 1] == Digit(b);
    OneChar(Digit(a), Digit(b));
  }

  lemma {:induction false} OneChar(x: char, y: char)
    ensures StringLe([x], [y]) <==> x <= y
  {
    var a, b := [x], [y];
    assert a[1..] == [] && b[1..] == [];
    assert Lex(a, b, CharLe) <==> if a[0] == b[0] then Lex(a[1..], b[1..], CharLe) else CharLe(a[0], b[0]);
  }

  predicate SameShape(a: seq<Field>, b: seq<Field>) {
    && |a| == |b|
    && forall i :: 0 <= i < |a| ==>
         && a[i].width == b[i].width && a[i].after == b[i].after
         && a[i].value < Ten(a[i].width) && b[i].value < Ten(b[i].width)
  }

  // Field by field, the first difference decides.
  predicate FieldsLe(a: seq<Field>, b: seq<Field>)
    requires |a| == |b|
  {
    if a == [] then true
    else if a[0].value == b[0].value then FieldsLe(a[1..], b[1..])
    else a[0].value < b[0].value
  }

  lemma {:induction false} SameSplit(p: string, u: string, q: string, v: string)
    requires |p| == |q|
    ensures p + u == q + v <==> p == q && u == v
  {
    if p + u == q + v {
      assert p == (p + u)[..|p|] == (q + v)[..|q|] == q;
      assert u == (p + u)[|p|..] == (q + v)[|q|..] == v;
    }
  }

  // One field in front of two texts in order.
  lemma {:induction false} FieldInFront(x: Field, y: Field, u: string, v: string)
    requires x.width == y.width && x.after == y.after && x.value < Ten(x.width) && y.value < Ten(y.width)
    ensures var s, t := Padded(x.value, x.width) + x.after + u, Padded(y.value, y.width) + y.after + v;
            && (StringLe(s, t) <==> if x.value == y.value then StringLe(u, v) else x.value < y.value)
            && (s == t <==> x.value == y.value && u == v)
  {
    var p, q := Padded(x.value, x.width), Padded(y.value, y.width);
    PaddedOrder(x.value, y.value, x.width);
    LexOfConcat(p, q, x.after + u, y.after + v);
    LexOfConcat(x.after, y.after, u, v);
    SameSplit(p, x.after + u, q, y.after + v);
    SameSplit(x.after, u, y.after, v);
    assert p + x.after + u == p + (x.after + u) && q + y.after + v == q + (y.after + v);
  }

  lemma {:induction false} TextOrder(a: seq<Field>, b: seq<Field>)
    requires SameShape(a, b)
    ensures |Text(a)| == |Text(b)|
    ensures StringLe(Text(a), Text(b)) <==> FieldsLe(a, b)
    ensures Text(a) == Text(b) <==> a == b
  {
    if a == [] {
    } else {
      TextOrder(a[1..], b[1..]);
      FieldInFront(a[0], b[0], Text(a[1..]), Text(b[1..]));
      assert a == [a[0]] + a[1..] && b == [b[0]] + b[1..];
    }
  }

  lemma {:induction false} FractionOrder(a: DateTime, b: DateTime)
    requires Valid(a) && Valid(b)
    ensures StringLe(Fraction(a), Fraction(b)) <==> a.micro <= b.micro
  {
    assert Ten(6) == 1_000_000;
    if a.micro == 0 || b.micro == 0 {
      assert "+00:00"[0] == '+';
      LexReflexive("+00:00", CharLe);
    } else {
      PaddedOrder(a.micro, b.micro, 6);
      var p, q := Padded(a.micro, 6) + "+00:00", Padded(b.micro, 6) + "+00:00";
      LexOfConcat(Padded(a.micro, 6), Padded(b.micro, 6), "+00:00", "+00:00");
      LexReflexive("+00:00", CharLe);
      assert Fraction(a) == "." + p && Fraction(b) == "." + q;
      LexOfConcat(".", ".", p, q);
    }
  }

  // ---- the theorem ----

  predicate SecondsLe(a: DateTime, b: DateTime) {
    FieldsLe(ToSecond(a), ToSecond(b))
  }

  lemma {:induction false} SecondsInOrder(a: DateTime, b: DateTime)
    requires Valid(a) && Valid(b) && ToSecond(a) != ToSecond(b)
    ensures SecondsLe(a, b) <==> Instant(a) < Instant(b)
    ensures Instant(a) != Instant(b)
  {
    FieldByField(a, b);
    ClockByField(a, b);
    DateIsFields(a, b);
    if DateBefore(a, b) { DatesPass(a, b); }
    if DateBefore(b, a) { DatesPass(b, a); }
  }

  // The last three fields of a time.
  function Clock(t: DateTime): seq<Field> {
    [Field(t.hour, 2, ":"), Field(t.minute, 2, ":"), Field(t.second, 2, "")]
  }

  lemma {:induction false} ClockByField(a: DateTime, b: DateTime)
    ensures FieldsLe(Clock(a), Clock(b)) <==>
              if a.hour != b.hour then a.hour < b.hour
              else if a.minute != b.minute then a.minute < b.minute
              else a.second <= b.second
  {
    assert Clock(a)[1..] == [Field(a.minute, 2, ":"), Field(a.second, 2, "")]
      && Clock(a)[1..][1..] == [Field(a.second, 2, "")];
    assert Clock(b)[1..] == [Field(b.minute, 2, ":"), Field(b.second, 2, "")]
      && Clock(b)[1..][1..] == [Field(b.second, 2, "")];
    LastField(a.second, b.second);
  }

  lemma {:induction false} LastField(x: nat, y: nat)
    ensures FieldsLe([Field(x, 2, "")], [Field(y, 2, "")]) <==> x <= y
  {
    assert [Field(x, 2, "")][1..] == [] && [Field(y, 2, "")][1..] == [];
  }

  lemma {:induction false} FieldByField(a: DateTime, b: DateTime)
    ensures SecondsLe(a, b) <==>
              if a.year != b.year then a.year < b.year
              else if a.month != b.month then a.month < b.month
              else if a.day != b.day then a.day < b.day
              else FieldsLe(Clock(a), Clock(b))
  {
    var x, y := ToSecond(a), ToSecond(b);
    assert x[1..] == [Field(a.month, 2, "-"), Field(a.day, 2, "T")] + Clock(a);
    assert y[1..] == [Field(b.month, 2, "-"), Field(b.day, 2, "T")] + Clock(b);
    assert x[1..][1..] == [Field(a.day, 2, "T")] + Clock(a) && x[1..][1..][1..] == Clock(a);
    assert y[1..][1..] == [Field(b.day, 2, "T")] + Clock(b) && y[1..][1..][1..] == Clock(b);
    FieldsStep(x, y);
    FieldsStep(x[1..], y[1..]);
    DayField(a, b);
  }

  lemma {:induction false} FieldsStep(a: seq<Field>, b: seq<Field>)
    requires |a| == |b| > 0
    ensures FieldsLe(a, b) <==> if a[0].value == b[0].value then FieldsLe(a[1..], b[1..]) else a[0].value < b[0].value
  {
  }

  lemma {:induction false} DayField(a: DateTime, b: DateTime)
    ensures FieldsLe([Field(a.day, 2, "T")] + Clock(a), [Field(b.day, 2, "T")] + Clock(b)) <==>
              if a.day != b.day then a.day < b.day else FieldsLe(Clock(a), Clock(b))
  {
    assert ([Field(a.day, 2, "T")] + Clock(a))[1..] == Clock(a) && ([Field(b.day, 2, "T")] + Clock(b))[1..] == Clock(b);
  }

  lemma {:induction false} DateIsFields(a: DateTime, b: DateTime)
    ensures ToSecond(a) == ToSecond(b) <==>
              a.year == b.year && a.month == b.month && a.day == b.day && a.hour == b.hour && a.minute == b.minute
                && a.second == b.second
  {
    assert ToSecond(a)[0] == ToSecond(b)[0] <==> a.year == b.year;
    assert ToSecond(a)[1] == ToSecond(b)[1] <==> a.month == b.month;
    assert ToSecond(a)[2] == ToSecond(b)[2] <==> a.day == b.day;
    assert ToSecond(a)[3] == ToSecond(b)[3] <==> a.hour == b.hour;
    assert ToSecond(a)[4] == ToSecond(b)[4] <==> a.minute == b.minute;
    assert ToSecond(a)[5] == ToSecond(b)[5] <==> a.second == b.second;
  }

  // The text order of two stored times is their order in time.
  lemma {:induction false} IsoOrderIsTime(a: DateTime, b: DateTime)
    requires Valid(a) && Valid(b)
    ensures StringLe(IsoFormat(a), IsoFormat(b)) <==> Instant(a) <= Instant(b)
    ensures IsoFormat(a) == IsoFormat(b) <==> Instant(a) == Instant(b)
  {
    IsoLeIsTime(a, b);
    IsoLeIsTime(b, a);
    StringLeIsTotalOrder();
    assert StringLe(IsoFormat(a), IsoFormat(b)) && StringLe(IsoFormat(b), IsoFormat(a)) ==>
        IsoFormat(a) == IsoFormat(b);
    assert StringLe(IsoFormat(a), IsoFormat(a));
  }

  lemma {:induction false} IsoLeIsTime(a: DateTime, b: DateTime)
    requires Valid(a) && Valid(b)
    ensures StringLe(IsoFormat(a), IsoFormat(b)) <==> Instant(a) <= Instant(b)
  {
    Shapes(a, b);
    TextOrder(ToSecond(a), ToSecond(b));
    LexOfConcat(Text(ToSecond(a)), Text(ToSecond(b)), Fraction(a), Fraction(b));
    FractionOrder(a, b);
    DateIsFields(a, b);
    if ToSecond(a) == ToSecond(b) {
      assert DayNumber(a) == DayNumber(b);
    } else {
      SecondsInOrder(a, b);
    }
  }

  lemma {:induction false} Shapes(a: DateTime, b: DateTime)
    requires Valid(a) && Valid(b)
    ensures SameShape(ToSecond(a), ToSecond(b))
  {
    assert Ten(2) == 100 && Ten(4) == 10_000;
  }
}
