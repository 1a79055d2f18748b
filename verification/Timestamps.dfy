/** Fixed-width timestamp text and why it sorts like the instants it stands for. */
module Timestamps {
  import opened Prelude
  import opened Text

  // ----- calendar -----

  /** Microseconds in a day; instants count from the first day of year 1. */
  const DAY := 86_400_000_000

  predicate IsLeap(year: nat) {
    year % 4 == 0 && (year % 100 != 0 || year % 400 == 0)
  }

  function DaysInYear(year: nat): nat {
    if IsLeap(year) then 366 else 365
  }

  function DaysInMonth(year: nat, month: nat): nat {
    if month == 2 then (if IsLeap(year) then 29 else 28)
    else if month == 4 || month == 6 || month == 9 || month == 11 then 30
    else 31
  }

  /** Year and day within it, counting `days` from the start of `year`. */
  function YearAndDay(days: nat, year: nat): (r: (nat, nat))
    ensures year <= r.0 && r.1 < DaysInYear(r.0)
    decreases days
  {
    if days < DaysInYear(year) then (year, days) else YearAndDay(days - DaysInYear(year), year + 1)
  }

  /** Month and day within it (from 1), counting `days` from the start of `month`. */
  function MonthAndDay(days: nat, year: nat, month: nat): (r: (nat, nat))
    requires 1 <= month <= 12
    ensures month <= r.0 <= 12 && 1 <= r.1
    ensures r.0 < 12 ==> r.1 <= DaysInMonth(year, r.0)
    decreases 12 - month
  {
    if month == 12 || days < DaysInMonth(year, month) then (month, days + 1)
    else MonthAndDay(days - DaysInMonth(year, month), year, month + 1)
  }

  predicate LexLess(a: (int, int), b: (int, int)) {
    a.0 < b.0 || (a.0 == b.0 && a.1 < b.1)
  }

  lemma {:induction false} YearsOrder(a: nat, b: nat, year: nat)
    requires a < b
    ensures LexLess(YearAndDay(a, year), YearAndDay(b, year))
    decreases a
  {
    hide IsLeap;
    if DaysInYear(year) <= a {
      YearsOrder(a - DaysInYear(year), b - DaysInYear(year), year + 1);
    }
  }

  lemma {:induction false} MonthsOrder(a: nat, b: nat, year: nat, month: nat)
    requires a < b && 1 <= month <= 12
    ensures LexLess(MonthAndDay(a, year, month), MonthAndDay(b, year, month))
    decreases 12 - month
  {
    hide DaysInMonth;
    if month < 12 && DaysInMonth(year, month) <= a {
      MonthsOrder(a - DaysInMonth(year, month), b - DaysInMonth(year, month), year, month + 1);
    }
  }

  // ----- fixed-width rendering -----

  function Power10(width: nat): nat {
    if width == 0 then 1 else 10 * Power10(width - 1)
  }

  function DigitChar(d: nat): char
    requires d < 10
  {
    '0' + d as char
  }

  /** Decimal digits of `n`, zero-padded to `width`. */
  function Digits(n: nat, width: nat): (s: string)
    ensures |s| == width
  {
    if width == 0 then "" else Digits(n / 10, width - 1) + [DigitChar(n % 10)]
  }

  datatype Field = Field(value: nat, width: nat, suffix: string) {
    predicate Fits() {
      value < Power10(width)
    }
  }

  function Render(fields: seq<Field>): string {
    if fields == [] then ""
    else Digits(fields[0].value, fields[0].width) + fields[0].suffix + Render(fields[1..])
  }

  /** Same layout, and the first field that differs is smaller. */
  ghost predicate FieldsLess(a: seq<Field>, b: seq<Field>) {
    && a != [] && b != []
    && a[0].width == b[0].width && a[0].suffix == b[0].suffix && a[0].Fits() && b[0].Fits()
    && (a[0].value < b[0].value || (a[0].value == b[0].value && FieldsLess(a[1..], b[1..])))
  }

  lemma {:induction false} LessBySamePrefix(p: string, a: string, b: string)
    requires Less(a, b)
    ensures Less(p + a, p + b)
  {
    if p == "" {
      assert p + a == a && p + b == b;
    } else {
      assert (p + a)[1..] == p[1..] + a && (p + b)[1..] == p[1..] + b;
      LessBySamePrefix(p[1..], a, b);
    }
  }

  lemma {:induction false} LessByEqualWidth(a: string, b: string, u: string, v: string)
    requires |a| == |b| && Less(a, b)
    ensures Less(a + u, b + v)
  {
    if a[0] == b[0] {
      assert (a + u)[1..] == a[1..] + u && (b + v)[1..] == b[1..] + v;
      LessByEqualWidth(a[1..], b[1..], u, v);
    }
  }

  lemma {:induction false} DigitsOrder(a: nat, b: nat, width: nat)
    requires a < b < Power10(width)
    ensures Less(Digits(a, width), Digits(b, width))
    decreases width
  {
    hide Less;
    var p, q := Digits(a / 10, width - 1), Digits(b / 10, width - 1);
    if a / 10 < b / 10 {
      DigitsOrder(a / 10, b / 10, width - 1);
      LessByEqualWidth(p, q, [DigitChar(a % 10)], [DigitChar(b % 10)]);
    } else {
      assert a / 10 == b / 10 && a % 10 < b % 10;
      LastDigit(a % 10, b % 10);
      LessBySamePrefix(p, [DigitChar(a % 10)], [DigitChar(b % 10)]);
    }
  }

  lemma LastDigit(x: nat, y: nat)
    requires x < y < 10
    ensures Less([DigitChar(x)], [DigitChar(y)])
  {
  }

  lemma {:induction false} RenderOrder(a: seq<Field>, b: seq<Field>)
    requires FieldsLess(a, b)
    ensures Less(Render(a), Render(b))
    decreases |a|
  {
    hide Less, Digits;
    var p, q := Digits(a[0].value, a[0].width), Digits(b[0].value, b[0].width);
    var u, v := a[0].suffix + Render(a[1..]), b[0].suffix + Render(b[1..]);
    assert Render(a) == p + u && Render(b) == q + v;
    if a[0].value < b[0].value {
      DigitsOrder(a[0].value, b[0].value, a[0].width);
      LessByEqualWidth(p, q, u, v);
    } else {
      RenderOrder(a[1..], b[1..]);
      LessBySamePrefix(a[0].suffix, Render(a[1..]), Render(b[1..]));
      LessBySamePrefix(p, u, v);
    }
  }

  // ----- instants -----

  /** Instants the calendar can write with a four-digit year. */
  predicate Representable(t: Instant) {
    0 <= t && YearAndDay(t / DAY, 1).0 <= 9999
  }

  function ClockFields(us: nat): seq<Field> {
    var afterHour := us % 3_600_000_000;
    var afterMinute := afterHour % 60_000_000;
    [Field(us / 3_600_000_000, 2, ":"), Field(afterHour / 60_000_000, 2, ":"),
     Field(afterMinute / 1_000_000, 2, "."), Field(afterMinute % 1_000_000, 6, "Z")]
  }

  function DateFields(days: nat): seq<Field> {
    var (year, rest) := YearAndDay(days, 1);
    var (month, day) := MonthAndDay(rest, year, 1);
    [Field(year, 4, "-"), Field(month, 2, "-"), Field(day, 2, "T")]
  }

  /** `YYYY-MM-DDTHH:MM:SS.ffffffZ` */
  function TimestampText(t: Instant): string
    requires Representable(t)
  {
    Render(DateFields(t / DAY) + ClockFields(t % DAY))
  }

  lemma Power10Values()
    ensures Power10(2) == 100 && Power10(4) == 10_000 && Power10(6) == 1_000_000
  {
    assert Power10(3) == 1_000;
    assert Power10(5) == 100_000;
  }

  lemma ProductsOrder(k: nat, x: int, y: int)
    ensures x <= y ==> k * x <= k * y
  {
    if x <= y {
      assert k * (y - x) >= 0;
    }
  }

  lemma LeadingTermDecides(k: nat, qa: int, ra: int, qb: int, rb: int)
    requires 0 <= ra < k && 0 <= rb < k && k * qa + ra < k * qb + rb
    ensures qa < qb || (qa == qb && ra < rb)
  {
    ProductsOrder(k, qb + 1, qa);
    assert k * (qb + 1) == k * qb + k;
  }

  lemma QuotientsOrder(a: nat, b: nat, k: nat)
    requires a < b && k > 0
    ensures a / k < b / k || (a / k == b / k && a % k < b % k)
  {
    LeadingTermDecides(k, a / k, a % k, b / k, b % k);
  }

  lemma ClockFieldsFit(us: nat)
    requires us < DAY
    ensures forall i :: 0 <= i < 4 ==> ClockFields(us)[i].Fits()
  {
    hide Power10;
    Power10Values();
    var afterHour := us % 3_600_000_000;
    assert us / 3_600_000_000 < 24 && afterHour / 60_000_000 < 60;
    assert afterHour % 60_000_000 / 1_000_000 < 60;
  }

  lemma ClockOrder(a: nat, b: nat)
    requires a < b < DAY
    ensures FieldsLess(ClockFields(a), ClockFields(b))
  {
    hide FieldsLess, Power10;
    ClockFieldsFit(a);
    ClockFieldsFit(b);
    QuotientsOrder(a, b, 3_600_000_000);
    var a1, b1 := a % 3_600_000_000, b % 3_600_000_000;
    if a1 < b1 {
      QuotientsOrder(a1, b1, 60_000_000);
      var a2, b2 := a1 % 60_000_000, b1 % 60_000_000;
      if a2 < b2 {
        QuotientsOrder(a2, b2, 1_000_000);
      }
    }
    ClockFieldsChain(ClockFields(a), ClockFields(b));
  }

  lemma ClockFieldsChain(fa: seq<Field>, fb: seq<Field>)
    requires |fa| == |fb| == 4
    requires forall i :: 0 <= i < 4 ==>
      fa[i].width == fb[i].width && fa[i].suffix == fb[i].suffix && fa[i].Fits() && fb[i].Fits()
    requires fa[0].value < fb[0].value || (fa[0].value == fb[0].value
             && (fa[1].value < fb[1].value || (fa[1].value == fb[1].value
                 && (fa[2].value < fb[2].value || (fa[2].value == fb[2].value && fa[3].value < fb[3].value)))))
    ensures FieldsLess(fa, fb)
  {
    assert FieldsLess(fa[3..], fb[3..]) || fa[3].value >= fb[3].value;
    assert fa[2..][1..] == fa[3..] && fb[2..][1..] == fb[3..];
    assert fa[1..][1..] == fa[2..] && fb[1..][1..] == fb[2..];
  }

  lemma DateOrder(a: nat, b: nat, u: seq<Field>, v: seq<Field>)
    requires YearAndDay(a, 1).0 <= 9999 && YearAndDay(b, 1).0 <= 9999
    requires a < b || (a == b && FieldsLess(u, v))
    ensures FieldsLess(DateFields(a) + u, DateFields(b) + v)
  {
    hide YearAndDay, MonthAndDay;
    Power10Values();
    if a < b {
      YearsOrder(a, b, 1);
      var (year, ra) := YearAndDay(a, 1);
      var (year', rb) := YearAndDay(b, 1);
      if year == year' {
        MonthsOrder(ra, rb, year, 1);
      }
    }
    DayFits(a);
    DayFits(b);
    DateChain(DateFields(a), DateFields(b), u, v);
  }

  lemma DayFits(days: nat)
    ensures DateFields(days)[1].value <= 12 && DateFields(days)[2].value <= 31
  {
    var (year, rest) := YearAndDay(days, 1);
    DecemberFits(rest, year);
  }

  lemma DecemberFits(rest: nat, year: nat)
    requires rest < DaysInYear(year)
    ensures MonthAndDay(rest, year, 1).1 <= 31
  {
    MonthFits(rest, year, 1);
  }

  function DaysFrom(year: nat, month: nat): nat
    requires 1 <= month <= 12
    decreases 12 - month
  {
    DaysInMonth(year, month) + if month == 12 then 0 else DaysFrom(year, month + 1)
  }

  lemma {:induction false} MonthFits(days: nat, year: nat, month: nat)
    requires 1 <= month <= 12
    requires (month == 1 ==> days < DaysInYear(year)) && (month > 1 ==> days < DaysFrom(year, month))
    ensures MonthAndDay(days, year, month).1 <= 31
    decreases 12 - month
  {
    hide IsLeap, DaysInYear;
    if month == 1 {
      YearLength(year);
    }
    if month < 12 && DaysInMonth(year, month) <= days {
      MonthFits(days - DaysInMonth(year, month), year, month + 1);
    }
  }

  lemma YearLength(year: nat)
    ensures DaysFrom(year, 1) == DaysInYear(year)
  {
    assert DaysFrom(year, 11) == 61;
    assert DaysFrom(year, 9) == 122;
    assert DaysFrom(year, 7) == 184;
    assert DaysFrom(year, 5) == 245;
    assert DaysFrom(year, 3) == 306;
  }

  lemma DateChain(p: seq<Field>, q: seq<Field>, u: seq<Field>, v: seq<Field>)
    requires |p| == |q| == 3
    requires forall i :: 0 <= i < 3 ==>
      p[i].width == q[i].width && p[i].suffix == q[i].suffix && p[i].Fits() && q[i].Fits()
    requires p[0].value < q[0].value || (p[0].value == q[0].value
             && (p[1].value < q[1].value || (p[1].value == q[1].value
                 && (p[2].value < q[2].value || (p[2].value == q[2].value && FieldsLess(u, v))))))
    ensures FieldsLess(p + u, q + v)
  {
    var a, b := p + u, q + v;
    assert a[3..] == u && b[3..] == v;
    assert a[2..][1..] == a[3..] && b[2..][1..] == b[3..];
    assert a[1..][1..] == a[2..] && b[1..][1..] == b[2..];
  }

  lemma EarlierTextIsSmaller(a: Instant, b: Instant)
    requires Representable(a) && Representable(b) && a < b
    ensures Less(TimestampText(a), TimestampText(b))
  {
    hide YearAndDay, DateFields, ClockFields, Less, Render;
    QuotientsOrder(a, b, DAY);
    if a / DAY == b / DAY {
      ClockOrder(a % DAY, b % DAY);
    }
    DateOrder(a / DAY, b / DAY, ClockFields(a % DAY), ClockFields(b % DAY));
    RenderOrder(DateFields(a / DAY) + ClockFields(a % DAY), DateFields(b / DAY) + ClockFields(b % DAY));
  }

  /** Comparing timestamp texts is comparing instants. */
  lemma TextOrdersLikeInstants(a: Instant, b: Instant)
    requires Representable(a) && Representable(b)
    ensures a < b <==> Less(TimestampText(a), TimestampText(b))
    ensures a == b <==> TimestampText(a) == TimestampText(b)
  {
    hide TimestampText;
    if a < b {
      EarlierTextIsSmaller(a, b);
      LessIsAsymmetric(TimestampText(a), TimestampText(b));
    } else if b < a {
      EarlierTextIsSmaller(b, a);
      LessIsAsymmetric(TimestampText(b), TimestampText(a));
    } else if Less(TimestampText(a), TimestampText(a)) {
      LessIsAsymmetric(TimestampText(a), TimestampText(a));
    }
  }

  // ----- the calendar is the Gregorian one -----

  /** Days before the first of January of a year, in the proleptic Gregorian calendar. */
  function DaysBeforeYear(year: nat): nat
    requires year >= 1
  {
    var past := year - 1;
    365 * past + past / 4 - past / 100 + past / 400
  }

  lemma NextYear(year: nat)
    requires year >= 1
    ensures DaysBeforeYear(year + 1) == DaysBeforeYear(year) + DaysInYear(year)
  {
    var past := year - 1;
    StepsOfQuotients(past);
    MultiplesOf(year);
  }

  lemma StepsOfQuotients(n: nat)
    ensures (n + 1) / 4 == n / 4 + if (n + 1) % 4 == 0 then 1 else 0
    ensures (n + 1) / 100 == n / 100 + if (n + 1) % 100 == 0 then 1 else 0
    ensures (n + 1) / 400 == n / 400 + if (n + 1) % 400 == 0 then 1 else 0
  {
  }

  lemma MultiplesOf(year: nat)
    ensures year % 400 == 0 ==> year % 100 == 0
    ensures year % 100 == 0 ==> year % 4 == 0
  {
    if year % 400 == 0 {
      QuotientOf(year, 100, 4 * (year / 400));
    }
    if year % 100 == 0 {
      QuotientOf(year, 4, 25 * (year / 100));
    }
  }

  lemma QuotientOf(n: nat, k: nat, q: nat)
    requires k > 0 && n == k * q
    ensures n % k == 0
  {
    LeadingTermDecidesEqual(k, q, 0, n / k, n % k);
  }

  /** A number has one quotient and one remainder. */
  lemma LeadingTermDecidesEqual(k: nat, qa: int, ra: int, qb: int, rb: int)
    requires 0 <= ra < k && 0 <= rb < k && k * qa + ra == k * qb + rb
    ensures qa == qb && ra == rb
  {
    ProductsOrder(k, qa + 1, qb);
    ProductsOrder(k, qb + 1, qa);
  }

  /** The year and day of an instant, counted the way the calendar counts them. */
  lemma {:induction false} YearsAreGregorian(days: nat, year: nat)
    requires year >= 1
    ensures var (y, d) := YearAndDay(days, year); DaysBeforeYear(y) + d == DaysBeforeYear(year) + days
    decreases days
  {
    hide DaysBeforeYear, IsLeap;
    NextYear(year);
    if days >= DaysInYear(year) {
      YearsAreGregorian(days - DaysInYear(year), year + 1);
    }
  }

  /** Days before a month of a year. */
  function DaysBeforeMonth(year: nat, month: nat): nat
    requires 1 <= month <= 12
  {
    [0, 31, 59, 90, 120, 151, 181, 212, 243, 273, 304, 334][month - 1] + if month > 2 && IsLeap(year) then 1 else 0
  }

  lemma NextMonth(year: nat, month: nat)
    requires 1 <= month < 12
    ensures DaysBeforeMonth(year, month + 1) == DaysBeforeMonth(year, month) + DaysInMonth(year, month)
  {
    hide IsLeap;
  }

  lemma {:induction false} MonthsAreGregorian(days: nat, year: nat, month: nat)
    requires 1 <= month <= 12
    ensures var (m, d) := MonthAndDay(days, year, month);
            DaysBeforeMonth(year, m) + d - 1 == DaysBeforeMonth(year, month) + days
    decreases 12 - month
  {
    hide DaysInMonth, DaysBeforeMonth;
    if month < 12 && days >= DaysInMonth(year, month) {
      NextMonth(year, month);
      MonthsAreGregorian(days - DaysInMonth(year, month), year, month + 1);
    }
  }

  /** A year is leap if it is a multiple of four, but of a hundred only if of four hundred. */
  lemma LeapYears(year: nat)
    ensures DaysInYear(year) == 366 <==> year % 4 == 0 && (year % 100 == 0 ==> year % 400 == 0)
    ensures DaysInYear(year) == 365 || DaysInYear(year) == 366
  {
  }

  /** The date that is written for a day is that day of the Gregorian calendar. */
  lemma DatesAreGregorian(days: nat)
    ensures var fields := DateFields(days);
            && |fields| == 3 && fields[0].value >= 1 && 1 <= fields[1].value <= 12 && fields[2].value >= 1
            && days == DaysBeforeYear(fields[0].value) + DaysBeforeMonth(fields[0].value, fields[1].value)
                       + fields[2].value - 1
            && fields[0].suffix == "-" && fields[1].suffix == "-" && fields[2].suffix == "T"
  {
    hide IsLeap;
    var (year, rest) := YearAndDay(days, 1);
    YearsAreGregorian(days, 1);
    MonthsAreGregorian(rest, year, 1);
  }

  /** The clock that is written for a time of day is that time. */
  lemma ClockIsExact(us: nat)
    requires us < DAY
    ensures var fields := ClockFields(us);
            && |fields| == 4 && fields[0].value < 24 && fields[1].value < 60 && fields[2].value < 60
            && fields[3].value < 1_000_000
            && us == ((fields[0].value * 60 + fields[1].value) * 60 + fields[2].value) * 1_000_000 + fields[3].value
            && fields[0].suffix == ":" && fields[1].suffix == ":" && fields[2].suffix == "." && fields[3].suffix == "Z"
  {
  }

  lemma {:induction false} YearsAccumulate(a: nat, b: nat)
    requires 1 <= a <= b
    ensures DaysBeforeYear(a) <= DaysBeforeYear(b)
    decreases b
  {
    hide DaysBeforeYear, IsLeap;
    if a < b {
      NextYear(b - 1);
      YearsAccumulate(a, b - 1);
    }
  }

  /** The instants of the years 1 to 9999, which have 3652059 days. */
  lemma RepresentableIff(t: Instant)
    ensures Representable(t) <==> 0 <= t < 3_652_059 * 86_400_000_000
  {
    hide IsLeap, YearAndDay;
    if t >= 0 {
      var (year, rest) := YearAndDay(t / DAY, 1);
      YearsAreGregorian(t / DAY, 1);
      NextYear(year);
      assert DaysBeforeYear(10_000) == 3_652_059;
      if year <= 9999 {
        YearsAccumulate(year + 1, 10_000);
      } else {
        YearsAccumulate(10_000, year);
      }
    }
  }
}
