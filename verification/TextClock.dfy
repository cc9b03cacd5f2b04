/** The text clock of the key store: instants are written as RFC 3339 text with a
    trimmed fraction and compared as strings.

    An instant is a number of nanoseconds since 0000-01-01T00:00:00Z. */
module TextClock {

  const NANOS_PER_SECOND: nat := 1_000_000_000
  const SECONDS_PER_DAY: nat := 86_400

  type Instant = nat

  // ---------- Calendar ----------

  predicate Leap(y: nat) {
    y % 4 == 0 && (y % 100 != 0 || y % 400 == 0)
  }

  function YearDays(y: nat): nat {
    if Leap(y) then 366 else 365
  }

  function DaysBeforeYear(y: nat): nat {
    if y == 0 then 0 else DaysBeforeYear(y - 1) + YearDays(y - 1)
  }

  function DaysBeforeMonth(leap: bool, m: nat): (days: nat)
    requires 1 <= m <= 13
    ensures m == 1 ==> days == 0
    ensures m == 13 ==> days == if leap then 366 else 365
    ensures m <= 12 ==> days < DaysBeforeMonth(leap, m + 1) <= days + 31
    decreases 13 - m
  {
    var extra := if leap && m > 2 then 1 else 0;
    [0, 31, 59, 90, 120, 151, 181, 212, 243, 273, 304, 334, 365][m - 1] + extra
  }

  function YearFrom(y: nat, day: nat): (r: nat)
    requires DaysBeforeYear(y) <= day
    ensures y <= r && DaysBeforeYear(r) <= day < DaysBeforeYear(r + 1)
    decreases day - DaysBeforeYear(y)
  {
    if day < DaysBeforeYear(y + 1) then y else YearFrom(y + 1, day)
  }

  function MonthFrom(leap: bool, m: nat, dayOfYear: nat): (r: nat)
    requires 1 <= m <= 12
    requires DaysBeforeMonth(leap, m) <= dayOfYear < DaysBeforeMonth(leap, 13)
    ensures m <= r <= 12 && DaysBeforeMonth(leap, r) <= dayOfYear < DaysBeforeMonth(leap, r + 1)
    decreases 12 - m
  {
    if m == 12 || dayOfYear < DaysBeforeMonth(leap, m + 1) then m else MonthFrom(leap, m + 1, dayOfYear)
  }

  datatype Date = Date(year: nat, month: nat, day: nat) {
    predicate Valid() {
      && 1 <= month <= 12
      && 1 <= day
      && DaysBeforeMonth(Leap(year), month) + day <= DaysBeforeMonth(Leap(year), month + 1)
    }

    function DayNumber(): nat
      requires Valid()
    {
      DaysBeforeYear(year) + DaysBeforeMonth(Leap(year), month) + day - 1
    }
  }

  /** The calendar date of a day number. */
  function DateOf(day: nat): (d: Date)
    ensures d.Valid() && d.DayNumber() == day
    ensures d.day <= 31
  {
    var y := YearFrom(0, day);
    var rest := day - DaysBeforeYear(y);
    var m := MonthFrom(Leap(y), 1, rest);
    Date(y, m, rest - DaysBeforeMonth(Leap(y), m) + 1)
  }

  lemma {:induction false} YearsInOrder(y: nat, z: nat)
    requires y < z
    ensures DaysBeforeYear(y + 1) <= DaysBeforeYear(z)
    decreases z
  {
    if y + 1 < z {
      YearsInOrder(y, z - 1);
    }
  }

  lemma {:induction false} MonthsInOrder(leap: bool, m: nat, n: nat)
    requires 1 <= m < n <= 13
    ensures DaysBeforeMonth(leap, m + 1) <= DaysBeforeMonth(leap, n)
    ensures DaysBeforeMonth(leap, n) <= DaysBeforeMonth(leap, 13)
    decreases n
  {
    if m + 1 < n {
      MonthsInOrder(leap, m, n - 1);
    }
  }

  ghost predicate DateLess(a: Date, b: Date) {
    || a.year < b.year
    || (a.year == b.year && a.month < b.month)
    || (a.year == b.year && a.month == b.month && a.day < b.day)
  }

  /** Day numbers and calendar dates are ordered alike. */
  lemma DatesInOrder(a: Date, b: Date)
    requires a.Valid() && b.Valid() && DateLess(a, b)
    ensures a.DayNumber() < b.DayNumber()
  {
    assert DaysBeforeMonth(Leap(a.year), 13) == YearDays(a.year);
    if a.month < 12 {
      MonthsInOrder(Leap(a.year), a.month, 13);
    }
    if a.year < b.year {
      YearsInOrder(a.year, b.year);
    } else if a.month < b.month {
      MonthsInOrder(Leap(a.year), a.month, b.month);
    }
  }

  // ---------- String order ----------

  /** The order SQLite uses on ASCII text: byte by byte, a proper prefix first. */
  predicate Less(a: string, b: string) {
    if b == "" then false
    else if a == "" then true
    else if a[0] != b[0] then a[0] < b[0]
    else Less(a[1..], b[1..])
  }

  predicate AtMost(a: string, b: string) {
    !Less(b, a)
  }

  lemma {:induction false} LessIsTotal(a: string, b: string)
    ensures Less(a, b) ==> !Less(b, a)
    ensures a == b <==> !Less(a, b) && !Less(b, a)
    decreases |a|
  {
    if a != "" && b != "" && a[0] == b[0] {
      LessIsTotal(a[1..], b[1..]);
      assert a == [a[0]] + a[1..] && b == [b[0]] + b[1..];
    }
  }

  lemma {:induction false} LessFirst(a: string, b: string, x: string, y: string)
    requires |a| == |b| && Less(a, b)
    ensures Less(a + x, b + y)
    decreases |a|
  {
    if a[0] == b[0] {
      LessFirst(a[1..], b[1..], x, y);
    }
    assert (a + x)[1..] == a[1..] + x && (b + y)[1..] == b[1..] + y;
  }

  lemma {:induction false} LessSame(a: string, x: string, y: string)
    ensures Less(a + x, a + y) == Less(x, y)
    decreases |a|
  {
    if a == "" {
      assert a + x == x && a + y == y;
    } else {
      LessSame(a[1..], x, y);
      assert (a + x)[1..] == a[1..] + x && (a + y)[1..] == a[1..] + y;
    }
  }

  // ---------- Decimal digits ----------

  function Digit(n: nat): (c: char)
    requires n < 10
    ensures '0' <= c <= '9'
  {
    '0' + n as char
  }

  function Pow10(w: nat): (p: nat)
    ensures p > 0
  {
    if w == 0 then 1 else 10 * Pow10(w - 1)
  }

  /** Decimal digits of n, padded on the left with zeros to at least w digits. */
  function Pad(n: nat, w: nat): (s: string)
    ensures |s| >= w
    ensures forall i :: 0 <= i < |s| ==> '0' <= s[i] <= '9'
    decreases n, w
  {
    if w == 0 && n == 0 then ""
    else Pad(n / 10, if w == 0 then 0 else w - 1) + [Digit(n % 10)]
  }

  function Value(s: string): nat
    requires forall i :: 0 <= i < |s| ==> '0' <= s[i] <= '9'
  {
    if s == "" then 0 else 10 * Value(s[..|s| - 1]) + (s[|s| - 1] - '0') as nat
  }

  lemma {:induction false} PadWidth(n: nat, w: nat)
    requires n < Pow10(w)
    ensures |Pad(n, w)| == w
    ensures Value(Pad(n, w)) == n
    decreases w
  {
    if w > 0 {
      PadWidth(n / 10, w - 1);
      var s := Pad(n, w);
      assert s[..|s| - 1] == Pad(n / 10, w - 1);
    }
  }

  lemma DigitsInOrder(x: nat, y: nat)
    requires x < y < 10
    ensures Less([Digit(x)], [Digit(y)])
  {
  }

  lemma PadStep(n: nat, w: nat)
    requires w > 0 && n < Pow10(w)
    ensures Pad(n, w) == Pad(n / 10, w - 1) + [Digit(n % 10)]
    ensures n / 10 < Pow10(w - 1) && |Pad(n / 10, w - 1)| == w - 1
  {
    PadWidth(n / 10, w - 1);
  }

  lemma LessStep(a: string, b: string, x: string, y: string)
    requires |a| == |b| && (Less(a, b) || (a == b && Less(x, y)))
    ensures Less(a + x, b + y)
  {
    if Less(a, b) {
      LessFirst(a, b, x, y);
    } else {
      LessSame(a, x, y);
    }
  }

  lemma {:induction false} PadInOrder(n: nat, m: nat, w: nat)
    requires n < m < Pow10(w)
    ensures Less(Pad(n, w), Pad(m, w))
    decreases w
  {
    if w > 0 {
      PadStep(n, w);
      PadStep(m, w);
      if n / 10 < m / 10 {
        PadInOrder(n / 10, m / 10, w - 1);
      } else {
        DigitsInOrder(n % 10, m % 10);
      }
      LessStep(Pad(n / 10, w - 1), Pad(m / 10, w - 1), [Digit(n % 10)], [Digit(m % 10)]);
    }
  }

  // ---------- The text form ----------

  function SecondOf(t: Instant): nat { t / NANOS_PER_SECOND }
  function NanoOf(t: Instant): nat { t % NANOS_PER_SECOND }
  function DayOf(second: nat): nat { second / SECONDS_PER_DAY }

  /** Days from year 0 to year 10000, by the rule of the Gregorian calendar. */
  const DAYS_BEFORE_10000: nat := 3_652_425

  predicate InRange(t: Instant) {
    t < DAYS_BEFORE_10000 * SECONDS_PER_DAY * NANOS_PER_SECOND
  }

  lemma FourthYears(x: nat)
    ensures (x + 4) / 4 - (x + 3) / 4 == if x % 4 == 0 then 1 else 0
  {
  }

  lemma Centuries(x: nat)
    ensures (x + 100) / 100 - (x + 99) / 100 == if x % 100 == 0 then 1 else 0
    ensures (x + 400) / 400 - (x + 399) / 400 == if x % 400 == 0 then 1 else 0
    ensures x % 400 == 0 ==> x % 100 == 0
    ensures x % 100 == 0 ==> x % 4 == 0
  {
  }

  function ClosedForm(y: nat): int {
    365 * y + (y + 3) / 4 - (y + 99) / 100 + (y + 399) / 400
  }

  lemma ClosedFormStep(x: nat)
    ensures ClosedForm(x + 1) == ClosedForm(x) + YearDays(x)
  {
    FourthYears(x);
    Centuries(x);
  }

  lemma {:induction false} DaysInClosedForm(y: nat)
    ensures DaysBeforeYear(y) == ClosedForm(y)
  {
    if y > 0 {
      DaysInClosedForm(y - 1);
      ClosedFormStep(y - 1);
    }
  }

  lemma {:induction false} YearStarts(y: nat, z: nat)
    requires y <= z
    ensures DaysBeforeYear(y) <= DaysBeforeYear(z)
    decreases z
  {
    if y < z {
      YearsInOrder(y, z);
    }
  }

  lemma FourDigitYear(day: nat)
    ensures DateOf(day).year <= 9999 <==> day < DaysBeforeYear(10000)
  {
    var y := YearFrom(0, day);
    if y <= 9999 {
      YearStarts(y + 1, 10000);
    } else {
      YearStarts(10000, y);
    }
  }

  /** The instants in range are exactly those printed with a year of at most four digits. */
  lemma InRangeIsFourDigits(t: Instant)
    ensures InRange(t) <==> DateOf(DayOf(SecondOf(t))).year <= 9999
  {
    FourDigitYear(DayOf(SecondOf(t)));
    DaysInClosedForm(10000);
    DayInRange(t);
  }

  lemma DayInRange(t: Instant)
    ensures InRange(t) <==> DayOf(SecondOf(t)) < DAYS_BEFORE_10000
  {
  }

  function DateText(d: Date): string {
    Pad(d.year, 4) + ("-" + (Pad(d.month, 2) + ("-" + Pad(d.day, 2))))
  }

  function ClockText(h: nat, m: nat, c: nat): string {
    "T" + (Pad(h, 2) + (":" + (Pad(m, 2) + (":" + Pad(c, 2)))))
  }

  function TimeText(s: nat): string {
    ClockText(s / 3600, s / 60 % 60, s % 60)
  }

  function HeadText(second: nat): string {
    DateText(DateOf(DayOf(second))) + TimeText(second % SECONDS_PER_DAY)
  }

  function TrimZeros(s: string): (r: string)
    ensures r <= s
  {
    if forall i :: 0 <= i < |s| ==> s[i] == '0' then ""
    else [s[0]] + TrimZeros(s[1..])
  }

  /** The fraction digits that are printed: nine digits less the trailing zeros. */
  function FractionDigits(t: Instant): string {
    TrimZeros(Pad(NanoOf(t), 9))
  }

  function TailText(digits: string): string {
    (if digits == "" then "" else "." + digits) + "Z"
  }

  /** The RFC3339Nano layout in UTC: the fraction loses its trailing zeros and
      disappears, with its point, on a whole second. */
  function Text(t: Instant): string {
    HeadText(SecondOf(t)) + TailText(FractionDigits(t))
  }

  /** The test that releases a cooling key: both sides are text. */
  predicate Due(deadline: Instant, now: Instant) {
    AtMost(Text(deadline), Text(now))
  }

  // ---------- Whole seconds ----------

  lemma DateTextWidth(d: Date)
    requires d.year <= 9999 && d.month <= 99 && d.day <= 99
    ensures |DateText(d)| == 10
  {
    assert Pow10(4) == 10000;
    assert Pow10(2) == 100;
    PadWidth(d.year, 4);
    PadWidth(d.month, 2);
    PadWidth(d.day, 2);
  }

  lemma DateTextInOrder(a: Date, b: Date)
    requires a.year <= 9999 && a.month <= 99 && a.day <= 99
    requires b.year <= 9999 && b.month <= 99 && b.day <= 99
    requires DateLess(a, b)
    ensures Less(DateText(a), DateText(b))
  {
    assert Pow10(4) == 10000;
    assert Pow10(2) == 100;
    PadWidth(a.year, 4);
    PadWidth(b.year, 4);
    PadWidth(a.month, 2);
    PadWidth(b.month, 2);
    var a2, b2 := Pad(a.month, 2) + ("-" + Pad(a.day, 2)), Pad(b.month, 2) + ("-" + Pad(b.day, 2));
    if a.year < b.year {
      PadInOrder(a.year, b.year, 4);
      LessFirst(Pad(a.year, 4), Pad(b.year, 4), "-" + a2, "-" + b2);
    } else {
      LessSame(Pad(a.year, 4), "-" + a2, "-" + b2);
      LessSame("-", a2, b2);
      if a.month < b.month {
        PadInOrder(a.month, b.month, 2);
        LessFirst(Pad(a.month, 2), Pad(b.month, 2), "-" + Pad(a.day, 2), "-" + Pad(b.day, 2));
      } else {
        LessSame(Pad(a.month, 2), "-" + Pad(a.day, 2), "-" + Pad(b.day, 2));
        LessSame("-", Pad(a.day, 2), Pad(b.day, 2));
        PadInOrder(a.day, b.day, 2);
      }
    }
  }

  lemma TimeTextWidth(s: nat)
    requires s < SECONDS_PER_DAY
    ensures |TimeText(s)| == 9
  {
    assert Pow10(2) == 100;
    PadWidth(s / 3600, 2);
    PadWidth(s / 60 % 60, 2);
    PadWidth(s % 60, 2);
  }

  lemma ClockTextInOrder(h: nat, m: nat, c: nat, h': nat, m': nat, c': nat)
    requires h < 100 && m < 100 && c < 100 && h' < 100 && m' < 100 && c' < 100
    requires h < h' || (h == h' && m < m') || (h == h' && m == m' && c < c')
    ensures Less(ClockText(h, m, c), ClockText(h', m', c'))
  {
    assert Pow10(2) == 100;
    PadWidth(h, 2);
    PadWidth(h', 2);
    PadWidth(m, 2);
    PadWidth(m', 2);
    var x, x' := Pad(m, 2) + (":" + Pad(c, 2)), Pad(m', 2) + (":" + Pad(c', 2));
    LessSame("T", Pad(h, 2) + (":" + x), Pad(h', 2) + (":" + x'));
    if h < h' {
      PadInOrder(h, h', 2);
      LessFirst(Pad(h, 2), Pad(h', 2), ":" + x, ":" + x');
    } else {
      LessSame(Pad(h, 2), ":" + x, ":" + x');
      LessSame(":", x, x');
      if m < m' {
        PadInOrder(m, m', 2);
        LessFirst(Pad(m, 2), Pad(m', 2), ":" + Pad(c, 2), ":" + Pad(c', 2));
      } else {
        LessSame(Pad(m, 2), ":" + Pad(c, 2), ":" + Pad(c', 2));
        LessSame(":", Pad(c, 2), Pad(c', 2));
        PadInOrder(c, c', 2);
      }
    }
  }

  lemma ClockParts(s: nat)
    ensures s == 3600 * (s / 3600) + 60 * (s / 60 % 60) + s % 60
  {
    assert s / 3600 == s / 60 / 60;
  }

  lemma TimeTextInOrder(s: nat, r: nat)
    requires s < r < SECONDS_PER_DAY
    ensures Less(TimeText(s), TimeText(r))
  {
    var h, m, c, h', m', c' := s / 3600, s / 60 % 60, s % 60, r / 3600, r / 60 % 60, r % 60;
    ClockParts(s);
    ClockParts(r);
    ClockTextInOrder(h, m, c, h', m', c');
  }

  lemma HeadTextWidth(second: nat)
    requires DateOf(DayOf(second)).year <= 9999
    ensures |HeadText(second)| == 19
  {
    DateTextWidth(DateOf(DayOf(second)));
    TimeTextWidth(second % SECONDS_PER_DAY);
  }

  lemma DatesDistinct(p: nat, q: nat)
    requires p < q
    ensures DateLess(DateOf(p), DateOf(q))
  {
    var a, b := DateOf(p), DateOf(q);
    if !DateLess(a, b) && a != b {
      DatesInOrder(b, a);
    }
  }

  lemma HeadStep(a: Date, b: Date, x: nat, y: nat)
    requires a.year <= 9999 && a.month <= 99 && a.day <= 99
    requires b.year <= 9999 && b.month <= 99 && b.day <= 99
    requires x < SECONDS_PER_DAY && y < SECONDS_PER_DAY
    requires DateLess(a, b) || (a == b && x < y)
    ensures Less(DateText(a) + TimeText(x), DateText(b) + TimeText(y))
  {
    DateTextWidth(a);
    DateTextWidth(b);
    if DateLess(a, b) {
      DateTextInOrder(a, b);
    } else {
      TimeTextInOrder(x, y);
    }
    LessStep(DateText(a), DateText(b), TimeText(x), TimeText(y));
  }

  lemma SplitSeconds(p: nat, q: nat)
    requires p < q
    ensures DayOf(p) < DayOf(q) || (DayOf(p) == DayOf(q) && p % SECONDS_PER_DAY < q % SECONDS_PER_DAY)
  {
  }

  lemma HeadTextInOrder(p: nat, q: nat)
    requires p < q
    requires DateOf(DayOf(p)).year <= 9999 && DateOf(DayOf(q)).year <= 9999
    ensures Less(HeadText(p), HeadText(q))
  {
    SplitSeconds(p, q);
    var i, j := DayOf(p), DayOf(q);
    if i < j {
      DatesDistinct(i, j);
    }
    HeadStep(DateOf(i), DateOf(j), p % SECONDS_PER_DAY, q % SECONDS_PER_DAY);
  }

  // ---------- Fractions ----------

  /** A digit string without trailing zeros followed by `Z` sorts after each of its
      own extensions, and numerically otherwise. */
  lemma {:induction false} TrimmedOrder(a: string, b: string)
    requires |a| == |b| && Less(a, b)
    requires forall i :: 0 <= i < |a| ==> '0' <= a[i] <= '9' && '0' <= b[i] <= '9'
    ensures Less(TrimZeros(a) + "Z", TrimZeros(b) + "Z") <==> !(TrimZeros(a) <= TrimZeros(b))
    ensures TrimZeros(a) != TrimZeros(b)
    ensures TrimZeros(b) != ""
    decreases |a|
  {
    var ta, tb := TrimZeros(a), TrimZeros(b);
    if forall i :: 0 <= i < |b| ==> b[i] == '0' {
      AboveZeros(a, b);
    } else {
      assert tb[0] == b[0];
      if ta != "" {
        assert ta[0] == a[0];
        assert (ta + "Z")[1..] == TrimZeros(a[1..]) + "Z" && (tb + "Z")[1..] == TrimZeros(b[1..]) + "Z";
        if a[0] == b[0] {
          TrimmedOrder(a[1..], b[1..]);
          assert ta == [a[0]] + TrimZeros(a[1..]) && tb == [b[0]] + TrimZeros(b[1..]);
        }
      }
    }
  }

  lemma {:induction false} AboveZeros(a: string, b: string)
    requires |a| == |b|
    requires forall i :: 0 <= i < |a| ==> '0' <= a[i] && b[i] == '0'
    ensures !Less(a, b)
    decreases |a|
  {
    if a != "" {
      AboveZeros(a[1..], b[1..]);
    }
  }

  lemma NanoWidth(t: Instant)
    ensures NanoOf(t) < Pow10(9) && |Pad(NanoOf(t), 9)| == 9
  {
    assert Pow10(9) == 1_000_000_000;
    PadWidth(NanoOf(t), 9);
  }

  lemma TailLess(a: string, b: string)
    requires b != "" && (forall i :: 0 <= i < |b| ==> '0' <= b[i] <= '9')
    ensures Less(TailText(a), TailText(b)) == Less(a + "Z", b + "Z")
  {
    assert TailText(b) == "." + (b + "Z");
    if a == "" {
      assert (b + "Z")[0] == b[0];
    } else {
      LessSame(".", a + "Z", b + "Z");
      assert TailText(a) == "." + (a + "Z");
    }
  }

  lemma TailOrder(x: Instant, y: Instant)
    requires NanoOf(x) < NanoOf(y)
    ensures Less(TailText(FractionDigits(x)), TailText(FractionDigits(y)))
            <==> !(FractionDigits(x) <= FractionDigits(y))
    ensures FractionDigits(x) != FractionDigits(y)
  {
    NanoWidth(x);
    NanoWidth(y);
    PadInOrder(NanoOf(x), NanoOf(y), 9);
    var p, q := Pad(NanoOf(x), 9), Pad(NanoOf(y), 9);
    TrimmedOrder(p, q);
    TailLess(TrimZeros(p), TrimZeros(q));
  }

  // ---------- Main results ----------

  /** Text order is time order exactly unless the earlier fraction is a prefix of the
      later one inside a single second. */
  lemma TextOrder(a: Instant, b: Instant)
    requires a < b && InRange(a) && InRange(b)
    ensures Less(Text(a), Text(b))
            <==> !(SecondOf(a) == SecondOf(b) && FractionDigits(a) <= FractionDigits(b))
  {
    InRangeIsFourDigits(a);
    InRangeIsFourDigits(b);
    if SecondOf(a) < SecondOf(b) {
      HeadTextWidth(SecondOf(a));
      HeadTextWidth(SecondOf(b));
      HeadTextInOrder(SecondOf(a), SecondOf(b));
      LessFirst(HeadText(SecondOf(a)), HeadText(SecondOf(b)),
                TailText(FractionDigits(a)), TailText(FractionDigits(b)));
    } else {
      TailOrder(a, b);
      LessSame(HeadText(SecondOf(a)), TailText(FractionDigits(a)), TailText(FractionDigits(b)));
    }
  }

  lemma EarlierTextDiffers(a: Instant, b: Instant)
    requires a < b && InRange(a) && InRange(b)
    ensures Text(a) != Text(b)
  {
    TextOrder(a, b);
    LessIsTotal(Text(a), Text(b));
    if SecondOf(a) == SecondOf(b) {
      TailOrder(a, b);
      var h := HeadText(SecondOf(a));
      var x, y := FractionDigits(a), FractionDigits(b);
      if x <= y {
        assert |Text(a)| < |Text(b)|;
      }
    }
  }

  /** No two instants share a text. */
  lemma TextIsInjective(a: Instant, b: Instant)
    requires InRange(a) && InRange(b) && Text(a) == Text(b)
    ensures a == b
  {
    if a < b {
      EarlierTextDiffers(a, b);
    } else if b < a {
      EarlierTextDiffers(b, a);
    }
  }

  /** The release test, exactly: chronological between different seconds; inside one
      second a key is released early when the current fraction is a prefix of the
      deadline's, and late when it is the other way round. */
  lemma DueExactly(deadline: Instant, now: Instant)
    requires InRange(deadline) && InRange(now)
    ensures Due(deadline, now) <==>
            if SecondOf(deadline) != SecondOf(now) then deadline < now
            else if deadline <= now then deadline == now || !(FractionDigits(deadline) <= FractionDigits(now))
            else FractionDigits(now) <= FractionDigits(deadline)
  {
    LessIsTotal(Text(deadline), Text(now));
    if deadline < now {
      TextOrder(deadline, now);
      EarlierTextDiffers(deadline, now);
    } else if now < deadline {
      TextOrder(now, deadline);
    }
  }

  /** A key is never released a full second early, and never held a full second late. */
  lemma DueBounds(deadline: Instant, now: Instant)
    requires InRange(deadline) && InRange(now)
    ensures Due(deadline, now) ==> deadline < now + NANOS_PER_SECOND
    ensures now >= deadline + NANOS_PER_SECOND ==> Due(deadline, now)
  {
    DueExactly(deadline, now);
  }

  /** Both errors happen, around every whole second: a deadline later in that second
      is released at once, and a deadline on the whole second is held for the rest of it. */
  lemma DueIsNotChronological(whole: Instant, later: Instant)
    requires InRange(whole) && InRange(later)
    requires NanoOf(whole) == 0 && whole < later && SecondOf(later) == SecondOf(whole)
    ensures Due(later, whole) && !(later <= whole)
    ensures !Due(whole, later) && whole <= later
  {
    PadZero(9);
    DueExactly(later, whole);
    DueExactly(whole, later);
  }

  lemma {:induction false} PadZero(w: nat)
    ensures |Pad(0, w)| == w && forall i :: 0 <= i < w ==> Pad(0, w)[i] == '0'
  {
    if w > 0 {
      PadZero(w - 1);
    }
  }
}
