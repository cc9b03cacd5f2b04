/** The stored text of an instant, field by field: it reads back as the instant. */
module TextForm {
  import opened TextClock

  predicate Digits(s: string) {
    forall i :: 0 <= i < |s| ==> '0' <= s[i] <= '9'
  }

  predicate Zeros(s: string) {
    forall i :: 0 <= i < |s| ==> s[i] == '0'
  }

  datatype Fields = Fields(year: string, month: string, day: string, hour: string, minute: string, second: string,
                           fraction: string, zeros: string)
  {
    /** Four digits, five times two, and at most nine that do not end in a zero. */
    predicate Proper() {
      && Digits(year) && Digits(month) && Digits(day) && Digits(hour) && Digits(minute) && Digits(second)
      && |year| == 4 && |month| == |day| == |hour| == |minute| == |second| == 2
      && Digits(fraction) && (fraction != "" ==> fraction[|fraction| - 1] != '0')
      && Zeros(zeros) && |fraction + zeros| == 9
    }

    /** The text with these fields. */
    function Written(): string {
      year + "-" + month + "-" + day + "T" + hour + ":" + minute + ":" + second
      + (if fraction == "" then "" else "." + fraction) + "Z"
    }

    function Day(): Date
      requires Proper()
    {
      Date(Value(year), Value(month), Value(day))
    }

    predicate Real()
      requires Proper()
    {
      Day().Valid() && Value(hour) < 24 && Value(minute) < 60 && Value(second) < 60
    }

    /** The instant they mean. */
    function Read(): nat
      requires Proper() && Real()
    {
      (86_400 * Day().DayNumber() + 3600 * Value(hour) + 60 * Value(minute) + Value(second)) * 1_000_000_000
      + Value(fraction + zeros)
    }
  }

  lemma {:induction false} ZerosTrimmed(s: string)
    ensures var r := TrimZeros(s);
            && |r| <= |s| && r + s[|r|..] == s && Zeros(s[|r|..])
            && (r != "" ==> r[|r| - 1] != '0')
    decreases |s|
  {
    if !Zeros(s) {
      var r := TrimZeros(s);
      ZerosTrimmed(s[1..]);
      assert r[1..] == TrimZeros(s[1..]);
      assert s[|r|..] == s[1..][|r| - 1..];
      if |r| == 1 {
        assert Zeros(s[1..]);
      }
    }
  }

  lemma TwoDigits(n: nat) returns (s: string)
    requires n < 100
    ensures s == Pad(n, 2) && |s| == 2 && Digits(s) && Value(s) == n
  {
    s := Pad(n, 2);
    assert Pow10(2) == 100;
    PadWidth(n, 2);
  }

  lemma YearDigits(n: nat) returns (s: string)
    requires n <= 9999
    ensures s == Pad(n, 4) && |s| == 4 && Digits(s) && Value(s) == n
  {
    s := Pad(n, 4);
    assert Pow10(4) == 10000;
    PadWidth(n, 4);
  }

  lemma DateFields(d: Date)
    requires d.Valid() && d.year <= 9999
    ensures d.month < 100 && d.day < 100
  {
  }

  lemma ClockFields(s: nat) returns (hour: string, minute: string, second: string)
    requires s < SECONDS_PER_DAY
    ensures TimeText(s) == "T" + (hour + (":" + (minute + (":" + second))))
    ensures Digits(hour) && Digits(minute) && Digits(second)
    ensures |hour| == |minute| == |second| == 2
    ensures Value(hour) < 24 && Value(minute) < 60 && Value(second) < 60
    ensures 3600 * Value(hour) + 60 * Value(minute) + Value(second) == s
  {
    hour := TwoDigits(s / 3600);
    minute := TwoDigits(s / 60 % 60);
    second := TwoDigits(s % 60);
    ClockParts(s);
  }

  lemma FractionFields(digits: string) returns (fraction: string, zeros: string)
    requires Digits(digits)
    ensures fraction == TrimZeros(digits) && fraction + zeros == digits
    ensures Digits(fraction) && (fraction != "" ==> fraction[|fraction| - 1] != '0') && Zeros(zeros)
  {
    ZerosTrimmed(digits);
    fraction := TrimZeros(digits);
    zeros := digits[|fraction|..];
    forall i | 0 <= i < |fraction| ensures '0' <= fraction[i] <= '9' {
      assert fraction[i] == digits[i];
    }
  }

  lemma DateTextOf(d: Date, year: string, month: string, day: string)
    requires year == Pad(d.year, 4) && month == Pad(d.month, 2) && day == Pad(d.day, 2)
    ensures DateText(d) == year + ("-" + (month + ("-" + day)))
  {
  }

  lemma DayFields(d: Date) returns (year: string, month: string, day: string)
    requires d.Valid() && d.year <= 9999
    ensures DateText(d) == year + ("-" + (month + ("-" + day)))
    ensures Digits(year) && Digits(month) && Digits(day)
    ensures |year| == 4 && |month| == |day| == 2
    ensures Date(Value(year), Value(month), Value(day)) == d
  {
    DateFields(d);
    year := YearDigits(d.year);
    month := TwoDigits(d.month);
    day := TwoDigits(d.day);
    DateTextOf(d, year, month, day);
  }

  lemma WrittenFields(f: Fields)
    ensures f.Written() == f.year + ("-" + (f.month + ("-" + f.day)))
                           + ("T" + (f.hour + (":" + (f.minute + (":" + f.second)))))
                           + TailText(f.fraction)
  {
    var fraction := if f.fraction == "" then "" else "." + f.fraction;
    var head := f.year + "-" + f.month + "-" + f.day + "T" + f.hour + ":" + f.minute + ":" + f.second;
    assert head + fraction + "Z" == head + (fraction + "Z");
    assert f.year + ("-" + (f.month + ("-" + f.day))) == f.year + "-" + f.month + "-" + f.day;
  }

  lemma ReadFields(d: Date, s: nat, digits: string, f: Fields)
    requires d.Valid() && f.Proper() && Date(Value(f.year), Value(f.month), Value(f.day)) == d
    requires Value(f.hour) < 24 && Value(f.minute) < 60 && Value(f.second) < 60
    requires 3600 * Value(f.hour) + 60 * Value(f.minute) + Value(f.second) == s
    requires Digits(digits) && f.fraction + f.zeros == digits
    ensures f.Real() && f.Read() == (86_400 * d.DayNumber() + s) * 1_000_000_000 + Value(digits)
  {
    assert f.Day() == d;
  }

  lemma FieldsOf(d: Date, s: nat, digits: string) returns (f: Fields)
    requires d.Valid() && d.year <= 9999 && s < SECONDS_PER_DAY && Digits(digits) && |digits| == 9
    ensures f.Proper() && f.Real()
    ensures f.Written() == DateText(d) + TimeText(s) + TailText(TrimZeros(digits))
    ensures f.Read() == (86_400 * d.DayNumber() + s) * 1_000_000_000 + Value(digits)
  {
    var year, month, day := DayFields(d);
    var h, m, c := ClockFields(s);
    var fraction, zeros := FractionFields(digits);
    f := Fields(year, month, day, h, m, c, fraction, zeros);
    assert f.Proper();
    ReadFields(d, s, digits, f);
    WrittenFields(f);
  }

  lemma NanoDigits(t: Instant) returns (digits: string)
    ensures FractionDigits(t) == TrimZeros(digits)
    ensures Digits(digits) && |digits| == 9 && Value(digits) == NanoOf(t)
  {
    digits := Pad(NanoOf(t), 9);
    NanoWidth(t);
    PadWidth(NanoOf(t), 9);
  }

  /** The text between years 0 and 9999 is written in these fields, and they read back as
      the instant. */
  lemma TextReads(t: Instant) returns (f: Fields)
    requires InRange(t)
    ensures f.Proper() && f.Real() && Text(t) == f.Written() && f.Read() == t
  {
    var second := SecondOf(t);
    InRangeIsFourDigits(t);
    var d := DateOf(DayOf(second));
    var digits := NanoDigits(t);
    f := FieldsOf(d, second % SECONDS_PER_DAY, digits);
  }
}
