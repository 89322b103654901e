/**
 Dates as text: the stamp a set-aside file carries, and the birth date a user
 types. A text is its bytes, one character each.
 */
module Stamps {
  import opened Wrappers
  import opened CivilDate
  import opened Texts

  // ---------------------------------------------------------------- padded numbers

  function Digit(d: nat): char
    requires d < 10
  {
    '0' + d as char
  }

  /** Decimal, with zeros in front up to `width` digits. */
  function Padded(n: nat, width: nat): string
    decreases n + width
  {
    if n < 10 && width <= 1 then [Digit(n)]
    else Padded(n / 10, if width > 0 then width - 1 else 0) + [Digit(n % 10)]
  }

  /** As a signed number is padded: the sign counts towards the width. */
  function PaddedInt(n: int, width: nat): string {
    if n < 0 then "-" + Padded(-n, if width > 0 then width - 1 else 0) else Padded(n, width)
  }

  function Pow10(w: nat): nat {
    if w == 0 then 1 else 10 * Pow10(w - 1)
  }

  lemma {:induction false} PaddedLength(n: nat, width: nat)
    requires 0 < width && n < Pow10(width)
    ensures |Padded(n, width)| == width
  {
    if width > 1 {
      PaddedLength(n / 10, width - 1);
    }
  }

  lemma {:induction false} PaddedOrder(m: nat, n: nat, width: nat)
    requires 0 < width && m < n < Pow10(width)
    ensures Less(Padded(m, width), Padded(n, width))
  {
    if width > 1 {
      PaddedLength(m / 10, width - 1);
      PaddedLength(n / 10, width - 1);
      var a, b := Padded(m / 10, width - 1), Padded(n / 10, width - 1);
      if m / 10 < n / 10 {
        PaddedOrder(m / 10, n / 10, width - 1);
        LessDecidedEarly(a, b, [Digit(m % 10)], [Digit(n % 10)]);
      } else {
        LessAfterPrefix(a, [Digit(m % 10)], [Digit(n % 10)]);
      }
    }
  }

  // ---------------------------------------------------------------- stamps

  datatype Clock = Clock(hour: nat, minute: nat, second: nat)

  function ClockOf(secondOfDay: nat): Clock {
    Clock(secondOfDay / 3600, secondOfDay % 3600 / 60, secondOfDay % 60)
  }

  function DateText(date: Date): string
    requires date.month >= 0 && date.day >= 0
  {
    PaddedInt(date.year, 4) + (Padded(date.month, 2) + Padded(date.day, 2))
  }

  function ClockText(c: Clock): string {
    Padded(c.hour, 2) + (Padded(c.minute, 2) + Padded(c.second, 2))
  }

  function Rest(secondOfDay: nat): string {
    "T" + (ClockText(ClockOf(secondOfDay)) + "Z")
  }

  /** `YYYYMMDDTHHMMSSZ`. */
  function StampForSecs(secs: int): string {
    DaysRoundTrip(secs / 86_400);
    DateText(CivilFromDays(secs / 86_400)) + Rest(secs % 86_400)
  }

  /** From 0000-01-01T00:00:00 to 9999-12-31T23:59:59. */
  const FIRST_DAY: int := -719_528
  const LAST_DAY: int := 2_932_896

  predicate FourDigitYear(secs: int) {
    FIRST_DAY <= secs / 86_400 <= LAST_DAY
  }

  lemma FirstDay()
    ensures DaysFromCivil(Date(0, 1, 1)) == FIRST_DAY
  {
    assert -1 / 400 == -1;
  }

  lemma LastDay()
    ensures DaysFromCivil(Date(9999, 12, 31)) == LAST_DAY
  {
    assert 9999 / 400 == 24;
  }

  /** Those are exactly the days whose year has at most four digits. */
  lemma {:induction false} FourDigitExactly(day: int)
    ensures FIRST_DAY <= day <= LAST_DAY <==> 0 <= CivilFromDays(day).year <= 9999
  {
    var (date, first, last) := (CivilFromDays(day), Date(0, 1, 1), Date(9999, 12, 31));
    FirstDay();
    LastDay();
    DaysRoundTrip(day);
    OrderOfDates(date, first);
    OrderOfDates(last, date);
  }

  lemma SmallPowers()
    ensures Pow10(2) == 100 && Pow10(4) == 10_000
  {
    assert Pow10(1) == 10 && Pow10(3) == 1000;
  }

  lemma DateTextOrder(a: Date, b: Date)
    requires Valid(a) && Valid(b) && 0 <= a.year <= 9999 && 0 <= b.year <= 9999 && Earlier(a, b)
    ensures |DateText(a)| == |DateText(b)| == 8 && Less(DateText(a), DateText(b))
  {
    DateTextLength(a);
    DateTextLength(b);
    PaddedFollow(a.year, b.year, 4);
    PaddedFollow(a.month, b.month, 2);
    PaddedFollow(a.day, b.day, 2);
    ThreeParts(Padded(a.year, 4), Padded(a.month, 2), Padded(a.day, 2),
               Padded(b.year, 4), Padded(b.month, 2), Padded(b.day, 2));
  }

  lemma PaddedFollow(m: nat, n: nat, width: nat)
    requires 0 < width && m < Pow10(width) && n < Pow10(width)
    ensures m < n ==> Less(Padded(m, width), Padded(n, width))
  {
    if m < n {
      PaddedOrder(m, n, width);
    }
  }

  lemma {:induction false} ThreeParts(p: string, q: string, r: string, x: string, y: string, z: string)
    requires |p| == |x| && |q| == |y| && |r| == |z|
    requires Less(p, x) || (p == x && (Less(q, y) || (q == y && Less(r, z))))
    ensures Less(p + (q + r), x + (y + z))
  {
    if Less(p, x) {
      LessDecidedEarly(p, x, q + r, y + z);
    } else {
      if Less(q, y) {
        LessDecidedEarly(q, y, r, z);
      } else {
        LessAfterPrefix(q, r, z);
      }
      LessAfterPrefix(p, q + r, y + z);
    }
  }

  lemma DateTextLength(a: Date)
    requires Valid(a) && 0 <= a.year <= 9999
    ensures |DateText(a)| == 8
    ensures |Padded(a.year, 4)| == 4 && |Padded(a.month, 2)| == 2 && |Padded(a.day, 2)| == 2
    ensures a.year < Pow10(4) && a.month < Pow10(2) && a.day < Pow10(2)
  {
    SmallPowers();
    PaddedLength(a.year, 4);
    PaddedLength(a.month, 2);
    PaddedLength(a.day, 2);
  }

  lemma ClockTextOrder(s: nat, t: nat)
    requires s < t < 86_400
    ensures |ClockText(ClockOf(s))| == |ClockText(ClockOf(t))| == 6
            && Less(ClockText(ClockOf(s)), ClockText(ClockOf(t)))
  {
    var a, b := ClockOf(s), ClockOf(t);
    ClockTextLength(s);
    ClockTextLength(t);
    PaddedFollow(a.hour, b.hour, 2);
    PaddedFollow(a.minute, b.minute, 2);
    PaddedFollow(a.second, b.second, 2);
    ThreeParts(Padded(a.hour, 2), Padded(a.minute, 2), Padded(a.second, 2),
               Padded(b.hour, 2), Padded(b.minute, 2), Padded(b.second, 2));
  }

  lemma ClockTextLength(s: nat)
    requires s < 86_400
    ensures var c := ClockOf(s);
            && c.hour < 24 && c.minute < 60 && c.second < 60 && s == 3600 * c.hour + 60 * c.minute + c.second
            && |Padded(c.hour, 2)| == 2 && |Padded(c.minute, 2)| == 2 && |Padded(c.second, 2)| == 2
            && Pow10(2) == 100
  {
    var c := ClockOf(s);
    SmallPowers();
    PaddedLength(c.hour, 2);
    PaddedLength(c.minute, 2);
    PaddedLength(c.second, 2);
  }

  lemma RestOrder(s: nat, t: nat)
    requires s < t < 86_400
    ensures Less(Rest(s), Rest(t))
  {
    var x, y := ClockText(ClockOf(s)), ClockText(ClockOf(t));
    ClockTextOrder(s, t);
    LessDecidedEarly(x, y, "Z", "Z");
    LessAfterPrefix("T", x + "Z", y + "Z");
  }

  lemma LaterDateIsGreater(d: int, e: int, x: string, y: string)
    requires FIRST_DAY <= d < e <= LAST_DAY
    ensures Valid(CivilFromDays(d)) && Valid(CivilFromDays(e))
    ensures Less(DateText(CivilFromDays(d)) + x, DateText(CivilFromDays(e)) + y)
  {
    DaysRoundTrip(d);
    DaysRoundTrip(e);
    FourDigitExactly(d);
    FourDigitExactly(e);
    var a, b := CivilFromDays(d), CivilFromDays(e);
    DatesFollowDays(d, e);
    DateTextOrder(a, b);
    LessDecidedEarly(DateText(a), DateText(b), x, y);
  }

  lemma LaterStampIsGreater(s: int, t: int)
    requires s < t && FourDigitYear(s) && FourDigitYear(t)
    ensures Less(StampForSecs(s), StampForSecs(t))
  {
    var x, y := Rest(s % 86_400), Rest(t % 86_400);
    DaysRoundTrip(s / 86_400);
    DaysRoundTrip(t / 86_400);
    if s / 86_400 < t / 86_400 {
      LaterDateIsGreater(s / 86_400, t / 86_400, x, y);
    } else {
      RestOrder(s % 86_400, t % 86_400);
      LessAfterPrefix(DateText(CivilFromDays(s / 86_400)), x, y);
    }
  }

  /** In years 0 to 9999 the text order of stamps is the order of their times. */
  lemma {:induction false} StampOrderIsTimeOrder(s: int, t: int)
    requires FourDigitYear(s) && FourDigitYear(t)
    ensures Less(StampForSecs(s), StampForSecs(t)) <==> s < t
  {
    LessIsStrict(StampForSecs(s), StampForSecs(t));
    if s < t {
      LaterStampIsGreater(s, t);
    } else if t < s {
      LaterStampIsGreater(t, s);
    }
  }

  // ---------------------------------------------------------------- reading a stamp

  function Number(s: string): nat
    requires AllDigits(s)
  {
    if s == [] then 0 else 10 * Number(s[..|s| - 1]) + (s[|s| - 1] - '0') as nat
  }

  lemma {:induction false} NumberOfPadded(n: nat, width: nat)
    requires 0 < width && n < Pow10(width)
    ensures AllDigits(Padded(n, width)) && Number(Padded(n, width)) == n
  {
    if width > 1 {
      NumberOfPadded(n / 10, width - 1);
      assert Padded(n, width)[..|Padded(n, width)| - 1] == Padded(n / 10, width - 1);
    } else {
      assert Padded(n, width)[..0] == [];
    }
  }

  /** `YYYYMMDDTHHMMSSZ`, of a real date and time of day. */
  predicate IsStamp(v: string) {
    && |v| == 16 && v[8] == 'T' && v[15] == 'Z'
    && AllDigits(v[0..4]) && AllDigits(v[4..6]) && AllDigits(v[6..8])
    && AllDigits(v[9..11]) && AllDigits(v[11..13]) && AllDigits(v[13..15])
    && Valid(Date(Number(v[0..4]), Number(v[4..6]), Number(v[6..8])))
    && Number(v[9..11]) < 24 && Number(v[11..13]) < 60 && Number(v[13..15]) < 60
  }

  function TimeOfStamp(v: string): int
    requires IsStamp(v)
  {
    DaysFromCivil(Date(Number(v[0..4]), Number(v[4..6]), Number(v[6..8]))) * 86_400
    + Number(v[9..11]) * 3600 + Number(v[11..13]) * 60 + Number(v[13..15])
  }

  lemma DateReadsBack(date: Date, rest: string)
    requires Valid(date) && 0 <= date.year <= 9999
    ensures var v := DateText(date) + rest;
            && |DateText(date)| == 8 && v[8..] == rest
            && AllDigits(v[0..4]) && AllDigits(v[4..6]) && AllDigits(v[6..8])
            && Number(v[0..4]) == date.year && Number(v[4..6]) == date.month && Number(v[6..8]) == date.day
  {
    var v := DateText(date) + rest;
    DateTextLength(date);
    NumberOfPadded(date.year, 4);
    NumberOfPadded(date.month, 2);
    NumberOfPadded(date.day, 2);
    assert v[0..4] == Padded(date.year, 4) && v[4..6] == Padded(date.month, 2) && v[6..8] == Padded(date.day, 2);
  }

  lemma RestReadsBack(s: nat)
    requires s < 86_400
    ensures var (r, c) := (Rest(s), ClockOf(s));
            && |r| == 8 && r[0] == 'T' && r[7] == 'Z'
            && AllDigits(r[1..3]) && AllDigits(r[3..5]) && AllDigits(r[5..7])
            && Number(r[1..3]) == c.hour && Number(r[3..5]) == c.minute && Number(r[5..7]) == c.second
  {
    var (r, c) := (Rest(s), ClockOf(s));
    ClockTextLength(s);
    NumberOfPadded(c.hour, 2);
    NumberOfPadded(c.minute, 2);
    NumberOfPadded(c.second, 2);
    assert r[1..3] == Padded(c.hour, 2) && r[3..5] == Padded(c.minute, 2) && r[5..7] == Padded(c.second, 2);
  }

  lemma SlicesAfter(date: string, rest: string)
    requires |date| == |rest| == 8
    ensures var v := date + rest;
            v[9..11] == rest[1..3] && v[11..13] == rest[3..5] && v[13..15] == rest[5..7]
  {
  }

  /** In years 0 to 9999 a stamp reads back as the time it was made from. */
  lemma {:induction false} StampReadsBack(secs: int)
    requires FourDigitYear(secs)
    ensures IsStamp(StampForSecs(secs)) && TimeOfStamp(StampForSecs(secs)) == secs
  {
    var (day, s) := (secs / 86_400, secs % 86_400);
    var (date, v) := (CivilFromDays(day), StampForSecs(secs));
    DaysRoundTrip(day);
    FourDigitExactly(day);
    DateReadsBack(date, Rest(s));
    RestReadsBack(s);
    ClockTextLength(s);
    SlicesAfter(DateText(date), Rest(s));
  }

  // ---------------------------------------------------------------- typed dates

  lemma {:induction false} PaddedOfNumber(s: string)
    requires s != [] && AllDigits(s)
    ensures Number(s) < Pow10(|s|) && Padded(Number(s), |s|) == s
  {
    var front := s[..|s| - 1];
    assert s == front + [s[|s| - 1]];
    if front == [] {
      assert Pow10(0) == 1;
    } else {
      PaddedOfNumber(front);
    }
  }

  const MIN_BIRTH_YEAR: int := 1850

  /** `YYYY-MM-DD` as a real calendar date from year 1. */
  function ParseYmd(value: string): Option<Date> {
    if |value| != 10 || value[4] != '-' || value[7] != '-' then None
    else if !AllDigits(value[0..4]) || !AllDigits(value[5..7]) || !AllDigits(value[8..10]) then None
    else
      var date := Date(Number(value[0..4]), Number(value[5..7]), Number(value[8..10]));
      if date.year < 1 || !(1 <= date.month <= 12) || date.day < 1 || date.day > DaysInMonth(date.year, date.month)
      then None else Some(date)
  }

  function YmdText(date: Date): string
    requires date.year >= 0 && date.month >= 0 && date.day >= 0
  {
    Padded(date.year, 4) + "-" + Padded(date.month, 2) + "-" + Padded(date.day, 2)
  }

  lemma YmdTextParts(date: Date)
    requires Valid(date) && 0 <= date.year <= 9999
    ensures var v := YmdText(date);
            && |v| == 10 && v[4] == '-' && v[7] == '-'
            && v[0..4] == Padded(date.year, 4) && v[5..7] == Padded(date.month, 2) && v[8..10] == Padded(date.day, 2)
  {
    DateTextLength(date);
    DashedParts(Padded(date.year, 4), Padded(date.month, 2), Padded(date.day, 2));
  }

  lemma DashedParts(y: string, m: string, d: string)
    requires |y| == 4 && |m| == 2 && |d| == 2
    ensures var v := y + "-" + m + "-" + d;
            |v| == 10 && v[4] == '-' && v[7] == '-' && v[0..4] == y && v[5..7] == m && v[8..10] == d
  {
    var v := y + "-" + m + "-" + d;
    assert v[4] == '-' && v[7] == '-';
    assert v[0..4] == y;
    assert v[5..7] == m;
    assert v[8..10] == d;
  }

  /** A text is accepted exactly when it is the padded text of a valid date of
      years 1 to 9999, and then that date is the answer. */
  lemma {:induction false} ParseYmdExactly(value: string, date: Date)
    ensures ParseYmd(value) == Some(date) <==> Valid(date) && 1 <= date.year <= 9999 && value == YmdText(date)
  {
    if ParseYmd(value) == Some(date) {
      SmallPowers();
      PaddedOfNumber(value[0..4]);
      PaddedOfNumber(value[5..7]);
      PaddedOfNumber(value[8..10]);
      assert value == value[0..4] + "-" + value[5..7] + "-" + value[8..10];
    }
    if Valid(date) && 1 <= date.year <= 9999 && value == YmdText(date) {
      YmdTextParts(date);
      DateTextLength(date);
      NumberOfPadded(date.year, 4);
      NumberOfPadded(date.month, 2);
      NumberOfPadded(date.day, 2);
    }
  }

  predicate BirthDateOk(value: string, nowMs: int) {
    match ParseYmd(value)
    case None => false
    case Some(date) => date.year >= MIN_BIRTH_YEAR && DaysFromCivil(date) <= nowMs / 86_400_000
  }

  /** A birth date is accepted exactly when it is the text of a real date not
      before 1850-01-01 and not after today. */
  lemma {:induction false} BirthDateExactly(value: string, nowMs: int)
    ensures BirthDateOk(value, nowMs) <==>
            exists date: Date :: Valid(date) && 1 <= date.year <= 9999 && value == YmdText(date)
                           && !Earlier(date, Date(1850, 1, 1)) && !Earlier(CivilFromDays(nowMs / 86_400_000), date)
  {
    var today := CivilFromDays(nowMs / 86_400_000);
    DaysRoundTrip(nowMs / 86_400_000);
    if BirthDateOk(value, nowMs) {
      var date := ParseYmd(value).value;
      ParseYmdExactly(value, date);
      OrderOfDates(today, date);
      assert !Earlier(date, Date(1850, 1, 1)) && !Earlier(today, date);
    }
    if date: Date :| Valid(date) && 1 <= date.year <= 9999 && value == YmdText(date)
                     && !Earlier(date, Date(1850, 1, 1)) && !Earlier(today, date)
    {
      ParseYmdExactly(value, date);
      OrderOfDates(today, date);
    }
  }
}
