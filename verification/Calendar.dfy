/**
 The UTC calendar month as a billing period (`src/meter-period.ts`), over instants in milliseconds
 since 1970, with the proleptic Gregorian calendar of section 21.4.1 of ECMA-262 written out.
 */
module Calendar {
  import opened Basics

  const MS_PER_DAY: int := 86_400_000

  // ---- years, months and days of ECMA-262 ----

  predicate Leap(y: int) {
    y % 4 == 0 && (y % 100 != 0 || y % 400 == 0)
  }

  /** The number of the first day of year `y`, counting from 1970-01-01. */
  function DayFromYear(y: int): int {
    365 * (y - 1970) + (y - 1969) / 4 - (y - 1901) / 100 + (y - 1601) / 400
  }

  lemma FourStep(k: int)
    ensures (k + 1) / 4 - k / 4 == if (k + 1) % 4 == 0 then 1 else 0
  {
  }

  lemma HundredStep(k: int)
    ensures (k + 1) / 100 - k / 100 == if (k + 1) % 100 == 0 then 1 else 0
  {
  }

  lemma FourHundredStep(k: int)
    ensures (k + 1) / 400 - k / 400 == if (k + 1) % 400 == 0 then 1 else 0
  {
  }

  lemma Shifted(y: int)
    ensures (y - 1968) % 4 == y % 4 && (y - 1900) % 100 == y % 100 && (y - 1600) % 400 == y % 400
  {
    assert (y - 1968) / 4 == y / 4 - 492;
    assert (y - 1900) / 100 == y / 100 - 19;
    assert (y - 1600) / 400 == y / 400 - 4;
  }

  lemma LeapRulesNest(y: int)
    ensures (y % 400 == 0 ==> y % 100 == 0) && (y % 100 == 0 ==> y % 4 == 0)
  {
    assert y % 400 == 0 ==> y == 400 * (y / 400) && y / 100 == 4 * (y / 400);
    assert y % 100 == 0 ==> y == 100 * (y / 100) && y / 4 == 25 * (y / 100);
  }

  lemma YearLength(y: int)
    ensures DayFromYear(y + 1) - DayFromYear(y) == if Leap(y) then 366 else 365
  {
    FourStep(y - 1969);
    HundredStep(y - 1901);
    FourHundredStep(y - 1601);
    Shifted(y);
    LeapRulesNest(y);
  }

  lemma {:induction false} YearsAscend(a: int, b: int)
    requires a <= b
    ensures DayFromYear(a) + 365 * (b - a) <= DayFromYear(b)
    decreases b - a
  {
    if a < b {
      YearsAscend(a, b - 1);
      YearLength(b - 1);
    }
  }

  /** The year whose days include `day`, searched for from `y`. */
  function YearNear(day: int, y: int): (r: int)
    ensures DayFromYear(r) <= day < DayFromYear(r + 1)
    decreases if day < DayFromYear(y) then DayFromYear(y) - day
              else if day >= DayFromYear(y + 1) then day - DayFromYear(y) else 0
  {
    hide DayFromYear, Leap;
    YearLength(y); YearLength(y - 1);
    if day < DayFromYear(y) then YearNear(day, y - 1)
    else if day >= DayFromYear(y + 1) then YearLength(y + 1); YearNear(day, y + 1)
    else y
  }

  function YearOfDay(day: int): (r: int)
    ensures DayFromYear(r) <= day < DayFromYear(r + 1)
  {
    YearNear(day, 1970)
  }

  /** Days of a year that come before month `m`, counted from 0. */
  function MonthStart(m: int, leap: bool): int
    requires 0 <= m <= 12
  {
    [0, 31, 59, 90, 120, 151, 181, 212, 243, 273, 304, 334, 365][m] + if leap && m >= 2 then 1 else 0
  }

  function MonthOfYearDay(k: int, leap: bool): (m: int)
    requires 0 <= k < MonthStart(12, leap)
    ensures 0 <= m < 12 && MonthStart(m, leap) <= k < MonthStart(m + 1, leap)
  {
    if k < MonthStart(1, leap) then 0 else if k < MonthStart(2, leap) then 1
    else if k < MonthStart(3, leap) then 2 else if k < MonthStart(4, leap) then 3
    else if k < MonthStart(5, leap) then 4 else if k < MonthStart(6, leap) then 5
    else if k < MonthStart(7, leap) then 6 else if k < MonthStart(8, leap) then 7
    else if k < MonthStart(9, leap) then 8 else if k < MonthStart(10, leap) then 9
    else if k < MonthStart(11, leap) then 10 else 11
  }

  function DayOf(t: int): int { t / MS_PER_DAY }

  /** getUTCFullYear */
  function YearOf(t: int): int { YearOfDay(DayOf(t)) }

  function YearDay(t: int): (k: int)
    ensures 0 <= k < MonthStart(12, Leap(YearOf(t)))
  {
    hide DayFromYear, Leap, YearOfDay;
    YearLength(YearOf(t));
    DayOf(t) - DayFromYear(YearOf(t))
  }

  /** getUTCMonth, 0 for January */
  function MonthOf(t: int): (m: int)
    ensures 0 <= m < 12
  {
    MonthOfYearDay(YearDay(t), Leap(YearOf(t)))
  }

  /** getUTCDate, minus one */
  function DayOfMonth(t: int): (d: int)
    ensures 0 <= d < 31
  {
    YearDay(t) - MonthStart(MonthOf(t), Leap(YearOf(t)))
  }

  /** Months on one line: twelve to a year. */
  function MonthIndex(t: int): int { 12 * YearOf(t) + MonthOf(t) }

  /** The first instant of the month with this index. */
  function FirstOf(index: int): int {
    (DayFromYear(index / 12) + MonthStart(index % 12, Leap(index / 12))) * MS_PER_DAY
  }

  /**
   Date.UTC(y, m, 1). Years 0 to 99 are read as 1900 to 1999 (section 21.4.3.4 of ECMA-262), before the
   month is carried into the year.
   */
  function DateUtcFirst(y: int, m: int): int {
    FirstOf(12 * (if 0 <= y <= 99 then 1900 + y else y) + m)
  }

  // ---- the month line ----

  lemma NextMonth(y: int, m: int)
    requires 0 <= m < 12
    ensures FirstOf(12 * y + m) == (DayFromYear(y) + MonthStart(m, Leap(y))) * MS_PER_DAY
    ensures FirstOf(12 * y + m + 1) == (DayFromYear(y) + MonthStart(m + 1, Leap(y))) * MS_PER_DAY
  {
    hide DayFromYear, Leap;
    assert (12 * y + m) / 12 == y && (12 * y + m) % 12 == m;
    YearLength(y);
    if m < 11 {
      assert (12 * y + m + 1) / 12 == y && (12 * y + m + 1) % 12 == m + 1;
    } else {
      assert (12 * y + m + 1) / 12 == y + 1 && (12 * y + m + 1) % 12 == 0;
    }
  }

  lemma MonthBounds(t: int)
    ensures FirstOf(MonthIndex(t)) <= t < FirstOf(MonthIndex(t) + 1)
  {
    hide FirstOf, DayFromYear, Leap, MonthStart, YearOfDay;
    NextMonth(YearOf(t), MonthOf(t));
  }

  lemma MonthGap(i: int)
    ensures FirstOf(i) + 28 * MS_PER_DAY <= FirstOf(i + 1)
  {
    hide FirstOf, DayFromYear, Leap;
    assert 12 * (i / 12) + i % 12 == i;
    NextMonth(i / 12, i % 12);
  }

  lemma {:induction false} MonthsAscend(i: int, j: int)
    requires i < j
    ensures FirstOf(i) < FirstOf(j)
    decreases j - i
  {
    hide FirstOf;
    MonthGap(j - 1);
    if i < j - 1 {
      MonthsAscend(i, j - 1);
    }
  }

  /** An instant lies in exactly one month. */
  lemma MonthIndexUnique(t: int, i: int)
    ensures FirstOf(i) <= t < FirstOf(i + 1) <==> MonthIndex(t) == i
  {
    hide FirstOf, MonthIndex;
    MonthBounds(t);
    var r := MonthIndex(t);
    if r < i && FirstOf(i) <= t { if r + 1 < i { MonthsAscend(r + 1, i); } }
    if i < r && t < FirstOf(i + 1) { if i + 1 < r { MonthsAscend(i + 1, r); } }
  }

  lemma YearOfFirst(i: int)
    ensures YearOf(FirstOf(i)) == i / 12 && MonthOf(FirstOf(i)) == i % 12
  {
    hide FirstOf, YearOf;
    MonthGap(i);
    MonthIndexUnique(FirstOf(i), i);
  }

  /**
   The whole month line: January 1970 starts at 0, and each month is as long as its name says, February by the
   Gregorian rule. With `MonthIndexUnique` these fix every month there is.
   */
  lemma MonthLengths(year: int, month: int)
    requires 0 <= month < 12
    ensures FirstOf(12 * 1970) == 0
    ensures FirstOf(12 * year + month + 1) - FirstOf(12 * year + month) == 86_400_000 *
              (if month == 3 || month == 5 || month == 8 || month == 10 then 30
               else if month != 1 then 31
               else if (year % 4 == 0 && year % 100 != 0) || year % 400 == 0 then 29 else 28)
  {
    NextMonth(year, month);
    NextMonth(1970, 0);
    EpochDay();
    DaysOfMonth(month, Leap(year));
    LeapByRule(year);
    hide FirstOf, DayFromYear, Leap, MonthStart;
  }

  lemma EpochDay()
    ensures DayFromYear(1970) + MonthStart(0, Leap(1970)) == 0
  {
  }

  lemma DaysOfMonth(month: int, leap: bool)
    requires 0 <= month < 12
    ensures MonthStart(month + 1, leap) - MonthStart(month, leap)
            == if month == 3 || month == 5 || month == 8 || month == 10 then 30
               else if month != 1 then 31 else if leap then 29 else 28
  {
  }

  lemma LeapByRule(year: int)
    ensures Leap(year) <==> (year % 4 == 0 && year % 100 != 0) || year % 400 == 0
  {
    LeapRulesNest(year);
  }

  // ---- billing periods ----

  datatype BillingPeriod = BillingPeriod(key: string, windowStart: int, windowEnd: int)

  function PeriodKey(y: int, m: int): string
    requires 0 <= m < 12
  {
    PadStart(DecimalOf(y), 4) + "-" + PadStart(DecimalOf(m + 1), 2)
  }

  function BillingPeriodContaining(at: int): BillingPeriod {
    var y, m := YearOf(at), MonthOf(at);
    BillingPeriod(PeriodKey(y, m), DateUtcFirst(y, m), DateUtcFirst(y, m + 1))
  }

  function LastClosedBillingPeriod(now: int): BillingPeriod {
    BillingPeriodContaining(BillingPeriodContaining(now).windowStart - 1)
  }

  predicate BillingPeriodIsClosed(p: BillingPeriod, now: int) {
    p.windowEnd <= now
  }

  /** From year 100 on, the window is the month on the month line that holds the instant, and the key spells its year and month. */
  lemma ContainingIsMonth(at: int)
    requires YearOf(at) >= 100 || YearOf(at) < 0
    ensures var p := BillingPeriodContaining(at);
            && p.windowStart == FirstOf(MonthIndex(at)) && p.windowEnd == FirstOf(MonthIndex(at) + 1)
            && (100 <= YearOf(at) <= 9999 ==> p.key == Digits(YearOf(at), 4) + "-" + Digits(MonthOf(at) + 1, 2))
  {
    hide FirstOf, YearOf, MonthOf, PeriodKey, Digits;
    if 100 <= YearOf(at) <= 9999 { KeyDigits(YearOf(at), MonthOf(at)); }
  }

  /** Years 0 to 99 fall to the two-digit rule: there the window never holds its own instant. */
  lemma WindowContainsInstantExactly(at: int)
    ensures var p := BillingPeriodContaining(at);
            p.windowStart <= at < p.windowEnd <==> !(0 <= YearOf(at) <= 99)
  {
    hide FirstOf, YearOf, MonthOf;
    if 0 <= YearOf(at) <= 99 {
      MonthBounds(at);
      MonthsAscend(MonthIndex(at) + 1, 12 * (1900 + YearOf(at)) + MonthOf(at));
    } else {
      MonthBounds(at);
    }
  }

  /** What those years get instead: the same month of the year 1900 later, under a key that names the early year. */
  lemma TwoDigitYearWindow(at: int)
    requires 0 <= YearOf(at) <= 99
    ensures var p := BillingPeriodContaining(at);
            p.windowStart == FirstOf(MonthIndex(at) + 12 * 1900) && p.windowEnd == FirstOf(MonthIndex(at) + 12 * 1900 + 1)
            && p.key == Digits(YearOf(at), 4) + "-" + Digits(MonthOf(at) + 1, 2)
  {
    hide FirstOf, YearOf, MonthOf, PeriodKey, Digits;
    KeyDigits(YearOf(at), MonthOf(at));
  }

  /** Two instants share a window or their windows do not meet, and the next window starts at the end. */
  lemma WindowsPartition(t: int, u: int)
    requires YearOf(t) >= 100 && YearOf(u) >= 100
    ensures var p, q := BillingPeriodContaining(t), BillingPeriodContaining(u);
            && (p.windowStart <= u < p.windowEnd <==> p == q)
            && (p == q || p.windowEnd <= q.windowStart || q.windowEnd <= p.windowStart)
            && BillingPeriodContaining(p.windowEnd).windowStart == p.windowEnd
  {
    hide FirstOf, YearOf, MonthOf, PeriodKey;
    var i, j := MonthIndex(t), MonthIndex(u);
    MonthIndexUnique(u, i);
    MonthBounds(t);
    MonthBounds(u);
    if i + 1 < j { MonthsAscend(i + 1, j); }
    if j + 1 < i { MonthsAscend(j + 1, i); }
    if i < j { MonthsAscend(i, j); }
    if j < i { MonthsAscend(j, i); }
    YearOfFirst(i + 1);
    assert (i + 1) / 12 >= YearOf(t);
  }

  /**
   The last closed period ends exactly where the current one starts, so it is closed and the current one
   is not. Year 100 is short by its January, whose predecessor is in year 99.
   */
  lemma LastClosedAdjoins(now: int)
    requires YearOf(now) >= 101 || (YearOf(now) == 100 && MonthOf(now) > 0)
    ensures LastClosedBillingPeriod(now).windowEnd == BillingPeriodContaining(now).windowStart
    ensures BillingPeriodIsClosed(LastClosedBillingPeriod(now), now)
    ensures !BillingPeriodIsClosed(BillingPeriodContaining(now), now)
  {
    hide FirstOf, YearOf, MonthOf, PeriodKey;
    var i := MonthIndex(now);
    MonthBounds(now);
    MonthGap(i - 1);
    MonthIndexUnique(FirstOf(i) - 1, i - 1);
    assert YearOf(FirstOf(i) - 1) == (i - 1) / 12;
  }

  // ---- decimal text ----

  function DigitChar(d: int): char
    requires 0 <= d < 10
  {
    ('0' as int + d) as char
  }

  function Decimal(n: nat): string {
    if n < 10 then [DigitChar(n)] else Decimal(n / 10) + [DigitChar(n % 10)]
  }

  /** String(n) */
  function DecimalOf(n: int): string {
    if n < 0 then "-" + Decimal(-n) else Decimal(n)
  }

  function PadStart(s: string, width: nat): string
    decreases width - |s|
  {
    if |s| < width then PadStart("0" + s, width) else s
  }

  function Pow10(w: nat): nat {
    if w == 0 then 1 else 10 * Pow10(w - 1)
  }

  /** `n` in exactly `w` digits. */
  function Digits(n: nat, w: nat): (s: string)
    requires n < Pow10(w)
    ensures |s| == w && forall i | 0 <= i < w :: IsDigit(s[i])
  {
    if w == 0 then "" else Digits(n / 10, w - 1) + [DigitChar(n % 10)]
  }

  function DigitsValue(s: string): (n: nat)
    requires forall i | 0 <= i < |s| :: IsDigit(s[i])
    ensures n < Pow10(|s|)
  {
    if s == "" then 0
    else
      assert IsDigit(s[|s| - 1]);
      10 * DigitsValue(s[..|s| - 1]) + (s[|s| - 1] as int - '0' as int)
  }

  lemma {:induction false} DigitsRoundTrip(s: string)
    requires forall i | 0 <= i < |s| :: IsDigit(s[i])
    ensures Digits(DigitsValue(s), |s|) == s
  {
    if s != "" {
      var front, d := s[..|s| - 1], (s[|s| - 1] as int - '0' as int);
      DigitsRoundTrip(front);
      assert DigitsValue(s) / 10 == DigitsValue(front) && DigitsValue(s) % 10 == d;
      assert s == front + [s[|s| - 1]];
    }
  }

  lemma {:induction false} ValueRoundTrip(n: nat, w: nat)
    requires n < Pow10(w)
    ensures DigitsValue(Digits(n, w)) == n
  {
    if w != 0 {
      ValueRoundTrip(n / 10, w - 1);
      assert Digits(n, w)[..w - 1] == Digits(n / 10, w - 1);
    }
  }

  lemma {:induction false} PadFront(s: string, c: char, w: nat)
    requires w >= 1
    ensures PadStart(s + [c], w) == PadStart(s, w - 1) + [c]
    decreases w - |s|
  {
    if |s| + 1 < w {
      assert "0" + (s + [c]) == ("0" + s) + [c];
      PadFront("0" + s, c, w);
    }
  }

  lemma {:induction false} PadEmpty(w: nat)
    ensures PadStart("", w) == Digits0(w)
  {
    if w != 0 {
      assert "" + ['0'] == "0" && "0" + "" == "0";
      PadFront("", '0', w);
      PadEmpty(w - 1);
    }
  }

  function Digits0(w: nat): string {
    if w == 0 then "" else Digits0(w - 1) + ['0']
  }

  lemma {:induction false} ZeroDigits(w: nat)
    ensures 0 < Pow10(w) && Digits(0, w) == Digits0(w)
  {
    if w != 0 { ZeroDigits(w - 1); }
  }

  /** padStart writes the same fixed-width digits for every number that fits. */
  lemma {:induction false} PadIsDigits(n: nat, w: nat)
    requires w >= 1 && n < Pow10(w)
    ensures PadStart(Decimal(n), w) == Digits(n, w)
  {
    if n < 10 {
      assert Decimal(n) == "" + [DigitChar(n)];
      PadFront("", DigitChar(n), w);
      PadEmpty(w - 1);
      ZeroDigits(w - 1);
      assert n / 10 == 0;
    } else {
      assert w >= 2;
      PadFront(Decimal(n / 10), DigitChar(n % 10), w);
      PadIsDigits(n / 10, w - 1);
    }
  }

  lemma {:induction false} DigitsAscend(n: nat, m: nat, w: nat)
    requires n < m < Pow10(w)
    ensures LexLess(Digits(n, w), Digits(m, w))
  {
    assert w >= 1;
    if n / 10 < m / 10 {
      DigitsAscend(n / 10, m / 10, w - 1);
      LexDecidedByHead(Digits(n / 10, w - 1), Digits(m / 10, w - 1), [DigitChar(n % 10)], [DigitChar(m % 10)]);
    } else {
      assert n / 10 == m / 10;
      LexSharedPrefix(Digits(n / 10, w - 1), [DigitChar(n % 10)], [DigitChar(m % 10)]);
    }
  }

  // ---- keys ----

  predicate KeyShape(k: string) {
    |k| == 7 && k[4] == '-' && forall i | 0 <= i < 7 && i != 4 :: IsDigit(k[i])
  }

  function KeyYear(k: string): nat
    requires KeyShape(k)
  {
    DigitsValue(k[..4])
  }

  function KeyMonth(k: string): nat
    requires KeyShape(k)
  {
    DigitsValue(k[5..])
  }

  function ParseBillingPeriodKey(key: string): Option<BillingPeriod> {
    var k := JsTrim(key);
    if !KeyShape(k) then None
    else if KeyMonth(k) < 1 || KeyMonth(k) > 12 then None
    else
      var period := BillingPeriodContaining(DateUtcFirst(KeyYear(k), KeyMonth(k) - 1));
      if period.key == k then Some(period) else None
  }

  lemma KeyDigits(y: int, m: int)
    requires 0 <= y <= 9999 && 0 <= m < 12
    ensures PeriodKey(y, m) == Digits(y, 4) + "-" + Digits(m + 1, 2)
  {
    PadIsDigits(y, 4);
    PadIsDigits(m + 1, 2);
  }

  lemma TrimKeeps(k: string)
    requires k != "" && IsDigit(k[0]) && IsDigit(k[|k| - 1])
    ensures JsTrim(k) == k
  {
  }

  lemma KeyReadsBack(y: int, m: int)
    requires 0 <= y <= 9999 && 0 <= m < 12
    ensures var k := PeriodKey(y, m);
            KeyShape(k) && KeyYear(k) == y && KeyMonth(k) == m + 1 && JsTrim(k) == k
  {
    KeyDigits(y, m);
    JoinedReadsBack(y, m + 1);
  }

  lemma JoinedReadsBack(y: nat, n: nat)
    requires y < Pow10(4) && n < Pow10(2)
    ensures var k := Digits(y, 4) + "-" + Digits(n, 2);
            KeyShape(k) && KeyYear(k) == y && KeyMonth(k) == n && JsTrim(k) == k
  {
    hide Pow10, Digits, DigitsValue, JsTrim, IsDigit;
    SplitKey(Digits(y, 4), Digits(n, 2));
    ValueRoundTrip(y, 4);
    ValueRoundTrip(n, 2);
  }

  lemma SplitKey(head: string, tail: string)
    requires |head| == 4 && |tail| == 2
    requires (forall i | 0 <= i < 4 :: IsDigit(head[i])) && (forall i | 0 <= i < 2 :: IsDigit(tail[i]))
    ensures var k := head + "-" + tail;
            KeyShape(k) && k[..4] == head && k[5..] == tail && JsTrim(k) == k
  {
    hide JsTrim;
    var k := head + "-" + tail;
    assert k[0] == head[0] && k[6] == tail[1];
    TrimKeeps(k);
  }

  /** The key of any period from year 100 to 9999 parses back to that period. */
  lemma KeyRoundTrip(at: int)
    requires 100 <= YearOf(at) <= 9999
    ensures ParseBillingPeriodKey(BillingPeriodContaining(at).key) == Some(BillingPeriodContaining(at))
  {
    hide FirstOf, YearOf, MonthOf, PeriodKey, KeyShape, KeyYear, KeyMonth, JsTrim;
    var y, m := YearOf(at), MonthOf(at);
    KeyReadsBack(y, m);
    YearOfFirst(12 * y + m);
  }

  /** A key spelled out: the decimal digits of the year, a dash, and those of the month counted from 1. */
  lemma KeySpelled(at: int)
    requires 0 <= YearOf(at) <= 9999
    ensures var y, n, key := YearOf(at), MonthOf(at) + 1, BillingPeriodContaining(at).key;
            && |key| == 7 && key[4] == '-'
            && y == 1000 * (key[0] as int - 48) + 100 * (key[1] as int - 48) + 10 * (key[2] as int - 48) + (key[3] as int - 48)
            && n == 10 * (key[5] as int - 48) + (key[6] as int - 48)
            && forall i | 0 <= i < 7 && i != 4 :: 48 <= key[i] as int <= 57
  {
    hide *;
    MonthInYear(at);
    KeyReadsBack(YearOf(at), MonthOf(at));
    KeyIs(at);
    ShapeSpelled(PeriodKey(YearOf(at), MonthOf(at)));
  }

  lemma MonthInYear(at: int)
    ensures 0 <= MonthOf(at) < 12
  {
    hide YearOf;
  }

  lemma KeyIs(at: int)
    ensures BillingPeriodContaining(at).key == PeriodKey(YearOf(at), MonthOf(at))
  {
    hide YearOf, MonthOf, PeriodKey;
  }

  lemma ShapeSpelled(key: string)
    requires KeyShape(key)
    ensures |key| == 7 && key[4] == '-' && forall i | 0 <= i < 7 && i != 4 :: 48 <= key[i] as int <= 57
    ensures KeyYear(key) == 1000 * (key[0] as int - 48) + 100 * (key[1] as int - 48) + 10 * (key[2] as int - 48) + (key[3] as int - 48)
    ensures KeyMonth(key) == 10 * (key[5] as int - 48) + (key[6] as int - 48)
  {
    FourDigits(key[..4]);
    TwoDigits(key[5..]);
    hide DigitsValue;
  }

  lemma FourDigits(s: string)
    requires |s| == 4 && forall i | 0 <= i < 4 :: IsDigit(s[i])
    ensures DigitsValue(s) == 1000 * (s[0] as int - 48) + 100 * (s[1] as int - 48) + 10 * (s[2] as int - 48) + (s[3] as int - 48)
  {
    var t := s[..3];
    assert s[..3] == t && t[..2] == s[..2] && DigitsValue(s) == 10 * DigitsValue(t) + (s[3] as int - 48);
    assert DigitsValue(t) == 10 * DigitsValue(s[..2]) + (s[2] as int - 48);
    TwoDigits(s[..2]);
  }

  lemma TwoDigits(s: string)
    requires |s| == 2 && forall i | 0 <= i < 2 :: IsDigit(s[i])
    ensures DigitsValue(s) == 10 * (s[0] as int - 48) + (s[1] as int - 48)
  {
    assert s[..1][..0] == "" && DigitsValue("") == 0;
    assert DigitsValue(s[..1]) == s[0] as int - 48;
  }

  /** No two months share a key. */
  lemma KeysDistinct(t: int, u: int)
    requires 100 <= YearOf(t) <= 9999 && 100 <= YearOf(u) <= 9999
    ensures BillingPeriodContaining(t).key == BillingPeriodContaining(u).key <==> MonthIndex(t) == MonthIndex(u)
  {
    hide YearOf, MonthOf, PeriodKey, KeyShape, KeyYear, KeyMonth, JsTrim;
    KeyReadsBack(YearOf(t), MonthOf(t));
    KeyReadsBack(YearOf(u), MonthOf(u));
  }

  /**
   Which keys the route accepts: four digits, a dash and a month, from year 0100 on. The round trip
   refuses 0000 to 0099, where the month it would bill is one of the years 1900 to 1999.
   */
  lemma ParseAcceptsExactly(key: string)
    ensures var k := JsTrim(key);
            ParseBillingPeriodKey(key).Some? <==>
            KeyShape(k) && 1 <= KeyMonth(k) <= 12 && KeyYear(k) >= 100
    ensures ParseBillingPeriodKey(key).Some? ==>
              ParseBillingPeriodKey(key).value
              == BillingPeriod(JsTrim(key), FirstOf(12 * KeyYear(JsTrim(key)) + KeyMonth(JsTrim(key)) - 1),
                               FirstOf(12 * KeyYear(JsTrim(key)) + KeyMonth(JsTrim(key))))
  {
    hide FirstOf, YearOf, MonthOf, PeriodKey, JsTrim, Digits, DigitsValue;
    var k := JsTrim(key);
    if KeyShape(k) && 1 <= KeyMonth(k) <= 12 {
      var y, m := KeyYear(k) as int, KeyMonth(k) - 1;
      var read := if y <= 99 then 1900 + y else y;
      YearOfFirst(12 * read + m);
      assert (12 * read + m) / 12 == read && (12 * read + m) % 12 == m;
      KeyReadsBack(read, m);
      if y > 99 {
        DigitsRoundTrip(k[..4]);
        DigitsRoundTrip(k[5..]);
        KeyDigits(y, m);
        assert k == k[..4] + "-" + k[5..];
      }
    }
  }

  // ---- ISO text ----

  /** Date.prototype.toISOString */
  function Iso(t: int): string
    requires -999_999 <= YearOf(t) <= 999_999
  {
    IsoYear(YearOf(t)) + IsoRest(t)
  }

  function IsoYear(y: int): string
    requires -999_999 <= y <= 999_999
  {
    if 0 <= y <= 9999 then Digits(y, 4) else (if y < 0 then "-" else "+") + Digits(if y < 0 then -y else y, 6)
  }

  function TimeOfDay(t: int): (r: int)
    ensures 0 <= r < MS_PER_DAY
  {
    t % MS_PER_DAY
  }

  function IsoRest(t: int): string {
    "-" + Digits(MonthOf(t) + 1, 2) + IsoFromDay(t)
  }

  function IsoFromDay(t: int): string {
    "-" + Digits(DayOfMonth(t) + 1, 2) + IsoTime(TimeOfDay(t))
  }

  function IsoTime(r: int): string
    requires 0 <= r < MS_PER_DAY
  {
    "T" + Digits(r / 3_600_000, 2) + IsoFromMinute(r % 3_600_000)
  }

  function IsoFromMinute(r: int): string
    requires 0 <= r < 3_600_000
  {
    ":" + Digits(r / 60_000, 2) + IsoFromSecond(r % 60_000)
  }

  function IsoFromSecond(r: int): string
    requires 0 <= r < 60_000
  {
    ":" + Digits(r / 1000, 2) + IsoFromMilli(r % 1000)
  }

  function IsoFromMilli(r: int): string
    requires 0 <= r < 1000
  {
    "." + Digits(r, 3) + "Z"
  }

  /** One fixed-width field decides the order, or ties and leaves it to the rest. */
  lemma FieldOrder(sep: char, a: nat, b: nat, w: nat, x: string, y: string)
    requires a <= b < Pow10(w)
    requires a == b ==> LexLess(x, y)
    ensures LexLess([sep] + Digits(a, w) + x, [sep] + Digits(b, w) + y)
  {
    if a < b {
      DigitsAscend(a, b, w);
      LexDecidedByHead(Digits(a, w), Digits(b, w), x, y);
      assert [sep] + Digits(a, w) + x == [sep] + (Digits(a, w) + x);
      assert [sep] + Digits(b, w) + y == [sep] + (Digits(b, w) + y);
      LexSharedPrefix([sep], Digits(a, w) + x, Digits(b, w) + y);
    } else {
      LexSharedPrefix([sep] + Digits(a, w), x, y);
    }
  }

  lemma TimeTextAscends(r: int, s: int)
    requires 0 <= r < s < MS_PER_DAY
    ensures LexLess(IsoTime(r), IsoTime(s))
  {
    if r / 3_600_000 == s / 3_600_000 {
      MinuteTextAscends(r % 3_600_000, s % 3_600_000);
    }
    FieldOrder('T', r / 3_600_000, s / 3_600_000, 2, IsoFromMinute(r % 3_600_000), IsoFromMinute(s % 3_600_000));
  }

  lemma MinuteTextAscends(r: int, s: int)
    requires 0 <= r < s < 3_600_000
    ensures LexLess(IsoFromMinute(r), IsoFromMinute(s))
  {
    if r / 60_000 == s / 60_000 {
      SecondTextAscends(r % 60_000, s % 60_000);
    }
    FieldOrder(':', r / 60_000, s / 60_000, 2, IsoFromSecond(r % 60_000), IsoFromSecond(s % 60_000));
  }

  lemma SecondTextAscends(r: int, s: int)
    requires 0 <= r < s < 60_000
    ensures LexLess(IsoFromSecond(r), IsoFromSecond(s))
  {
    if r / 1000 == s / 1000 {
      DigitsAscend(r % 1000, s % 1000, 3);
      LexDecidedByHead(Digits(r % 1000, 3), Digits(s % 1000, 3), "Z", "Z");
      assert "." + Digits(r % 1000, 3) + "Z" == "." + (Digits(r % 1000, 3) + "Z");
      assert "." + Digits(s % 1000, 3) + "Z" == "." + (Digits(s % 1000, 3) + "Z");
      LexSharedPrefix(".", Digits(r % 1000, 3) + "Z", Digits(s % 1000, 3) + "Z");
    }
    FieldOrder(':', r / 1000, s / 1000, 2, IsoFromMilli(r % 1000), IsoFromMilli(s % 1000));
  }

  /** The calendar fields of a later instant are lexicographically later. */
  lemma FieldsAscend(t: int, u: int)
    requires t < u
    ensures YearOf(t) <= YearOf(u)
    ensures YearOf(t) == YearOf(u) ==> MonthOf(t) <= MonthOf(u)
    ensures YearOf(t) == YearOf(u) && MonthOf(t) == MonthOf(u) ==> DayOfMonth(t) <= DayOfMonth(u)
    ensures YearOf(t) == YearOf(u) && MonthOf(t) == MonthOf(u) && DayOfMonth(t) == DayOfMonth(u)
            ==> TimeOfDay(t) < TimeOfDay(u)
  {
    if YearOf(u) < YearOf(t) { YearsAscend(YearOf(u) + 1, YearOf(t)); }
    if YearOf(t) == YearOf(u) {
      assert YearDay(t) <= YearDay(u);
      MonthsOfYearAscend(YearDay(t), YearDay(u), Leap(YearOf(t)));
    }
  }

  lemma MonthsOfYearAscend(j: int, k: int, leap: bool)
    requires 0 <= j <= k < MonthStart(12, leap)
    ensures MonthOfYearDay(j, leap) <= MonthOfYearDay(k, leap)
  {
  }

  /** Within a year the text after the year ascends. */
  lemma RestAscends(t: int, u: int)
    requires t < u && YearOf(t) == YearOf(u)
    ensures LexLess(IsoRest(t), IsoRest(u))
  {
    hide YearOf, MonthOf, DayOfMonth, TimeOfDay, Digits, IsoTime;
    FieldsAscend(t, u);
    if MonthOf(t) == MonthOf(u) {
      if DayOfMonth(t) == DayOfMonth(u) {
        TimeTextAscends(TimeOfDay(t), TimeOfDay(u));
      }
      FieldOrder('-', DayOfMonth(t) + 1, DayOfMonth(u) + 1, 2, IsoTime(TimeOfDay(t)), IsoTime(TimeOfDay(u)));
    }
    FieldOrder('-', MonthOf(t) + 1, MonthOf(u) + 1, 2, IsoFromDay(t), IsoFromDay(u));
  }

  /** Both years are written in four digits, or both in the expanded form. */
  predicate SameForm(t: int, u: int) {
    YearOf(t) <= 9999 <==> YearOf(u) <= 9999
  }

  lemma IsoAscends(t: int, u: int)
    requires t < u && 0 <= YearOf(t) <= 999_999 && 0 <= YearOf(u) <= 999_999 && SameForm(t, u)
    ensures LexLess(Iso(t), Iso(u))
  {
    hide YearOf, Digits, IsoRest;
    FieldsAscend(t, u);
    var y, z := YearOf(t), YearOf(u);
    if y == z {
      RestAscends(t, u);
      LexSharedPrefix(IsoYear(y), IsoRest(t), IsoRest(u));
    } else if z <= 9999 {
      DigitsAscend(y, z, 4);
      LexDecidedByHead(Digits(y, 4), Digits(z, 4), IsoRest(t), IsoRest(u));
    } else {
      FieldOrder('+', y, z, 6, IsoRest(t), IsoRest(u));
      assert ['+'] == "+";
    }
  }

  /** Between years 0 and 9999, comparing the ISO strings is comparing the instants. */
  lemma IsoOrderIsTimeOrder(t: int, u: int)
    requires 0 <= YearOf(t) <= 9999 && 0 <= YearOf(u) <= 9999
    ensures LexLess(Iso(t), Iso(u)) <==> t < u
    ensures Iso(t) == Iso(u) <==> t == u
  {
    if t < u { IsoAscends(t, u); LexAsymmetric(Iso(t), Iso(u)); }
    if u < t { IsoAscends(u, t); LexAsymmetric(Iso(u), Iso(t)); }
    LexIrreflexive(Iso(t));
  }

  /** Across the end of year 9999 the order turns round, so the window of 9999-12 reads as empty. */
  lemma IsoOrderTurnsAfter9999(t: int, u: int)
    requires 0 <= YearOf(t) <= 9999 && 10000 <= YearOf(u) <= 999_999
    ensures t < u && LexLess(Iso(u), Iso(t))
  {
    hide DayFromYear;
    if DayOf(u) <= DayOf(t) { YearsAscend(YearOf(t) + 1, YearOf(u)); }
    assert Iso(u)[0] == '+' && IsDigit(Iso(t)[0]);
  }

  /**
   For any two instants of years 0 to 999999: comparing the ISO strings is comparing the instants exactly when
   both years are written in the same form, on the same side of the end of year 9999.
   */
  lemma IsoOrderExactly(t: int, u: int)
    requires 0 <= YearOf(t) <= 999_999 && 0 <= YearOf(u) <= 999_999
    ensures ((LexLess(Iso(t), Iso(u)) <==> t < u) && (LexLess(Iso(u), Iso(t)) <==> u < t)) <==> SameForm(t, u)
  {
    hide YearOf, Iso, LexLess;
    if SameForm(t, u) {
      if t < u { IsoAscends(t, u); LexAsymmetric(Iso(t), Iso(u)); }
      if u < t { IsoAscends(u, t); LexAsymmetric(Iso(u), Iso(t)); }
      LexIrreflexive(Iso(t));
    } else if YearOf(t) <= 9999 {
      IsoOrderTurnsAfter9999(t, u);
      LexAsymmetric(Iso(u), Iso(t));
    } else {
      IsoOrderTurnsAfter9999(u, t);
      LexAsymmetric(Iso(t), Iso(u));
    }
  }
}
