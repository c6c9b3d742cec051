/** Civil dates from day counts.

    The repository carries the civil-from-days arithmetic several times over, so that no
    date crate is needed. This module states the calendar the slow way -- one day at a
    time from 1970-01-01, with the leap rule and month lengths of RFC 3339, Appendix C
    and section 5.7 -- and proves that every copy agrees with it. */
module Calendar {
  import opened Text

  datatype Date = Date(y: int, m: int, d: int)

  // ---------------------------------------------------------------- the slow calendar

  predicate Leap(y: int) { y % 4 == 0 && (y % 100 != 0 || y % 400 == 0) }

  function MonthLength(y: int, m: int): int {
    if m == 2 then (if Leap(y) then 29 else 28)
    else if m == 4 || m == 6 || m == 9 || m == 11 then 30
    else 31
  }

  predicate ValidDate(t: Date) { 1 <= t.m <= 12 && 1 <= t.d <= MonthLength(t.y, t.m) }

  function NextDay(t: Date): Date {
    if t.d < MonthLength(t.y, t.m) then Date(t.y, t.m, t.d + 1)
    else if t.m < 12 then Date(t.y, t.m + 1, 1)
    else Date(t.y + 1, 1, 1)
  }

  function PreviousDay(t: Date): Date {
    if t.d > 1 then Date(t.y, t.m, t.d - 1)
    else if t.m > 1 then Date(t.y, t.m - 1, MonthLength(t.y, t.m - 1))
    else Date(t.y - 1, 12, 31)
  }

  /** The date `n` days after (before, when negative) 1970-01-01, found by walking. */
  function Walk(n: int): Date
    decreases if n < 0 then -n else n
  {
    if n == 0 then Date(1970, 1, 1)
    else if n > 0 then NextDay(Walk(n - 1))
    else PreviousDay(Walk(n + 1))
  }

  // ------------------------------------------------------- the arithmetic of the source

  /** Rust's `/` on integers: truncation toward zero. */
  function RustDiv(a: int, b: int): int
    requires b > 0
  {
    if a >= 0 then a / b else -((-a) / b)
  }

  /** The part every copy shares: from an era and a day-of-era to a date. */
  function FromEra(era: int, doe: int): Date {
    var yoe := (doe - doe / 1460 + doe / 36524 - doe / 146096) / 365;
    var y := yoe + era * 400;
    var doy := doe - (365 * yoe + yoe / 4 - yoe / 100);
    var mp := (5 * doy + 2) / 153;
    var d := doy - (153 * mp + 2) / 5 + 1;
    var m := if mp < 10 then mp + 3 else mp - 9;
    Date(if m <= 2 then y + 1 else y, m, d)
  }

  /** `civil_from_days` of the roster: all integers, an era by truncating division. */
  function CivilFromDays(days: int): Date {
    var z := days + 719468;
    var era := RustDiv(if z >= 0 then z else z - 146096, 146097);
    FromEra(era, z - era * 146097)
  }

  /** `ymd` of the export: unsigned seconds, Euclidean era. */
  function Ymd(secs: nat): Date {
    var z := secs / 86400 + 719468;
    FromEra(z / 146097, z % 146097)
  }

  /** The copy inside `cmd_spend`: signed seconds divided with truncation. */
  function SpendToday(secs: int): Date {
    var z := RustDiv(secs, 86400) + 719468;
    FromEra(z / 146097, z % 146097)
  }

  // ------------------------------------------------------------------ the inverse count

  function MarchYear(t: Date): int { if t.m <= 2 then t.y - 1 else t.y }

  /** Month counted from March, so that the leap day ends the year. */
  function MarchMonth(m: int): int { if m <= 2 then m + 9 else m - 3 }

  function DayOfMarchYear(t: Date): int { (153 * MarchMonth(t.m) + 2) / 5 + t.d - 1 }

  function DaysBeforeYear(yoe: int): int { 365 * yoe + yoe / 4 - yoe / 100 }

  /** Days from 1970-01-01 to a date. */
  function DaysOf(t: Date): int {
    var y := MarchYear(t);
    y / 400 * 146097 + DaysBeforeYear(y % 400) + DayOfMarchYear(t) - 719468
  }

  // --------------------------------------------------------------------------- proofs

  lemma DayOfYearBounds(t: Date)
    requires ValidDate(t)
    ensures 0 <= DayOfMarchYear(t) <= 365
    ensures DayOfMarchYear(t) == 365 ==> Leap(MarchYear(t) + 1)
  {
    MonthRecovered(t);
  }

  lemma MonthRecovered(t: Date)
    requires ValidDate(t)
    ensures (5 * DayOfMarchYear(t) + 2) / 153 == MarchMonth(t.m)
    ensures t.m == 2 && t.d == 29 <==> DayOfMarchYear(t) == 365
    ensures 0 <= DayOfMarchYear(t) <= 365
  {
    if t.m == 1 {} else if t.m == 2 {} else if t.m == 3 {} else if t.m == 4 {}
    else if t.m == 5 {} else if t.m == 6 {} else if t.m == 7 {} else if t.m == 8 {}
    else if t.m == 9 {} else if t.m == 10 {} else if t.m == 11 {} else {}
  }

  /** The division magic: the year of the era is recovered from the day of the era. A year
      is split as 100c + 4q + r; each quotient then counts exactly its own kind of leap
      day, off by at most the one that the final division by 365 absorbs. */
  lemma YearRecovered(c: int, q: int, r: int, doy: int, yoe: int, doe: int)
    requires 0 <= c < 4 && 0 <= q < 25 && 0 <= r < 4
    requires yoe == 100 * c + 4 * q + r
    requires 0 <= doy <= 365
    requires doy == 365 ==> r == 3 && (q == 24 ==> c == 3)
    requires doe == DaysBeforeYear(yoe) + doy
    ensures 0 <= doe < 146097
    ensures (doe - doe / 1460 + doe / 36524 - doe / 146096) / 365 == yoe
  {
    assert yoe / 4 == 25 * c + q;
    assert yoe / 100 == c;
    assert doe == 36524 * c + 1461 * q + 365 * r + doy;
    var rest := 24 * c + q + 365 * r + doy;
    assert doe == 1460 * (25 * c + q) + rest;
    var e := if rest >= 1460 then 1 else 0;
    assert doe / 1460 == 25 * c + q + e;
    var within := doe - 36524 * c;
    var last := doe == 146096;
    if within == 36524 {
      assert q == 24 && r == 3 && doy == 365;
      assert last;
    } else {
      assert 0 <= within < 36524;
      assert doe / 36524 == c;
      assert !last;
    }
    assert doe / 36524 - doe / 146096 == c;
    var a := doe - doe / 1460 + c;
    assert a == 365 * yoe + (doy - e);
    assert 0 <= doy - e < 365;
  }

  lemma YearOfDay(yoe: int, doy: int)
    requires 0 <= yoe < 400 && 0 <= doy <= 365
    requires doy == 365 ==> Leap(yoe + 1)
    ensures var doe := DaysBeforeYear(yoe) + doy;
      0 <= doe < 146097 && (doe - doe / 1460 + doe / 36524 - doe / 146096) / 365 == yoe
  {
    var c, j := yoe / 100, yoe % 100;
    var q, r := j / 4, j % 4;
    DivMod(yoe, 4, 25 * c + q, r);
    LeapInCycle(yoe);
    YearRecovered(c, q, r, doy, yoe, DaysBeforeYear(yoe) + doy);
  }

  lemma Assemble(t: Date, era: int, doe: int, yoe: int)
    requires ValidDate(t) && yoe + era * 400 == MarchYear(t)
    requires (doe - doe / 1460 + doe / 36524 - doe / 146096) / 365 == yoe
    requires doe == DaysBeforeYear(yoe) + DayOfMarchYear(t)
    ensures FromEra(era, doe) == t
  {
    MonthRecovered(t);
  }

  /** Every valid date is what the arithmetic returns for its own day count. */
  lemma FromEraInvertsDaysOf(t: Date)
    requires ValidDate(t)
    ensures var z := DaysOf(t) + 719468; FromEra(z / 146097, z % 146097) == t
  {
    var y := MarchYear(t);
    var e, yoe := y / 400, y % 400;
    var doy := DayOfMarchYear(t);
    DayOfYearBounds(t);
    LeapInEra(y);
    LeapInCycle(yoe);
    YearOfDay(yoe, doy);
    Assemble(t, e, DaysBeforeYear(yoe) + doy, yoe);
    DivMod(DaysOf(t) + 719468, 146097, e, DaysBeforeYear(yoe) + doy);
  }

  /** Quotient and remainder are determined by a decomposition. */
  lemma DivMod(a: int, b: int, q: int, r: int)
    requires b > 0 && a == b * q + r && 0 <= r < b
    ensures a / b == q && a % b == r
  {
    var x := a / b - q;
    assert b * x == r - a % b;
    assert x >= 1 ==> b * x >= b;
    assert x <= -1 ==> b * x <= -b;
  }

  lemma LeapInEra(y: int)
    ensures Leap(y + 1) <==> (y % 400) % 4 == 3 && ((y % 400) % 100 / 4 == 24 ==> y % 400 == 399)
  {
    var e, k := y / 400, y % 400;
    var n := k + 1;
    DivMod(y + 1, 4, 100 * e + n / 4, n % 4);
    DivMod(y + 1, 100, 4 * e + n / 100, n % 100);
    if k == 399 {
      DivMod(y + 1, 400, e + 1, 0);
    } else {
      DivMod(y + 1, 400, e, n);
    }
    LeapInCycle(k);
  }

  lemma LeapInCycle(k: int)
    requires 0 <= k < 400
    ensures Leap(k + 1) <==> k % 4 == 3 && (k % 100 / 4 == 24 ==> k == 399)
  {
    var c, j := k / 100, k % 100;
    var q, r := j / 4, j % 4;
    DivMod(k, 4, 25 * c + q, r);
    if r == 3 {
      DivMod(k + 1, 4, 25 * c + q + 1, 0);
      if q == 24 { DivMod(k + 1, 100, c + 1, 0); } else { DivMod(k + 1, 100, c, j + 1); }
    } else {
      DivMod(k + 1, 4, 25 * c + q, r + 1);
    }
  }

  lemma YearLength(y: int)
    ensures (y + 1) / 400 * 146097 + DaysBeforeYear((y + 1) % 400)
         == y / 400 * 146097 + DaysBeforeYear(y % 400) + (if Leap(y + 1) then 366 else 365)
  {
    var e, k := y / 400, y % 400;
    LeapInEra(y);
    if k == 399 {
      DivMod(y + 1, 400, e + 1, 0);
    } else {
      DivMod(y + 1, 400, e, k + 1);
    }
  }

  /** Tomorrow's day count is today's plus one, across month, leap-day and year ends. */
  lemma NextDayCounts(t: Date)
    requires ValidDate(t)
    ensures ValidDate(NextDay(t))
    ensures DaysOf(NextDay(t)) == DaysOf(t) + 1
    ensures PreviousDay(NextDay(t)) == t
  {
    if t.d < MonthLength(t.y, t.m) {
    } else if t.m == 2 {
      YearLength(t.y - 1);
    } else if t.m == 12 {
    } else {
      assert MarchYear(NextDay(t)) == MarchYear(t);
    }
  }

  lemma PreviousDayCounts(t: Date)
    requires ValidDate(t)
    ensures ValidDate(PreviousDay(t)) && NextDay(PreviousDay(t)) == t
    ensures DaysOf(PreviousDay(t)) == DaysOf(t) - 1
  {
    NextDayCounts(PreviousDay(t));
  }

  /** The walk visits valid dates and `DaysOf` counts its steps. */
  lemma {:induction false} WalkCounts(n: int)
    ensures ValidDate(Walk(n)) && DaysOf(Walk(n)) == n
    decreases if n < 0 then -n else n
  {
    if n > 0 {
      WalkCounts(n - 1);
      NextDayCounts(Walk(n - 1));
    } else if n < 0 {
      WalkCounts(n + 1);
      PreviousDayCounts(Walk(n + 1));
    }
  }

  /** The truncating era of the roster copy is the Euclidean one, before 1970 as after. */
  lemma TruncatingEra(z: int)
    ensures RustDiv(if z >= 0 then z else z - 146096, 146097) == z / 146097
  {
    if z < 0 {
      var e, k := z / 146097, z % 146097;
      assert z == 146097 * e + k;
      assert 146096 - z == 146097 * (-e) + (146096 - k);
      assert (146096 - z) / 146097 == -e;
    }
  }

  /** MAIN. For every day count the arithmetic returns the calendar's date. */
  lemma CivilIsWalk(days: int)
    ensures CivilFromDays(days) == Walk(days)
    ensures var z := days + 719468; FromEra(z / 146097, z % 146097) == Walk(days)
  {
    WalkCounts(days);
    FromEraInvertsDaysOf(Walk(days));
    TruncatingEra(days + 719468);
  }

  /** MAIN. `CivilFromDays` and `DaysOf` are exact inverses: between all integers and all
      valid dates. */
  lemma CivilRoundTrip(days: int, t: Date)
    ensures ValidDate(CivilFromDays(days)) && DaysOf(CivilFromDays(days)) == days
    ensures ValidDate(t) ==> CivilFromDays(DaysOf(t)) == t
  {
    CivilIsWalk(days);
    WalkCounts(days);
    if ValidDate(t) {
      WalkCounts(DaysOf(t));
      DaysOfInjective(t, Walk(DaysOf(t)));
      CivilIsWalk(DaysOf(t));
    }
  }

  lemma DaysOfInjective(t: Date, u: Date)
    requires ValidDate(t) && ValidDate(u) && DaysOf(t) == DaysOf(u)
    ensures t == u
  {
    hide FromEra, DaysOf, ValidDate;
    FromEraInvertsDaysOf(t);
    FromEraInvertsDaysOf(u);
  }

  /** MAIN. All three copies agree, with one another and with the calendar, on every clock the
      programs read: seconds since 1970, which are never negative. */
  lemma CopiesAgree(secs: nat)
    ensures CivilFromDays(RustDiv(secs, 86400)) == Ymd(secs) == SpendToday(secs) == Walk(secs / 86400)
  {
    CivilIsWalk(secs / 86400);
    YmdIsWalk(secs);
    SpendBeforeEpoch(secs);
  }

  /** A remark on the formula of `cmd_spend`, beyond any clock it is given: it would be right
      before 1970 at midnight only, since truncation rounds a day under way up to tomorrow. */
  lemma SpendBeforeEpoch(secs: int)
    ensures SpendToday(secs) == Walk(secs / 86400) <==> secs >= 0 || secs % 86400 == 0
  {
    SpendIsWalk(secs);
    TruncatingDay(secs);
    WalkInjective(secs / 86400, secs / 86400 + 1);
  }

  lemma WalkInjective(n1: int, n2: int)
    requires n1 != n2
    ensures Walk(n1) != Walk(n2)
  {
    WalkCounts(n1);
    WalkCounts(n2);
  }

  lemma YmdIsWalk(secs: nat)
    ensures Ymd(secs) == Walk(secs / 86400)
  {
    CivilIsWalk(secs / 86400);
  }

  lemma SpendIsWalk(secs: int)
    ensures SpendToday(secs) == Walk(RustDiv(secs, 86400))
  {
    hide FromEra, Walk, RustDiv;
    CivilIsWalk(RustDiv(secs, 86400));
  }

  lemma TruncatingDay(secs: int)
    ensures RustDiv(secs, 86400) == secs / 86400 + (if secs >= 0 || secs % 86400 == 0 then 0 else 1)
  {
    var q, r := secs / 86400, secs % 86400;
    if secs < 0 {
      if r == 0 { DivMod(-secs, 86400, -q, 0); } else { DivMod(-secs, 86400, -q - 1, 86400 - r); }
    }
  }

  predicate FitsI64(n: int) { -0x8000_0000_0000_0000 <= n < 0x8000_0000_0000_0000 }

  /** Every intermediate of the unsigned copy fits a signed 64-bit word, on every clock. */
  lemma YmdFitsI64(secs: nat)
    requires secs < 0x1_0000_0000_0000_0000
    ensures var days := secs / 86400; var z := days + 719468; var era, doe := z / 146097, z % 146097;
      var corrected := doe - doe / 1460 + doe / 36524 - doe / 146096; var yoe := corrected / 365;
      var before := 365 * yoe + yoe / 4 - yoe / 100; var doy := doe - before; var mp := (5 * doy + 2) / 153;
      && FitsI64(days) && FitsI64(z) && FitsI64(era) && FitsI64(era * 400) && FitsI64(yoe + era * 400 + 1)
      && 0 <= doe < 146097 && 0 <= doe - doe / 1460 && 0 <= corrected < 146097 && 0 <= yoe < 400 && 0 <= before < 146097
      && 0 <= doy <= 365 && 0 <= 5 * doy + 2 <= 1827 && 0 <= mp <= 11 && 0 <= 153 * mp + 2 <= 1685
  {
    var z := secs / 86400 + 719468;
    var t := Walk(secs / 86400);
    WalkCounts(secs / 86400);
    EraOf(t);
    DivMod(z, 146097, MarchYear(t) / 400, DaysBeforeYear(MarchYear(t) % 400) + DayOfMarchYear(t));
    MonthRecovered(t);
  }

  /** The parts that the arithmetic recovers from a valid date's day count. */
  lemma EraOf(t: Date)
    requires ValidDate(t)
    ensures var yoe, doy := MarchYear(t) % 400, DayOfMarchYear(t); var doe := DaysBeforeYear(yoe) + doy;
      0 <= doe < 146097 && 0 <= doy <= 365 && (doe - doe / 1460 + doe / 36524 - doe / 146096) / 365 == yoe
  {
    DayOfYearBounds(t);
    LeapInEra(MarchYear(t));
    LeapInCycle(MarchYear(t) % 400);
    YearOfDay(MarchYear(t) % 400, DayOfMarchYear(t));
  }

  lemma {:induction false} YearGrows(n: nat)
    ensures 1970 <= Walk(n).y <= 1970 + n
  {
    if n > 0 { YearGrows(n - 1); }
  }

  // ------------------------------------------------------------------ the printed form

  function Digit(n: int): char
    requires 0 <= n <= 9
  {
    '0' + n as char
  }

  /** Decimal digits of a non-negative number. */
  function Decimal(n: nat): string {
    if n < 10 then [Digit(n)] else Decimal(n / 10) + [Digit(n % 10)]
  }

  function Zeros(n: nat): string { if n == 0 then "" else "0" + Zeros(n - 1) }

  /** Rust's `{n:0w}` on a non-negative number. */
  function Padded(n: nat, w: nat): string {
    var s := Decimal(n);
    if |s| < w then Zeros(w - |s|) + s else s
  }

  /** `{y:04}-{m:02}-{d:02}`; the dates printed by the source are never before year 0. */
  function Print(t: Date): string
    requires ValidDate(t) && 0 <= t.y
  {
    Padded(t.y, 4) + "-" + Padded(t.m, 2) + "-" + Padded(t.d, 2)
  }

  lemma ZerosAre()
    ensures Zeros(0) == "" && Zeros(1) == "0" && Zeros(2) == "00" && Zeros(3) == "000"
  {
    assert Zeros(1) == "0" + Zeros(0);
  }

  lemma TwoDigits(n: nat)
    requires n < 100
    ensures Padded(n, 2) == [Digit(n / 10), Digit(n % 10)]
  {
    ZerosAre();
    if n >= 10 { assert Decimal(n) == Decimal(n / 10) + [Digit(n % 10)]; }
  }

  lemma FourDigits(n: nat)
    requires n < 10000
    ensures Padded(n, 4) == [Digit(n / 1000), Digit(n / 100 % 10), Digit(n / 10 % 10), Digit(n % 10)]
  {
    ZerosAre();
    var a, b, c := n / 10, n / 100, n / 1000;
    assert a / 10 == b && b / 10 == c;
    if n >= 10 {
      assert Decimal(n) == Decimal(a) + [Digit(n % 10)];
      if n >= 100 {
        assert Decimal(a) == Decimal(b) + [Digit(a % 10)];
        if n >= 1000 { assert Decimal(b) == Decimal(c) + [Digit(b % 10)]; }
      }
    }
  }

  /** Ten characters, as RFC 3339 section 5.6 wants a full-date; every position named. */
  lemma PrintedForm(t: Date)
    requires ValidDate(t) && 0 <= t.y < 10000
    ensures Print(t) == [Digit(t.y / 1000), Digit(t.y / 100 % 10), Digit(t.y / 10 % 10), Digit(t.y % 10),
                         '-', Digit(t.m / 10), Digit(t.m % 10), '-', Digit(t.d / 10), Digit(t.d % 10)]
  {
    FourDigits(t.y);
    TwoDigits(t.m);
    TwoDigits(t.d);
  }

  predicate Earlier(a: Date, b: Date) {
    a.y < b.y || (a.y == b.y && (a.m < b.m || (a.m == b.m && a.d < b.d)))
  }

  lemma NextDayIsLater(t: Date)
    requires ValidDate(t)
    ensures Earlier(t, NextDay(t))
  {}

  lemma {:induction false} WalkIsChronological(n1: int, n2: int)
    requires n1 < n2
    ensures Earlier(Walk(n1), Walk(n2))
    decreases n2 - n1
  {
    WalkCounts(n2 - 1);
    WalkCounts(n2);
    if n2 <= 0 { PreviousDayCounts(Walk(n2)); }
    NextDayIsLater(Walk(n2 - 1));
    if n1 < n2 - 1 { WalkIsChronological(n1, n2 - 1); }
  }

  lemma TwoDigitOrder(n: nat, k: nat)
    requires n < k < 100
    ensures |Padded(n, 2)| == |Padded(k, 2)| == 2 && StringBefore(Padded(n, 2), Padded(k, 2))
  {
    TwoDigits(n);
    TwoDigits(k);
    assert Padded(n, 2)[1..] == [Digit(n % 10)] && Padded(k, 2)[1..] == [Digit(k % 10)];
  }

  lemma TwoPairs(n: nat)
    requires n < 10000
    ensures Padded(n, 4) == Padded(n / 100, 2) + Padded(n % 100, 2)
    ensures |Padded(n / 100, 2)| == |Padded(n % 100, 2)| == 2
  {
    var a, b := n / 100, n % 100;
    FourDigits(n);
    TwoDigits(a);
    TwoDigits(b);
    DivMod(n, 1000, a / 10, a % 10 * 100 + b);
    DivMod(n, 10, 10 * a + b / 10, b % 10);
    DivMod(n / 10, 10, a, b / 10);
  }

  lemma FourDigitOrder(n: nat, k: nat)
    requires n < k < 10000
    ensures |Padded(n, 4)| == |Padded(k, 4)| == 4 && StringBefore(Padded(n, 4), Padded(k, 4))
  {
    TwoPairs(n);
    TwoPairs(k);
    PrefixDecides(Padded(n / 100, 2), Padded(k / 100, 2), Padded(n % 100, 2), Padded(k % 100, 2));
    if n / 100 < k / 100 { TwoDigitOrder(n / 100, k / 100); } else { TwoDigitOrder(n % 100, k % 100); }
  }

  lemma PrintParts(t: Date)
    requires ValidDate(t) && 0 <= t.y < 10000
    ensures Print(t) == (Padded(t.y, 4) + "-") + ((Padded(t.m, 2) + "-") + Padded(t.d, 2))
    ensures |Padded(t.y, 4)| == 4 && |Padded(t.m, 2)| == |Padded(t.d, 2)| == 2
  {
    FourDigits(t.y);
    TwoDigits(t.m);
    TwoDigits(t.d);
  }

  /** An earlier date of a four-digit year prints before a later one. */
  lemma PrintsInOrder(a: Date, b: Date)
    requires ValidDate(a) && ValidDate(b) && 0 <= a.y && b.y < 10000 && Earlier(a, b)
    ensures StringBefore(Print(a), Print(b))
  {
    PrintParts(a);
    PrintParts(b);
    if a.y < b.y { FourDigitOrder(a.y, b.y); }
    else if a.m < b.m { TwoDigitOrder(a.m, b.m); }
    else { TwoDigitOrder(a.d, b.d); }
    hide StringBefore, Padded, Print;
    var da, db := Padded(a.d, 2), Padded(b.d, 2);
    var ma, mb := Padded(a.m, 2) + "-", Padded(b.m, 2) + "-";
    PrefixDecides(Padded(a.y, 4), Padded(b.y, 4), "-", "-");
    PrefixDecides(Padded(a.m, 2), Padded(b.m, 2), "-", "-");
    PrefixDecides(Padded(a.y, 4) + "-", Padded(b.y, 4) + "-", ma + da, mb + db);
    PrefixDecides(ma, mb, da, db);
  }

  predicate Printable(n: nat) { ValidDate(Walk(n)) && 0 <= Walk(n).y }

  /** The printed dates of the days up to `last` sort as the days do. */
  ghost predicate SortsByDay(last: nat) {
    forall i, j | 0 <= i < j <= last :: PrintedBefore(i, j)
  }

  predicate PrintedBefore(i: nat, j: nat) {
    Printable(i) && Printable(j) && StringBefore(Print(Walk(i)), Print(Walk(j)))
  }

  lemma TwoDaysSort(i: nat, j: nat, last: nat)
    requires i < j <= last && Walk(last).y <= 9999
    ensures PrintedBefore(i, j)
  {
    hide Print, StringBefore, ValidDate;
    YearGrows(i);
    WalkCounts(i);
    WalkCounts(j);
    WalkIsChronological(i, j);
    if j < last { WalkIsChronological(j, last); }
    hide Walk;
    PrintsInOrder(Walk(i), Walk(j));
  }

  lemma FiveDigitsBreak(last: nat)
    requires Walk(last).y > 9999
    ensures !SortsByDay(last)
  {
    var k := FirstFiveDigitDay(last);
    FiveDigitsSortFirst();
    assert !PrintedBefore(k - 1, k);
    hide PrintedBefore;
    assert 0 <= k - 1 < k <= last;
  }

  /** MAIN. `cmd_spend` takes the last keys of a string-ordered map to be the last days.
      That is right exactly as long as no date reaches a five-digit year: 10000-01-01 sorts
      before 9999-12-31. */
  lemma StringOrderIsDayOrder(last: nat)
    ensures SortsByDay(last) <==> Walk(last).y <= 9999
  {
    hide Walk, PrintedBefore;
    if Walk(last).y <= 9999 {
      forall i, j | 0 <= i < j <= last ensures PrintedBefore(i, j) { TwoDaysSort(i, j, last); }
    } else {
      FiveDigitsBreak(last);
    }
  }

  lemma {:induction false} FirstFiveDigitDay(n: nat) returns (k: nat)
    requires Walk(n).y > 9999
    ensures 0 < k <= n && Walk(k - 1) == Date(9999, 12, 31) && Walk(k) == Date(10000, 1, 1)
  {
    WalkCounts(n - 1);
    if Walk(n - 1).y > 9999 { k := FirstFiveDigitDay(n - 1); } else { k := n; }
  }

  lemma FiveDigitsSortFirst()
    ensures !StringBefore(Print(Date(9999, 12, 31)), Print(Date(10000, 1, 1)))
  {
    PrintedForm(Date(9999, 12, 31));
    assert Decimal(10000) == Decimal(1000) + ['0'];
    assert Decimal(1000) == Decimal(100) + ['0'];
    assert Decimal(100) == Decimal(10) + ['0'];
    assert Decimal(10) == Decimal(1) + ['0'];
    assert Print(Date(10000, 1, 1))[0] == '1';
  }
}
