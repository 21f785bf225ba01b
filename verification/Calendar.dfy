/** UTC calendar months: the start of the month and the next reset of the cost budget. */
module Calendar {

  predicate IsLeap(year: int) {
    year % 4 == 0 && (year % 100 != 0 || year % 400 == 0)
  }

  function DaysIn(year: int, month: int): (days: int)
    ensures 28 <= days <= 31
  {
    if month == 2 then (if IsLeap(year) then 29 else 28)
    else if month == 4 || month == 6 || month == 9 || month == 11 then 30
    else 31
  }

  const NANOS_PER_DAY: int := 86_400_000_000_000
  const NANOS_PER_HOUR: int := 3_600_000_000_000

  /** A UTC time from year 1 on; nanos counts from midnight. */
  datatype Time = Time(year: int, month: int, day: int, nanos: int) {
    predicate Valid() {
      1 <= year && 1 <= month <= 12 && 1 <= day <= DaysIn(year, month) && 0 <= nanos < NANOS_PER_DAY
    }

    /** Months since January of year 1. */
    function MonthIndex(): (n: nat)
      requires Valid()
    {
      12 * (year - 1) + month - 1
    }

    /** Nanoseconds since the start of year 1. */
    function Instant(): int
      requires Valid()
    {
      (DaysBefore(MonthIndex()) + day - 1) * NANOS_PER_DAY + nanos
    }

    predicate IsMonthStart() {
      day == 1 && nanos == 0
    }
  }

  function DaysInIndex(n: nat): (days: int)
    ensures 28 <= days <= 31
  {
    DaysIn(n / 12 + 1, n % 12 + 1)
  }

  function DaysBefore(n: nat): nat {
    if n == 0 then 0 else DaysBefore(n - 1) + DaysInIndex(n - 1)
  }

  function MonthStart(now: Time): (t: Time)
    requires now.Valid()
    ensures t.Valid() && t.IsMonthStart()
  {
    Time(now.year, now.month, 1, 0)
  }

  /** time.Date with month + 1, which carries over into the next year. */
  function FirstOfNextMonth(now: Time): (t: Time)
    requires now.Valid()
    ensures t.Valid() && t.IsMonthStart()
  {
    if now.month == 12 then Time(now.year + 1, 1, 1, 0) else Time(now.year, now.month + 1, 1, 0)
  }

  function HoursSinceMonthStart(now: Time): real
    requires now.Valid()
  {
    (now.Instant() - MonthStart(now).Instant()) as real / NANOS_PER_HOUR as real
  }

  lemma {:induction false} DaysBeforeMonotone(m: nat, n: nat)
    requires m <= n
    ensures DaysBefore(m) + 28 * (n - m) <= DaysBefore(n)
    decreases n
  {
    if m < n {
      DaysBeforeMonotone(m, n - 1);
    }
  }

  lemma IndexSplits(t: Time)
    requires t.Valid()
    ensures t.MonthIndex() / 12 + 1 == t.year && t.MonthIndex() % 12 + 1 == t.month
    ensures DaysInIndex(t.MonthIndex()) == DaysIn(t.year, t.month)
  {
  }

  lemma NextMonthIndex(now: Time)
    requires now.Valid()
    ensures FirstOfNextMonth(now).MonthIndex() == now.MonthIndex() + 1
    ensures MonthStart(now).MonthIndex() == now.MonthIndex()
  {
  }

  lemma MonthStartInstant(t: Time)
    requires t.Valid() && t.IsMonthStart()
    ensures t.Instant() == DaysBefore(t.MonthIndex()) * NANOS_PER_DAY
  {
  }

  /** A time lies between the starts of its month and of the next one. */
  lemma WithinMonth(now: Time)
    requires now.Valid()
    ensures MonthStart(now).Instant() <= now.Instant() < FirstOfNextMonth(now).Instant()
  {
    IndexSplits(now);
    NextMonthIndex(now);
    MonthStartInstant(MonthStart(now));
    MonthStartInstant(FirstOfNextMonth(now));
    hide DaysIn, Time.MonthIndex;
    assert DaysBefore(now.MonthIndex() + 1) == DaysBefore(now.MonthIndex()) + DaysIn(now.year, now.month);
  }

  /** The month start is not after, the next reset is after the time, and no other month starts between them. */
  lemma MonthSurrounds(now: Time, other: Time)
    requires now.Valid() && other.Valid() && other.IsMonthStart()
    ensures MonthStart(now).Instant() <= now.Instant() < FirstOfNextMonth(now).Instant()
    ensures other.Instant() <= MonthStart(now).Instant() || FirstOfNextMonth(now).Instant() <= other.Instant()
  {
    hide DaysBefore, DaysIn, Time.MonthIndex, Time.Instant, MonthStart, FirstOfNextMonth, Time.Valid;
    WithinMonth(now);
    NextMonthIndex(now);
    MonthStartInstant(MonthStart(now));
    MonthStartInstant(FirstOfNextMonth(now));
    MonthStartInstant(other);
    MonthsDoNotOverlap(now.MonthIndex(), other.MonthIndex());
  }

  lemma MonthsDoNotOverlap(n: nat, m: nat)
    ensures DaysBefore(m) * NANOS_PER_DAY <= DaysBefore(n) * NANOS_PER_DAY
         || DaysBefore(n + 1) * NANOS_PER_DAY <= DaysBefore(m) * NANOS_PER_DAY
  {
    if m <= n {
      DaysBeforeMonotone(m, n);
    } else {
      DaysBeforeMonotone(n + 1, m);
    }
    hide DaysBefore;
  }

  lemma SinceMonthStart(now: Time)
    requires now.Valid()
    ensures now.Instant() - MonthStart(now).Instant() == (now.day - 1) * NANOS_PER_DAY + now.nanos
  {
    hide DaysBefore;
  }

  lemma DividedHours(nanos: int, hours: int)
    requires 0 <= nanos < hours * NANOS_PER_HOUR
    ensures var h := nanos as real / NANOS_PER_HOUR as real;
            h * 3_600_000_000_000.0 == nanos as real && 0.0 <= h < hours as real
  {
  }

  /**
   Hours are counted from zero up to the length of the month: 24 for each day
   before and the part of the present one.
   */
  lemma HoursInMonth(now: Time)
    requires now.Valid()
    ensures HoursSinceMonthStart(now) * 3_600_000_000_000.0 ==
            ((now.day - 1) * 86_400_000_000_000 + now.nanos) as real
    ensures 0.0 <= HoursSinceMonthStart(now) < 24.0 * DaysIn(now.year, now.month) as real
  {
    var nanos := (now.day - 1) * NANOS_PER_DAY + now.nanos;
    SinceMonthStart(now);
    hide Time.Instant, MonthStart, Time.MonthIndex;
    assert 0 <= nanos < DaysIn(now.year, now.month) * 24 * NANOS_PER_HOUR;
    DividedHours(nanos, DaysIn(now.year, now.month) * 24);
  }

  // ---- the Gregorian calendar ----

  /** The days before each month of a common year. */
  const DAYS_BEFORE_MONTH: seq<int> := [0, 31, 59, 90, 120, 151, 181, 212, 243, 273, 304, 334]

  /** Every fourth year has a day more, but of the hundredth ones only the four-hundredth. */
  lemma {:induction false} DaysOfYears(years: nat)
    ensures DaysBefore(12 * years) == 365 * years + years / 4 - years / 100 + years / 400
  {
    if years > 0 {
      DaysOfYears(years - 1);
      WholeYear(years - 1);
      LeapYears(years);
      hide DaysBefore;
    }
  }

  lemma LeapYears(year: nat)
    requires year > 0
    ensures (year - 1) / 4 - (year - 1) / 100 + (year - 1) / 400 +
            (if year % 4 == 0 && (year % 100 != 0 || year % 400 == 0) then 1 else 0)
            == year / 4 - year / 100 + year / 400
  {
    CountMultiples(year, 4);
    CountMultiples(year, 100);
    CountMultiples(year, 400);
  }

  lemma CountMultiples(n: nat, k: nat)
    requires n > 0 && k > 0
    ensures n / k == (n - 1) / k + if n % k == 0 then 1 else 0
  {
    var q, r := n / k, n % k;
    assert n == k * q + r;
    if r == 0 {
      assert n - 1 == k * (q - 1) + (k - 1);
      QuotientIs(n - 1, k, q - 1, k - 1);
    } else {
      QuotientIs(n - 1, k, q, r - 1);
    }
  }

  lemma QuotientIs(n: nat, k: nat, q: int, r: nat)
    requires k > 0 && n == k * q + r && r < k
    ensures n / k == q
  {
    Multiple(k, n / k - q);
    assert k * (n / k - q) == r - n % k;
  }

  lemma Multiple(k: int, m: int)
    requires k > 0
    ensures (m >= 1 ==> k * m >= k) && (m <= -1 ==> k * m <= -k)
  {
  }

  lemma WholeYear(years: nat)
    ensures DaysBefore(12 * (years + 1)) == DaysBefore(12 * years) + 365 +
            if (years + 1) % 4 == 0 && ((years + 1) % 100 != 0 || (years + 1) % 400 == 0) then 1 else 0
  {
    DaysOfMonths(years, 11);
    var n := 12 * years + 11;
    MonthOf(years, 11);
    assert DaysBefore(n + 1) == DaysBefore(n) + DaysInIndex(n);
    hide DaysBefore;
  }

  lemma MonthOf(years: nat, months: nat)
    requires months < 12
    ensures (12 * years + months) / 12 == years && (12 * years + months) % 12 == months
  {
  }

  lemma {:induction false} DaysOfMonths(years: nat, months: nat)
    requires months < 12
    ensures DaysBefore(12 * years + months) ==
            DaysBefore(12 * years) + DAYS_BEFORE_MONTH[months] +
            if months >= 2 && (years + 1) % 4 == 0 && ((years + 1) % 100 != 0 || (years + 1) % 400 == 0) then 1 else 0
  {
    if months == 0 {
      assert DAYS_BEFORE_MONTH[0] == 0;
    } else {
      hide DaysBefore, DaysInIndex, DAYS_BEFORE_MONTH;
      DaysOfMonths(years, months - 1);
      MonthLength(years, months);
      NextMonth(12 * years + months - 1);
    }
  }

  lemma NextMonth(n: nat)
    ensures DaysBefore(n + 1) == DaysBefore(n) + DaysInIndex(n)
  {
  }

  lemma MonthLength(years: nat, months: nat)
    requires 0 < months < 12
    ensures DaysInIndex(12 * years + months - 1) == DAYS_BEFORE_MONTH[months] - DAYS_BEFORE_MONTH[months - 1] +
            if months == 2 && (years + 1) % 4 == 0 && ((years + 1) % 100 != 0 || (years + 1) % 400 == 0) then 1 else 0
  {
    MonthOf(years, months - 1);
  }

  /** An instant in closed form: days of the past years, of the past months and of the present one. */
  lemma InstantIs(t: Time)
    requires t.Valid()
    ensures var y := t.year - 1;
            var leapDay :=
              if t.month > 2 && t.year % 4 == 0 && (t.year % 100 != 0 || t.year % 400 == 0) then 1 else 0;
            var days := 365 * y + y / 4 - y / 100 + y / 400 + DAYS_BEFORE_MONTH[t.month - 1] + leapDay + t.day - 1;
            t.Instant() == days * 86_400_000_000_000 + t.nanos
  {
    DaysOfYears(t.year - 1);
    DaysOfMonths(t.year - 1, t.month - 1);
    hide DaysBefore, DaysIn, DAYS_BEFORE_MONTH;
  }
}
