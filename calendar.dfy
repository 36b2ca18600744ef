/**
 * Calendar dates as (year, month, day) triples. The generators build dates by
 * adding whole days to a start date and compare them through their
 * `YYYY-MM-DD` text, which orders dates exactly as the triples' lexicographic
 * order does.
 */
module Calendar {
  import opened Text

  datatype Date = Date(year: int, month: int, day: int)

  predicate IsLeapYear(y: int) {
    (y % 4 == 0 && y % 100 != 0) || y % 400 == 0
  }

  function DaysInMonth(y: int, m: int): int {
    if m == 2 then (if IsLeapYear(y) then 29 else 28)
    else if m == 4 || m == 6 || m == 9 || m == 11 then 30
    else 31
  }

  predicate ValidDate(d: Date) {
    1 <= d.month <= 12 && 1 <= d.day <= DaysInMonth(d.year, d.month)
  }

  /** Strict lexicographic order on (year, month, day). */
  predicate Before(a: Date, b: Date) {
    a.year < b.year ||
    (a.year == b.year && (a.month < b.month || (a.month == b.month && a.day < b.day)))
  }

  predicate NotAfter(a: Date, b: Date) {
    a == b || Before(a, b)
  }

  /** The calendar day after d (`setDate(getDate() + 1)`). */
  function NextDay(d: Date): (r: Date)
    requires ValidDate(d)
    ensures ValidDate(r) && Before(d, r)
  {
    if d.day < DaysInMonth(d.year, d.month) then Date(d.year, d.month, d.day + 1)
    else if d.month < 12 then Date(d.year, d.month + 1, 1)
    else Date(d.year + 1, 1, 1)
  }

  /** d moved n days forward (`setDate(getDate() + n)`). */
  function AddDays(d: Date, n: nat): (r: Date)
    requires ValidDate(d)
    ensures ValidDate(r)
  {
    if n == 0 then d else NextDay(AddDays(d, n - 1))
  }

  lemma BeforeTransitive(a: Date, b: Date, c: Date)
    requires Before(a, b) && Before(b, c)
    ensures Before(a, c)
  {
  }

  /** Adding more days gives a strictly later date. */
  lemma {:induction false} AddDaysStrictlyIncreasing(d: Date, i: nat, j: nat)
    requires ValidDate(d) && i < j
    ensures Before(AddDays(d, i), AddDays(d, j))
  {
    if j != i + 1 {
      AddDaysStrictlyIncreasing(d, i, j - 1);
      BeforeTransitive(AddDays(d, i), AddDays(d, j - 1), AddDays(d, j));
    }
  }

  lemma AddDaysMonotone(d: Date, i: nat, j: nat)
    requires ValidDate(d) && i <= j
    ensures NotAfter(AddDays(d, i), AddDays(d, j))
  {
    if i < j { AddDaysStrictlyIncreasing(d, i, j); }
  }

  /** Distinct day offsets give distinct dates. */
  lemma AddDaysInjective(d: Date, i: nat, j: nat)
    requires ValidDate(d) && AddDays(d, i) == AddDays(d, j)
    ensures i == j
  {
    if i < j { AddDaysStrictlyIncreasing(d, i, j); }
    if j < i { AddDaysStrictlyIncreasing(d, j, i); }
  }

  /** The `YYYYMMDD` digits of a date read as one number; its sort key. */
  function DateKey(d: Date): int {
    d.year * 10000 + d.month * 100 + d.day
  }

  lemma {:induction false} DateKeyOrder(a: Date, b: Date)
    requires ValidDate(a) && ValidDate(b)
    ensures Before(a, b) <==> DateKey(a) < DateKey(b)
    ensures a == b <==> DateKey(a) == DateKey(b)
  {
    var ra, rb := a.month * 100 + a.day, b.month * 100 + b.day;
    assert 101 <= ra <= 1231 && 101 <= rb <= 1231;
    if a.year < b.year {
      assert a.year * 10000 + 10000 <= b.year * 10000;
    } else if a.year > b.year {
      assert b.year * 10000 + 10000 <= a.year * 10000;
    }
  }

  /**
   * `validateDate(date, start, end)`: the `YYYY-MM-DD` part of `date` lies
   * between those of `start` and `end`, both ends included.
   */
  function ValidateDate(date: Date, start: Date, end: Date): (ok: bool)
    ensures ok <==> NotAfter(start, date) && NotAfter(date, end)
  {
    !Before(date, start) && !Before(end, date)
  }

  /** `${month}월 ${day}일`: the date as the comments print it. */
  function MonthDayToken(d: Date): string
    requires d.month >= 0 && d.day >= 0
  {
    NatToString(d.month) + "월 " + NatToString(d.day) + "일"
  }
}
