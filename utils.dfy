/** Helpers of the backtest: calendar dates, the backtest window, the
    first-of-month rebalancing calendar and lot rounding. */
module Utils {
  import opened Wrappers

  /** A calendar date as a (year, month, day) triple, ordered as Python
      orders `datetime.date` values. */
  datatype Date = Date(year: int, month: int, day: int)

  const MinYear: int := 1
  const MaxYear: int := 9999
  /** The trading lot: quantities are traded in multiples of 100 shares. */
  const LotSize: int := 100

  predicate IsLeap(y: int) {
    y % 4 == 0 && (y % 100 != 0 || y % 400 == 0)
  }

  function DaysInMonth(y: int, m: int): int
    requires 1 <= m <= 12
  {
    if m == 2 then (if IsLeap(y) then 29 else 28)
    else if m == 4 || m == 6 || m == 9 || m == 11 then 30
    else 31
  }

  /** The dates `datetime.date` can hold. */
  predicate ValidDate(d: Date) {
    InRange(d) && d.day <= DaysInMonth(d.year, d.month)
  }

  /** The year, month and day are in range; the calendar code never reads
      the length of a month, so this is all it needs of its dates. */
  predicate InRange(d: Date) {
    MinYear <= d.year <= MaxYear && 1 <= d.month <= 12 && 1 <= d.day
  }

  /** `a <= b` on dates: lexicographic on (year, month, day). */
  predicate LessEq(a: Date, b: Date) {
    a.year < b.year || (a.year == b.year && (a.month < b.month || (a.month == b.month && a.day <= b.day)))
  }

  predicate Less(a: Date, b: Date) {
    LessEq(a, b) && a != b
  }

  // ---------------------------------------------------------------------
  // Lot rounding (round_lot)

  /** Floors a (possibly fractional) quantity to a whole number of lots;
      negative quantities go towards minus infinity, as Python's `//` does. */
  function RoundLot(quantity: real): (lot: int)
    ensures lot % LotSize == 0
    ensures lot as real <= quantity < (lot + LotSize) as real
  {
    (quantity / LotSize as real).Floor * LotSize
  }

  /** The lot-aligned floor is the only multiple of the lot within one lot
      below the quantity. */
  lemma RoundLotUnique(quantity: real, m: int)
    requires m % LotSize == 0
    requires m as real <= quantity < (m + LotSize) as real
    ensures RoundLot(quantity) == m
  {
    var r := RoundLot(quantity);
    var a, b := r / LotSize, m / LotSize;
    assert r == a * LotSize && m == b * LotSize;
    assert a < b ==> r + LotSize <= m;
    assert b < a ==> m + LotSize <= r;
  }

  lemma RoundLotIdempotent(quantity: real)
    ensures RoundLot(RoundLot(quantity) as real) == RoundLot(quantity)
  {
    var r := RoundLot(quantity);
    RoundLotUnique(r as real, r);
  }

  /** On whole share counts the rounding is integer floor division by the
      lot, times the lot. */
  lemma RoundLotOfInt(q: int)
    ensures RoundLot(q as real) == (q / LotSize) * LotSize
  {
    var m := (q / LotSize) * LotSize;
    assert m % LotSize == 0;
    RoundLotUnique(q as real, m);
  }

  lemma RoundLotExamples()
    ensures RoundLot(250.0) == 200
    ensures RoundLot(99.0) == 0
    ensures RoundLot(-1.0) == -100
  {
    RoundLotUnique(250.0, 200);
    RoundLotUnique(99.0, 0);
    RoundLotUnique(-1.0, -100);
  }

  // ---------------------------------------------------------------------
  // The backtest window (get_date), on day ordinals

  /** The four dates of a backtest: data start, first trading date, last
      trading date, data end; each a day ordinal (days since 0001-01-01). */
  datatype Window = Window(start: int, from: int, to: int, end: int)

  function GetDate(fromDay: int, toDay: int, forwardPeriod: int, lookBack: int): (w: Window)
    ensures w.from == fromDay && w.to == toDay
    ensures w.from - w.start == lookBack && w.end - w.to == forwardPeriod
    ensures 0 <= lookBack && 0 <= forwardPeriod && fromDay <= toDay ==>
              w.start <= w.from <= w.to <= w.end
  {
    Window(fromDay - lookBack, fromDay, toDay, toDay + forwardPeriod)
  }

  // ---------------------------------------------------------------------
  // The rebalancing calendar (first_date_of_months)

  /** Months counted from year 0: the month of `d` has index MonthIndex(d). */
  function MonthIndex(d: Date): int {
    d.year * 12 + d.month - 1
  }

  /** Day 1 of the month with index k. */
  function FirstOfMonth(k: int): (d: Date)
    ensures d.day == 1 && 1 <= d.month <= 12 && MonthIndex(d) == k
  {
    Date(k / 12, k % 12 + 1, 1)
  }

  /** The step the calendar loop takes: day 1 of the following month,
      rolling December over into January of the next year. */
  function NextMonth(d: Date): Date {
    var month := d.month % 12 + 1;
    if month == 1 then Date(d.year + 1, month, 1) else Date(d.year, month, 1)
  }

  lemma NextMonthStep(k: int)
    ensures NextMonth(FirstOfMonth(k)) == FirstOfMonth(k + 1)
  {
    var d := FirstOfMonth(k);
    if d.month == 12 {
      assert k % 12 == 11;
      assert (k + 1) % 12 == 0 && (k + 1) / 12 == k / 12 + 1;
    } else {
      assert (k + 1) % 12 == k % 12 + 1 && (k + 1) / 12 == k / 12;
    }
  }

  lemma FirstOfMonthOf(d: Date)
    requires 1 <= d.month <= 12
    ensures FirstOfMonth(MonthIndex(d)) == Date(d.year, d.month, 1)
  {
    var k := MonthIndex(d);
    assert k == d.year * 12 + (d.month - 1);
    assert k / 12 == d.year && k % 12 == d.month - 1;
  }

  /** Day 1 of month k is on or before `d` exactly when k is not after the
      month of `d`. */
  lemma FirstOfMonthLessEq(k: int, d: Date)
    requires 1 <= d.month <= 12 && 1 <= d.day
    ensures LessEq(FirstOfMonth(k), d) <==> k <= MonthIndex(d)
  {
    var f := FirstOfMonth(k);
    assert k == f.year * 12 + (f.month - 1);
  }

  lemma FirstOfMonthLess(j: int, k: int)
    ensures Less(FirstOfMonth(j), FirstOfMonth(k)) <==> j < k
  {
    var a, b := FirstOfMonth(j), FirstOfMonth(k);
    assert j == a.year * 12 + (a.month - 1);
    assert k == b.year * 12 + (b.month - 1);
  }

  /** What the calendar generator emits: day 1 of every month from the
      month of `startDate` through the month of `endDate`. */
  function MonthStarts(startDate: Date, endDate: Date): (r: seq<Date>)
    ensures |r| == if MonthIndex(endDate) < MonthIndex(startDate) then 0
                   else MonthIndex(endDate) - MonthIndex(startDate) + 1
  {
    var lo, hi := MonthIndex(startDate), MonthIndex(endDate);
    if hi < lo then [] else seq(hi - lo + 1, i requires 0 <= i <= hi - lo => FirstOfMonth(lo + i))
  }

  datatype DateError = YearOutOfRange

  /** Builds the rebalancing calendar. Stepping past December 9999 fails
      as `datetime.replace` does. */
  method FirstDateOfMonths(startDate: Date, endDate: Date) returns (r: Result<seq<Date>, DateError>)
    requires InRange(startDate) && InRange(endDate)
    ensures r.Err? <==> endDate.year == MaxYear && endDate.month == 12
    ensures r.Ok? ==> r.value == MonthStarts(startDate, endDate)
  {
    var lo, hi := MonthIndex(startDate), MonthIndex(endDate);
    var firstDays: seq<Date> := [];
    var current := Date(startDate.year, startDate.month, 1);
    ghost var k := lo;
    FirstOfMonthOf(startDate);
    while LessEq(current, endDate)
      invariant k == lo + |firstDays| && current == FirstOfMonth(k)
      invariant current.year <= MaxYear
      invariant |firstDays| == 0 || k <= hi + 1
      invariant forall i :: 0 <= i < |firstDays| ==> firstDays[i] == FirstOfMonth(lo + i)
      decreases hi - k
    {
      FirstOfMonthLessEq(k, endDate);
      NextMonthStep(k);
      firstDays := firstDays + [current];
      var month := current.month % 12 + 1;
      if month == 1 {
        if current.year + 1 > MaxYear {
          return Err(YearOutOfRange);
        }
        current := Date(current.year + 1, month, 1);
      } else {
        current := Date(current.year, month, 1);
      }
      k := k + 1;
    }
    FirstOfMonthLessEq(k, endDate);
    r := Ok(firstDays);
  }

  /** Every emitted date is day 1 of its month, and the first one is day 1
      of the start date's month. */
  lemma MonthStartsAreFirstDays(startDate: Date, endDate: Date)
    requires InRange(startDate)
    ensures forall i :: 0 <= i < |MonthStarts(startDate, endDate)| ==> MonthStarts(startDate, endDate)[i].day == 1
    ensures |MonthStarts(startDate, endDate)| > 0 ==>
              MonthStarts(startDate, endDate)[0] == Date(startDate.year, startDate.month, 1)
  {
    var r, lo := MonthStarts(startDate, endDate), MonthIndex(startDate);
    forall i | 0 <= i < |r| ensures r[i] == FirstOfMonth(lo + i) { }
    FirstOfMonthOf(startDate);
  }

  /** Consecutive emitted dates are one calendar month apart. */
  lemma MonthStartsConsecutive(startDate: Date, endDate: Date, i: nat)
    requires i + 1 < |MonthStarts(startDate, endDate)|
    ensures MonthStarts(startDate, endDate)[i + 1] == NextMonth(MonthStarts(startDate, endDate)[i])
  {
    NextMonthStep(MonthIndex(startDate) + i);
  }

  /** The calendar is strictly increasing, never passes `endDate`, and
      stops at the last month that does not pass it. */
  lemma MonthStartsBounded(startDate: Date, endDate: Date)
    requires InRange(startDate) && InRange(endDate)
    ensures var r := MonthStarts(startDate, endDate);
            && (forall i :: 0 <= i < |r| ==> LessEq(r[i], endDate))
            && (forall i, j :: 0 <= i < j < |r| ==> Less(r[i], r[j]))
            && (|r| > 0 ==> Less(endDate, NextMonth(r[|r| - 1])))
  {
    var r := MonthStarts(startDate, endDate);
    var lo := MonthIndex(startDate);
    forall i | 0 <= i < |r| ensures LessEq(r[i], endDate) {
      FirstOfMonthLessEq(lo + i, endDate);
    }
    forall i, j | 0 <= i < j < |r| ensures Less(r[i], r[j]) {
      FirstOfMonthLess(lo + i, lo + j);
    }
    if |r| > 0 {
      NextMonthStep(lo + |r| - 1);
      FirstOfMonthLessEq(lo + |r|, endDate);
    }
  }

  /** The calendar is empty exactly when `endDate` falls before day 1 of
      the start month; otherwise it holds the inclusive month count. */
  lemma MonthStartsEmpty(startDate: Date, endDate: Date)
    requires InRange(startDate) && InRange(endDate)
    ensures |MonthStarts(startDate, endDate)| == 0 <==>
              Less(endDate, Date(startDate.year, startDate.month, 1))
    ensures |MonthStarts(startDate, endDate)| > 0 ==>
              |MonthStarts(startDate, endDate)| ==
                (endDate.year - startDate.year) * 12 + endDate.month - startDate.month + 1
  {
    FirstOfMonthOf(startDate);
    FirstOfMonthLessEq(MonthIndex(startDate), endDate);
  }
}
