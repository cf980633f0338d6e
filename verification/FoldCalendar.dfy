/**
 Month and fold arithmetic, the fold label and the window it denotes, and event counts over month windows. Fold size
 and step are parameters; the running system uses 18 and 12.
 */
module FoldCalendar {
  import opened Wrappers

  const LAST := 9999 * 12 + 11
  const BASE := 2016 * 12

  /** A month with a four-digit year, by its index: twelve times the year plus the month number less one. */
  type Month = i: nat | i <= LAST

  function Year(m: Month): nat { m / 12 }

  function Number(m: Month): nat { m % 12 + 1 }

  function MonthOf(year: nat, number: nat): Month
    requires year <= 9999 && 1 <= number <= 12
  {
    year * 12 + number - 1
  }

  /** Year and number determine the month and the month determines them. */
  lemma MonthParts(m: Month, year: nat, number: nat)
    ensures Year(m) <= 9999 && 1 <= Number(m) <= 12 && MonthOf(Year(m), Number(m)) == m
    ensures year <= 9999 && 1 <= number <= 12
        ==> Year(MonthOf(year, number)) == year && Number(MonthOf(year, number)) == number
  {
    if year <= 9999 && 1 <= number <= 12 {
      assert (year * 12 + (number - 1)) / 12 == year;
    }
  }

  /** None when the year would leave the four digits that month keys have. */
  function AddMonths(m: Month, offset: int): Option<Month> {
    if 0 <= m + offset <= LAST then Some(m + offset) else None
  }

  function MonthsInSpan(start: Month, end: Month): seq<Month> {
    if end < start then [] else seq(end - start + 1, i requires 0 <= i <= end - start => start + i)
  }

  /** A span lists exactly its months, each once, in increasing order. */
  lemma SpanListsItsMonths(start: Month, end: Month)
    ensures forall i, j :: 0 <= i < j < |MonthsInSpan(start, end)|
              ==> MonthsInSpan(start, end)[i] < MonthsInSpan(start, end)[j]
    ensures forall m :: m in MonthsInSpan(start, end) <==> start <= m <= end
  {
    var span := MonthsInSpan(start, end);
    forall m ensures m in span <==> start <= m <= end {
      if start <= m <= end {
        assert span[m - start] == m;
      }
    }
  }

  /** December rolls over into the next year's January; December 9999 leaves the four-digit years. */
  function NextMonth(m: Month): Option<Month> {
    if Number(m) < 12 then
      MonthParts(m, Year(m), Number(m) + 1);
      Some(MonthOf(Year(m), Number(m) + 1))
    else if Year(m) < 9999 then Some(MonthOf(Year(m) + 1, 1))
    else None
  }

  /** The next month is the successor, and only the last one has none. */
  lemma NextIsSuccessor(m: Month)
    ensures NextMonth(m) == if m < LAST then Some(m + 1) else None
  {
    hide Year, Number;
    MonthParts(m, 0, 1);
    assert m == Year(m) * 12 + Number(m) - 1;
  }

  // ----- folds -----

  datatype Shape = Shape(size: int, step: int)

  const RUNNING := Shape(18, 12)

  predicate ValidShape(s: Shape) { 1 <= s.step <= s.size }

  /** The public period of a task, as its text parses. */
  datatype Period =
    | Label(year: nat, number: int)
    | Span(start: Month, end: Month)
    | Single(month: Month)
    | Other(text: string)

  function LabelStart(year: nat, number: int, s: Shape): Option<Month> {
    var month := (number - 1) * s.step + 1;
    if 1 <= month <= 12 && year <= 9999 then Some(MonthOf(year, month)) else None
  }

  function FoldStart(p: Period, s: Shape): Option<Month> {
    match p
    case Label(year, number) => LabelStart(year, number, s)
    case Span(start, _) => Some(start)
    case _ => None
  }

  /**
   Only a window of the right length, inside one year and starting on a multiple of the size, gets the short label.
   */
  function PeriodLabel(start: Month, end: Month, s: Shape): Period
    requires ValidShape(s)
  {
    if Year(start) == Year(end) && end - start + 1 == s.size && (Number(start) - 1) % s.size == 0
    then Label(Year(start), (Number(start) - 1) / s.size + 1)
    else Span(start, end)
  }

  /** The start of the fold a month belongs to: the last multiple of the step counted from January 2016. */
  function FoldStartOf(m: Month, s: Shape): int
    requires ValidShape(s)
  {
    m - (m - BASE) % s.step
  }

  /** The fold of the month stays inside the four-digit years. */
  predicate InRange(m: Month, s: Shape)
    requires ValidShape(s)
  {
    0 <= FoldStartOf(m, s) && FoldStartOf(m, s) + s.size - 1 <= LAST
  }

  function FoldEndOf(m: Month, s: Shape): int
    requires ValidShape(s)
  {
    FoldStartOf(m, s) + s.size - 1
  }

  function LabelForMonth(m: Month, s: Shape): Period
    requires ValidShape(s) && InRange(m, s)
  {
    PeriodLabel(FoldStartOf(m, s), FoldEndOf(m, s), s)
  }

  function Window(p: Period, s: Shape): Option<(Month, Month)> {
    var start := FoldStart(p, s);
    if start.None? then None
    else
      var end := AddMonths(start.value, s.size - 1);
      if end.None? then None else Some((start.value, end.value))
  }

  /**
   A month lies in its fold, less than one step after the fold's start, and folds start a whole number of steps
   apart.
   */
  lemma MonthLiesInItsFold(m: Month, s: Shape)
    requires ValidShape(s)
    ensures FoldStartOf(m, s) <= m < FoldStartOf(m, s) + s.step && m <= FoldEndOf(m, s)
    ensures FoldStartOf(m, s) == BASE + ((m - BASE) / s.step) * s.step
  {
  }

  /** The short label was chosen for a window that is not the first of its year. */
  predicate LaterLabel(p: Period) { p.Label? && p.number > 1 }

  lemma {:induction false} LabelScale(k: nat, s: Shape)
    requires ValidShape(s)
    ensures 0 <= k * s.step <= k * s.size
    ensures k > 0 && s.size != s.step ==> k * s.step < k * s.size
  {
    if k > 0 {
      LabelScale(k - 1, s);
      Peel(k, s.step);
      Peel(k, s.size);
    }
  }

  lemma Peel(k: nat, n: int)
    ensures k * n == (k - 1) * n + n
  {
  }

  /** Reading back the short label of a window: the same start exactly when it is the first or size equals step. */
  lemma ShortLabelReads(start: Month, s: Shape)
    requires ValidShape(s) && (Number(start) - 1) % s.size == 0
    ensures LabelStart(Year(start), (Number(start) - 1) / s.size + 1, s) == Some(start)
       <==> (Number(start) - 1) / s.size == 0 || s.size == s.step
  {
    var k := (Number(start) - 1) / s.size;
    assert k * s.size == Number(start) - 1;
    LabelScale(k, s);
    MonthParts(start, Year(start), k * s.step + 1);
  }

  lemma WindowLabelReads(start: Month, end: Month, s: Shape)
    requires ValidShape(s) && end - start + 1 == s.size
    ensures var p := PeriodLabel(start, end, s);
            Window(p, s) == Some((start, end)) <==> !(LaterLabel(p) && s.size != s.step)
  {
    if PeriodLabel(start, end, s).Label? {
      ShortLabelReads(start, s);
    }
  }

  /**
   The fold that starts here lies in one year, starts on a later multiple of the size, and the step differs from the
   size.
   */
  predicate Misleads(start: Month, s: Shape)
    requires ValidShape(s) && start + s.size - 1 <= LAST
  {
    && Year(start) == Year(start + s.size - 1)
    && Number(start) > 1 && (Number(start) - 1) % s.size == 0
    && s.size != s.step
  }

  lemma LaterLabelIff(start: Month, s: Shape)
    requires ValidShape(s) && start + s.size - 1 <= LAST
    ensures Misleads(start, s) <==> LaterLabel(PeriodLabel(start, start + s.size - 1, s)) && s.size != s.step
  {
    var k := Number(start) - 1;
    if k % s.size == 0 {
      PositiveQuotient(k, s.size);
    }
  }

  lemma PositiveQuotient(k: nat, size: int)
    requires size > 0 && k % size == 0
    ensures k > 0 <==> k / size > 0
  {
    assert k == size * (k / size);
  }

  /**
   Reading a month's label back gives the month's own fold window, unless the fold lies in one year, starts on a
   later multiple of the size, and size and step differ: labels number windows by the size but are read back by the
   step.
   */
  lemma LabelRoundTripIff(m: Month, s: Shape)
    requires ValidShape(s) && InRange(m, s)
    ensures Window(LabelForMonth(m, s), s) == Some((FoldStartOf(m, s), FoldEndOf(m, s)))
       <==> !Misleads(FoldStartOf(m, s), s)
  {
    hide Window, PeriodLabel, LaterLabel, Misleads;
    WindowLabelReads(FoldStartOf(m, s), FoldEndOf(m, s), s);
    LaterLabelIff(FoldStartOf(m, s), s);
  }

  /** The running shape never chooses a short label: every month's label reads back to its eighteen-month window. */
  lemma RunningLabelsRoundTrip(m: Month)
    requires InRange(m, RUNNING)
    ensures Window(LabelForMonth(m, RUNNING), RUNNING) == Some((FoldStartOf(m, RUNNING), FoldStartOf(m, RUNNING) + 17))
    ensures Number(FoldStartOf(m, RUNNING)) == 1 && Year(FoldStartOf(m, RUNNING)) == Year(m)
  {
    MonthLiesInItsFold(m, RUNNING);
    assert FoldStartOf(m, RUNNING) == Year(m) * 12;
    assert Year(FoldEndOf(m, RUNNING)) == Year(m) + 1;
  }

  /** With size 6 and step 3, July's window 2016-07..2016-12 is labelled 2016-fold2 and read back as April's. */
  lemma LabelMisreads()
    ensures var s, july := Shape(6, 3), MonthOf(2016, 7);
            && LabelForMonth(july, s) == Label(2016, 2)
            && Window(Label(2016, 2), s) == Some((MonthOf(2016, 4), MonthOf(2016, 9)))
  {
    var s := Shape(6, 3);
    assert FoldStartOf(MonthOf(2016, 7), s) == MonthOf(2016, 7);
    assert LabelStart(2016, 2, s) == Some(MonthOf(2016, 4));
  }

  function ChildPartitions(p: Period, s: Shape): seq<Month> {
    var window := Window(p, s);
    if window.Some? then MonthsInSpan(window.value.0, window.value.1)
    else if p.Single? then [p.month] else []
  }

  /** A fold with a window has exactly `size` child partitions: the months of the window. */
  lemma FoldHasSizeChildren(p: Period, s: Shape)
    requires ValidShape(s) && Window(p, s).Some?
    ensures |ChildPartitions(p, s)| == s.size
    ensures forall m :: m in ChildPartitions(p, s) <==> Window(p, s).value.0 <= m <= Window(p, s).value.1
  {
    SpanListsItsMonths(Window(p, s).value.0, Window(p, s).value.1);
  }

  // ----- event counts over month windows -----

  predicate Leap(year: int) { year % 4 == 0 && (year % 100 != 0 || year % 400 == 0) }

  function Length(year: nat, number: nat): nat {
    if number == 2 then (if Leap(year) then 29 else 28)
    else if number == 4 || number == 6 || number == 9 || number == 11 then 30 else 31
  }

  function DaysIn(m: Month): nat { Length(Year(m), Number(m)) }

  function DaysBefore(m: Month): nat {
    if m == 0 then 0 else DaysBefore(m - 1) + DaysIn(m - 1)
  }

  /** Leap years before the given one, by the Gregorian rule. */
  function LeapsBefore(year: nat): int { (year + 3) / 4 - (year + 99) / 100 + (year + 399) / 400 }

  lemma Every4(y: nat)
    ensures (y + 4) / 4 == (y + 3) / 4 + if y % 4 == 0 then 1 else 0
  {
  }

  lemma Every100(y: nat)
    ensures (y + 100) / 100 == (y + 99) / 100 + if y % 100 == 0 then 1 else 0
  {
  }

  lemma Every400(y: nat)
    ensures (y + 400) / 400 == (y + 399) / 400 + if y % 400 == 0 then 1 else 0
  {
  }

  lemma CenturiesDivide(y: nat)
    ensures y % 400 == 0 ==> y % 100 == 0
    ensures y % 100 == 0 ==> y % 4 == 0
  {
    assert y % 400 == 0 ==> y == 100 * (4 * (y / 400));
    assert y % 100 == 0 ==> y == 4 * (25 * (y / 100));
  }

  lemma LeapsStep(year: nat)
    ensures LeapsBefore(year + 1) == LeapsBefore(year) + if Leap(year) then 1 else 0
  {
    Every4(year);
    Every100(year);
    Every400(year);
    CenturiesDivide(year);
  }

  lemma DayStep(m: Month)
    requires m < LAST
    ensures DaysBefore(m + 1) == DaysBefore(m) + DaysIn(m)
  {
    hide DaysIn;
  }

  lemma MonthStep(year: nat, number: nat)
    requires year < 9999 && 1 <= number <= 12
    ensures DaysBefore(MonthOf(year, number) + 1) == DaysBefore(MonthOf(year, number)) + Length(year, number)
  {
    hide DaysBefore, Length, Year, Number;
    MonthParts(0, year, number);
    DayStep(MonthOf(year, number));
  }

  lemma HalfYear(year: nat, number: nat)
    requires year < 9999 && 1 <= number <= 7
    ensures DaysBefore(MonthOf(year, number) + 6) == DaysBefore(MonthOf(year, number))
         + Length(year, number) + Length(year, number + 1) + Length(year, number + 2)
         + Length(year, number + 3) + Length(year, number + 4) + Length(year, number + 5)
  {
    hide DaysBefore, Length;
    MonthStep(year, number);
    MonthStep(year, number + 1);
    MonthStep(year, number + 2);
    MonthStep(year, number + 3);
    MonthStep(year, number + 4);
    MonthStep(year, number + 5);
  }

  lemma YearLength(year: nat)
    requires year < 9999
    ensures DaysBefore(MonthOf(year + 1, 1)) == DaysBefore(MonthOf(year, 1)) + if Leap(year) then 366 else 365
  {
    hide DaysBefore, Leap;
    HalfYear(year, 1);
    HalfYear(year, 7);
    assert MonthOf(year, 7) == MonthOf(year, 1) + 6 && MonthOf(year + 1, 1) == MonthOf(year, 7) + 6;
  }

  lemma NoDaysBefore()
    ensures DaysBefore(MonthOf(0, 1)) == 0 == LeapsBefore(0)
  {
  }

  /** The running day count agrees with the closed Gregorian form: 365 days a year and one for each leap year. */
  lemma {:induction false} DaysAreGregorian(year: nat)
    requires year <= 9999
    ensures DaysBefore(MonthOf(year, 1)) == 365 * year + LeapsBefore(year)
  {
    hide DaysBefore, LeapsBefore, Leap;
    if year == 0 {
      NoDaysBefore();
    } else {
      DaysAreGregorian(year - 1);
      YearLength(year - 1);
      LeapsStep(year - 1);
    }
  }

  /** Midnight on the first of the month, five hours behind UTC, in seconds since 1970. */
  function MonthBound(m: Month): int { (DaysBefore(m) - EPOCH_DAYS) * 86400 + 5 * 3600 }

  const EPOCH_DAYS := 719528

  /** The first bound of 1970 is five hours into the epoch. */
  lemma EpochBound()
    ensures MonthBound(MonthOf(1970, 1)) == 5 * 3600
  {
    hide DaysBefore;
    DaysAreGregorian(1970);
  }

  /** From one bound to the next are 30 days, 31, or the 28 or 29 of February, by the month's number and its year. */
  lemma BoundsApart(year: nat, number: nat)
    requires year <= 9999 && 1 <= number <= 12 && MonthOf(year, number) < LAST
    ensures var days := (MonthBound(MonthOf(year, number) + 1) - MonthBound(MonthOf(year, number))) / 86400;
            && (MonthBound(MonthOf(year, number) + 1) - MonthBound(MonthOf(year, number))) % 86400 == 0
            && (number in {1, 3, 5, 7, 8, 10, 12} ==> days == 31)
            && (number in {4, 6, 9, 11} ==> days == 30)
            && (number == 2 ==> (days == 29 <==> (year % 4 == 0 && year % 100 != 0) || year % 400 == 0))
            && (number == 2 ==> days == 28 || days == 29)
  {
    hide DaysBefore, Year, Number;
    MonthParts(0, year, number);
    DayStep(MonthOf(year, number));
    CenturiesDivide(year);
    var m := MonthOf(year, number);
    assert MonthBound(m + 1) - MonthBound(m) == DaysIn(m) * 86400;
  }

  lemma {:induction false} BoundsRise(i: Month, j: Month)
    requires i <= j
    ensures MonthBound(i) <= MonthBound(j)
    decreases j
  {
    if i < j {
      BoundsRise(i, j - 1);
    }
  }

  /** Rows whose event time falls in [low, high); rows without a readable time never count. */
  function WindowCount(times: seq<Option<int>>, low: int, high: int): nat {
    if times == [] then 0
    else
      var t := times[|times| - 1];
      WindowCount(times[..|times| - 1], low, high) + if t.Some? && low <= t.value < high then 1 else 0
  }

  /** A row counts from the lower bound on and up to, but not at, the upper one; an undated row never does. */
  lemma {:induction false} WindowAddsUp(a: seq<Option<int>>, b: seq<Option<int>>, low: int, high: int)
    ensures WindowCount(a + b, low, high) == WindowCount(a, low, high) + WindowCount(b, low, high)
    ensures |a| == 1 && a[0].None? ==> WindowCount(a, low, high) == 0
    ensures |a| == 1 && a[0] == Some(low) && low < high ==> WindowCount(a, low, high) == 1
    ensures |a| == 1 && a[0] == Some(high) ==> WindowCount(a, low, high) == 0
    ensures |a| == 1 && a[0].Some? ==> (WindowCount(a, low, high) == 1 <==> low <= a[0].value && a[0].value < high)
  {
    if b == [] {
      assert a + b == a;
    } else {
      WindowAddsUp(a, b[..|b| - 1], low, high);
      assert (a + b)[..|a + b| - 1] == a + b[..|b| - 1];
    }
  }

  function RangeCount(times: seq<Option<int>>, first: Month, last: Month): nat
    requires first <= last < LAST
  {
    WindowCount(times, MonthBound(first), MonthBound(last + 1))
  }

  function SumOfMonths(times: seq<Option<int>>, first: Month, last: Month): nat
    requires first <= last < LAST
    decreases last
  {
    if first == last then RangeCount(times, last, last)
    else SumOfMonths(times, first, last - 1) + RangeCount(times, last, last)
  }

  lemma {:induction false} WindowsAdd(times: seq<Option<int>>, low: int, mid: int, high: int)
    requires low <= mid <= high
    ensures WindowCount(times, low, high) == WindowCount(times, low, mid) + WindowCount(times, mid, high)
  {
    if times != [] {
      WindowsAdd(times[..|times| - 1], low, mid, high);
    }
  }

  /** Counting over a range of months is counting month by month: adjacent bounds coincide. */
  lemma {:induction false} RangeIsSumOfMonths(times: seq<Option<int>>, first: Month, last: Month)
    requires first <= last < LAST
    ensures RangeCount(times, first, last) == SumOfMonths(times, first, last)
    decreases last
  {
    if first < last {
      RangeIsSumOfMonths(times, first, last - 1);
      BoundsRise(first, last);
      BoundsRise(last, last + 1);
      WindowsAdd(times, MonthBound(first), MonthBound(last), MonthBound(last + 1));
    }
  }

  method CountWindow(times: seq<Option<int>>, low: int, high: int) returns (count: nat)
    ensures count == WindowCount(times, low, high)
  {
    count := 0;
    for i := 0 to |times|
      invariant count == WindowCount(times[..i], low, high)
    {
      assert times[..i + 1][..i] == times[..i];
      if times[i].Some? && low <= times[i].value < high {
        count := count + 1;
      }
    }
    assert times[..|times|] == times;
  }
}
