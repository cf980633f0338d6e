/** The texts of months and periods: how they print, what they parse to, and how they compare. */
module MonthKeys {
  import opened Text
  import opened Wrappers
  import opened FoldCalendar

  // ----- digits -----

  function Digits2(n: nat): string
    requires n < 100
  {
    [Digit(n / 10), Digit(n % 10)]
  }

  /** Python's f"{n:04d}" below ten thousand. */
  function Digits4(n: nat): string
    requires n < 10000
  {
    Digits2(n / 100) + Digits2(n % 100)
  }

  function Value2(s: string): nat
    requires |s| == 2 && AllDigits(s)
  {
    assert s[0] in s && s[1] in s;
    DigitValue(s[0]) * 10 + DigitValue(s[1])
  }

  function Value4(s: string): nat
    requires |s| == 4 && AllDigits(s)
  {
    Value2(s[..2]) * 100 + Value2(s[2..])
  }

  lemma DigitsFront(s: string)
    requires |s| == 4 && AllDigits(s)
    ensures AllDigits(s[..2]) && AllDigits(s[2..])
  {
  }

  lemma Digits2ReadBack(n: nat)
    requires n < 100
    ensures AllDigits(Digits2(n)) && Value2(Digits2(n)) == n
  {
  }

  lemma Value2ReadsBack(s: string)
    requires |s| == 2 && AllDigits(s)
    ensures Value2(s) < 100 && Digits2(Value2(s)) == s
  {
    assert s[0] in s && s[1] in s;
  }

  lemma Digits4ReadBack(n: nat)
    requires n < 10000
    ensures AllDigits(Digits4(n)) && Value4(Digits4(n)) == n
  {
    Digits2ReadBack(n / 100);
    Digits2ReadBack(n % 100);
    assert Digits4(n)[..2] == Digits2(n / 100) && Digits4(n)[2..] == Digits2(n % 100);
  }

  lemma Value4ReadsBack(s: string)
    requires |s| == 4 && AllDigits(s)
    ensures Value4(s) < 10000 && Digits4(Value4(s)) == s
  {
    hide Value2, Digits2;
    DigitsFront(s);
    Value2ReadsBack(s[..2]);
    Value2ReadsBack(s[2..]);
    assert s == s[..2] + s[2..];
  }

  lemma Digits2Order(a: nat, b: nat)
    requires a < 100 && b < 100
    ensures LexLeq(Digits2(a), Digits2(b)) <==> a <= b
  {
    var s, t := Digits2(a), Digits2(b);
    LexOne(s[1], t[1]);
    assert s[1..] == [s[1]] && t[1..] == [t[1]];
  }

  lemma LexOne(c: char, d: char)
    ensures LexLeq([c], [d]) <==> c <= d
  {
    assert [c][1..] == [] && [d][1..] == [];
  }

  lemma Digits2Differ(a: nat, b: nat)
    requires a < 100 && b < 100 && Digits2(a) == Digits2(b)
    ensures a == b
  {
    Digits2ReadBack(a);
    Digits2ReadBack(b);
  }

  lemma Digits4Order(a: nat, b: nat)
    requires a < 10000 && b < 10000
    ensures LexLeq(Digits4(a), Digits4(b)) <==> a <= b
  {
    LexPrefix(Digits2(a / 100), Digits2(a % 100), Digits2(b / 100), Digits2(b % 100));
    Digits2Order(a / 100, b / 100);
    Digits2Order(a % 100, b % 100);
    if Digits2(a / 100) == Digits2(b / 100) {
      Digits2Differ(a / 100, b / 100);
    }
  }

  // ----- month keys -----

  function KeyText(m: Month): string { Digits4(Year(m)) + "-" + Digits2(Number(m)) }

  predicate IsMonthKey(s: string) {
    |s| == 7 && s[4] == '-' && AllDigits(s[..4]) && AllDigits(s[5..]) && 1 <= Value2(s[5..]) <= 12
  }

  function MonthNamed(s: string): Option<Month> {
    if IsMonthKey(s) then Value4ReadsBack(s[..4]); Some(MonthOf(Value4(s[..4]), Value2(s[5..]))) else None
  }

  lemma KeyPieces(m: Month)
    ensures var s := KeyText(m);
            |s| == 7 && s[4] == '-' && s[..4] == Digits4(Year(m)) && s[5..] == Digits2(Number(m))
    ensures |Digits4(Year(m))| == 4 && |Digits2(Number(m))| == 2
  {
  }

  /** Month keys and months determine each other. */
  lemma KeyReadsBack(m: Month)
    ensures MonthNamed(KeyText(m)) == Some(m)
  {
    KeyPieces(m);
    Digits4ReadBack(Year(m));
    Digits2ReadBack(Number(m));
    MonthParts(m, Year(m), Number(m));
  }

  lemma KeyOfParts(year: nat, number: nat)
    requires year <= 9999 && 1 <= number <= 12
    ensures KeyText(MonthOf(year, number)) == Digits4(year) + "-" + Digits2(number)
  {
    MonthParts(0, year, number);
  }

  lemma TextReadsBack(s: string)
    requires IsMonthKey(s)
    ensures MonthNamed(s).Some? && KeyText(MonthNamed(s).value) == s
  {
    hide Value2, Value4, Digits2, Digits4, AllDigits, MonthOf, KeyText;
    Value4ReadsBack(s[..4]);
    Value2ReadsBack(s[5..]);
    KeyOfParts(Value4(s[..4]), Value2(s[5..]));
    assert s == s[..4] + "-" + s[5..];
  }

  lemma MonthOrder(a: Month, b: Month)
    ensures a <= b <==> Year(a) < Year(b) || (Year(a) == Year(b) && Number(a) <= Number(b))
  {
  }

  lemma DashedOrder(y: string, m: string, z: string, n: string)
    requires |y| == |z|
    ensures LexLeq(y + "-" + m, z + "-" + n) <==> if y == z then LexLeq(m, n) else LexLeq(y, z)
  {
    assert y + "-" + m == y + ("-" + m) && z + "-" + n == z + ("-" + n);
    LexPrefix(y, "-" + m, z, "-" + n);
    LexPrefix("-", m, "-", n);
  }

  lemma KeyOrderByParts(y: nat, m: nat, z: nat, n: nat)
    requires y < 10000 && z < 10000 && m < 100 && n < 100
    ensures LexLeq(Digits4(y) + "-" + Digits2(m), Digits4(z) + "-" + Digits2(n)) <==> y < z || (y == z && m <= n)
  {
    hide LexLeq, Value4;
    DashedOrder(Digits4(y), Digits2(m), Digits4(z), Digits2(n));
    Digits4Order(y, z);
    Digits2Order(m, n);
    Digits4ReadBack(y);
    Digits4ReadBack(z);
  }

  /** Comparing month keys as texts compares the months. */
  lemma KeysOrderLikeMonths(a: Month, b: Month)
    ensures LexLeq(KeyText(a), KeyText(b)) <==> a <= b
  {
    hide LexLeq, Digits2, Digits4, Year, Number;
    MonthParts(a, 0, 1);
    MonthParts(b, 0, 1);
    KeyOrderByParts(Year(a), Number(a), Year(b), Number(b));
    MonthOrder(a, b);
  }

  /** Adding months to a key; None for a text that is no key, or a result outside the four-digit years. */
  function AddToKey(s: string, offset: int): Option<string> {
    var m := MonthNamed(s);
    if m.None? then None
    else
      var sum := AddMonths(m.value, offset);
      if sum.None? then None else Some(KeyText(sum.value))
  }

  /** Month addition on keys is an action of the integers: zero does nothing and offsets add up. */
  lemma AdditionActs(s: string, a: int, b: int)
    requires IsMonthKey(s)
    ensures AddToKey(s, 0) == Some(s)
    ensures AddToKey(s, a).Some?
        ==> IsMonthKey(AddToKey(s, a).value) && AddToKey(AddToKey(s, a).value, b) == AddToKey(s, a + b)
  {
    TextReadsBack(s);
    var sum := AddMonths(MonthNamed(s).value, a);
    if sum.Some? {
      KeyReadsBack(sum.value);
    }
  }

  function KeyTexts(months: seq<Month>): seq<string> {
    seq(|months|, i requires 0 <= i < |months| => KeyText(months[i]))
  }

  datatype Fault = NotAMonth(text: string) | Reversed(start: string, end: string)

  /** What follows 9999-12: five digits, so no month key any more. */
  const BEYOND := "10000-01"

  /** The text for a month index, one past the last month included. */
  function TextAt(m: int): string
    requires 0 <= m <= LAST + 1
  {
    if m <= LAST then KeyText(m) else BEYOND
  }

  /** December rolls over into the next year's January. */
  method NextKey(month: string) returns (result: Result<string, Fault>)
    ensures result == if IsMonthKey(month) then Ok(TextAt(MonthNamed(month).value + 1)) else Err(NotAMonth(month))
  {
    if !IsMonthKey(month) {
      return Err(NotAMonth(month));
    }
    hide KeyText, IsMonthKey;
    var m := MonthNamed(month).value;
    NextIsSuccessor(m);
    var next := NextMonth(m);
    return Ok(if next.Some? then KeyText(next.value) else BEYOND);
  }

  lemma BeyondComparesLow()
    ensures !IsMonthKey(BEYOND) && LexLeq(BEYOND, KeyText(LAST))
  {
    KeyPieces(LAST);
    assert KeyText(LAST)[0] == KeyText(LAST)[..4][0] == '9';
    assert BEYOND[0] == '1';
  }

  /** As texts, the months up to the last one do not exceed it, the one after it does, except after 9999-12. */
  lemma StepsOnIff(m: int, last: Month)
    requires 0 <= m <= last + 1
    ensures LexLeq(TextAt(m), KeyText(last)) <==> m <= last || last == LAST
    ensures IsMonthKey(TextAt(m)) <==> m <= LAST
    ensures m <= LAST ==> MonthNamed(TextAt(m)) == Some(m)
  {
    hide LexLeq, KeyText;
    if m <= LAST {
      KeysOrderLikeMonths(m, last);
      KeyReadsBack(m);
    } else {
      BeyondComparesLow();
    }
  }

  lemma SpanGrows(first: Month, last: Month, m: Month)
    requires first <= m <= last
    ensures var span := MonthsInSpan(first, last);
            KeyTexts(span[..m + 1 - first]) == KeyTexts(span[..m - first]) + [KeyText(m)]
  {
    hide KeyText;
    var span := MonthsInSpan(first, last);
    assert span[..m + 1 - first] == span[..m - first] + [m];
  }

  lemma WholeSpan(first: Month, last: Month)
    requires first <= last
    ensures MonthsInSpan(first, last)[..last + 1 - first] == MonthsInSpan(first, last)
    ensures KeyTexts(MonthsInSpan(first, last)[..0]) == []
  {
  }

  /** What stepping from `first` to `last` yields; after 9999-12 the step itself is refused. */
  function Stepped(first: Month, last: Month): Result<seq<string>, Fault> {
    if last < LAST then Ok(KeyTexts(MonthsInSpan(first, last))) else Err(NotAMonth(BEYOND))
  }

  /** Steps through the months by comparing and incrementing texts; bad or reversed bounds are faults. */
  method IterMonths(start: string, end: string) returns (result: Result<seq<string>, Fault>)
    ensures !IsMonthKey(start) ==> result == Err(NotAMonth(start))
    ensures IsMonthKey(start) && !IsMonthKey(end) ==> result == Err(NotAMonth(end))
    ensures IsMonthKey(start) && IsMonthKey(end) ==>
              var first, last := MonthNamed(start).value, MonthNamed(end).value;
              result == if first <= last then Stepped(first, last) else Err(Reversed(start, end))
  {
    if !IsMonthKey(start) {
      return Err(NotAMonth(start));
    }
    if !IsMonthKey(end) {
      return Err(NotAMonth(end));
    }
    var first, last := MonthNamed(start).value, MonthNamed(end).value;
    hide LexLeq, KeyText, IsMonthKey, MonthNamed, MonthsInSpan, KeyTexts;
    TextReadsBack(start);
    TextReadsBack(end);
    KeysOrderLikeMonths(first, last);
    if !LexLeq(start, end) {
      return Err(Reversed(start, end));
    }
    result := StepThrough(start, end, first, last);
  }

  method StepThrough(start: string, end: string, ghost first: Month, ghost last: Month)
      returns (result: Result<seq<string>, Fault>)
    requires first <= last && start == KeyText(first) && end == KeyText(last)
    ensures result == Stepped(first, last)
  {
    hide LexLeq, KeyText, IsMonthKey, MonthNamed, MonthsInSpan, KeyTexts;
    var months: seq<string> := [];
    var month := start;
    ghost var at: int := first;
    SpanBounds(first, last);
    WholeSpan(first, last);
    StepsOnIff(at, last);
    while LexLeq(month, end)
      invariant first <= at <= last + 1 && month == TextAt(at)
      invariant months == KeyTexts(MonthsInSpan(first, last)[..at - first])
      decreases last + 1 - at
    {
      StepsOnIff(at, last);
      var next := NextKey(month);
      if next.Err? {
        return Err(next.error);
      }
      SpanGrows(first, last, at);
      months := months + [month];
      month := next.value;
      at := at + 1;
    }
    StepsOnIff(at, last);
    return Ok(months);
  }

  lemma SpanBounds(first: Month, last: Month)
    requires first <= last
    ensures |MonthsInSpan(first, last)| == last + 1 - first
  {
  }

  // ----- period texts -----

  function PeriodText(p: Period): string
    requires Printable(p)
  {
    match p
    case Label(year, number) => Digits4(year) + "-fold" + Numeral(number)
    case Span(start, end) => KeyText(start) + ".." + KeyText(end)
    case Single(m) => KeyText(m)
    case Other(text) => text
  }

  predicate Printable(p: Period) { p.Label? ==> p.year <= 9999 && p.number >= 1 }

  /** The text matches (\d{4})-fold([1-9]\d*) as a whole. */
  predicate IsLabelText(s: string) {
    |s| > 9 && AllDigits(s[..4]) && s[4..9] == "-fold" && AllDigits(s[9..]) && s[9] != '0'
  }

  predicate IsSpanText(s: string) { |s| == 16 && IsMonthKey(s[..7]) && s[7..9] == ".." && IsMonthKey(s[9..]) }

  function PeriodNamed(s: string): Period {
    if IsLabelText(s) then Label(Value4(s[..4]), ValueOf(s[9..]))
    else if IsSpanText(s) then Span(MonthNamed(s[..7]).value, MonthNamed(s[9..]).value)
    else if IsMonthKey(s) then Single(MonthNamed(s).value)
    else Other(s)
  }

  /** A period that is its own reading: other texts must not read as something else. */
  predicate Canonical(p: Period) {
    Printable(p) && (p.Other? ==> !IsLabelText(p.text) && !IsSpanText(p.text) && !IsMonthKey(p.text))
  }

  lemma LabelReadsBack(year: nat, number: nat)
    requires year <= 9999 && number >= 1
    ensures PeriodNamed(PeriodText(Label(year, number))) == Label(year, number)
  {
    var d := Numeral(number);
    var s := PeriodText(Label(year, number));
    NumeralValue(number);
    NumeralLeads(number);
    Digits4ReadBack(year);
    assert s[..4] == Digits4(year) && s[4..9] == "-fold" && s[9..] == d;
  }

  lemma {:induction false} NumeralLeads(n: nat)
    requires n >= 1
    ensures Numeral(n) != [] && Numeral(n)[0] != '0'
  {
    if n >= 10 {
      NumeralLeads(n / 10);
    }
  }

  lemma SpanReadsBack(start: Month, end: Month)
    ensures PeriodNamed(PeriodText(Span(start, end))) == Span(start, end)
  {
    var s := PeriodText(Span(start, end));
    KeyPieces(start);
    KeyReadsBack(start);
    KeyReadsBack(end);
    assert s[..7] == KeyText(start) && s[7..9] == ".." && s[9..] == KeyText(end);
    assert s[4..9][3] == s[7];
  }

  lemma SingleReadsBack(m: Month)
    ensures PeriodNamed(PeriodText(Single(m))) == Single(m)
  {
    KeyPieces(m);
    KeyReadsBack(m);
  }

  /** Period texts and periods determine each other, so comparing tasks by period text compares their periods. */
  lemma PeriodReadsBack(p: Period)
    requires Canonical(p)
    ensures PeriodNamed(PeriodText(p)) == p
  {
    match p
    case Label(year, number) => LabelReadsBack(year, number);
    case Span(start, end) => SpanReadsBack(start, end);
    case Single(m) => SingleReadsBack(m);
    case Other(_) =>
  }

  lemma PeriodPrintsBack(s: string)
    ensures Canonical(PeriodNamed(s)) && PeriodText(PeriodNamed(s)) == s
  {
    if IsLabelText(s) {
      Value4ReadsBack(s[..4]);
      NumeralOfValue(s[9..]);
      assert s == s[..4] + s[4..9] + s[9..];
    } else if IsSpanText(s) {
      TextReadsBack(s[..7]);
      TextReadsBack(s[9..]);
      assert s == s[..7] + s[7..9] + s[9..];
    } else if IsMonthKey(s) {
      TextReadsBack(s);
    }
  }
}
