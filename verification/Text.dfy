/** Decimal numerals, zero padding, ASCII case and whitespace, as the record keys use them. */
module Text {
  function Digit(n: nat): char
    requires n < 10
  {
    (n as char) + '0'
  }

  function Numeral(n: nat): string {
    if n < 10 then [Digit(n)] else Numeral(n / 10) + [Digit(n % 10)]
  }

  predicate IsDigit(c: char) { '0' <= c <= '9' }

  predicate AllDigits(s: string) { forall c :: c in s ==> IsDigit(c) }

  function DigitValue(c: char): nat
    requires IsDigit(c)
  {
    (c - '0') as int
  }

  /** Python's f"{n:03d}". */
  function Pad3(n: nat): string {
    var d := Numeral(n);
    if |d| == 1 then "00" + d else if |d| == 2 then "0" + d else d
  }

  function ValueOf(s: string): nat
    requires AllDigits(s)
  {
    if s == [] then 0
    else
      var last := s[|s| - 1];
      assert last in s;
      ValueOf(s[..|s| - 1]) * 10 + DigitValue(last)
  }

  lemma {:induction false} NumeralValue(n: nat)
    ensures AllDigits(Numeral(n))
    ensures ValueOf(Numeral(n)) == n
  {
    if n >= 10 {
      NumeralValue(n / 10);
      var d := Numeral(n);
      assert d[..|d| - 1] == Numeral(n / 10);
      assert d[|d| - 1] == Digit(n % 10);
    }
  }

  lemma {:induction false} LeadingZero(s: string)
    requires AllDigits(s)
    ensures ValueOf("0" + s) == ValueOf(s)
  {
    var t := "0" + s;
    if s != [] {
      LeadingZero(s[..|s| - 1]);
      assert t[..|t| - 1] == "0" + s[..|s| - 1];
    }
  }

  lemma PadValue(n: nat)
    ensures AllDigits(Pad3(n))
    ensures ValueOf(Pad3(n)) == n
  {
    NumeralValue(n);
    var d := Numeral(n);
    LeadingZero(d);
    LeadingZero("0" + d);
    assert "0" + ("0" + d) == "00" + d;
  }

  lemma SeparatorPlace(a: string, d: string, b: string, e: string)
    requires a + "_" + d == b + "_" + e
    requires forall c :: c in d ==> c != '_'
    ensures |b| <= |a|
  {
    var s := a + "_" + d;
    assert s[|b|] == '_';
    assert forall i :: |a| < i < |s| ==> s[i] == d[i - |a| - 1] && d[i - |a| - 1] in d;
  }

  /** A key of the form base_number splits in one way only. */
  lemma NumberedKeySplits(a: string, m: nat, b: string, n: nat)
    requires a + "_" + Pad3(m) == b + "_" + Pad3(n)
    ensures a == b && m == n
  {
    PadValue(m);
    PadValue(n);
    var d, e := Pad3(m), Pad3(n);
    SeparatorPlace(a, d, b, e);
    SeparatorPlace(b, e, a, d);
    var s := a + "_" + d;
    assert a == s[..|a|] && b == s[..|b|];
    assert d == s[|a| + 1..] && e == s[|b| + 1..];
  }

  /** The ASCII characters Python's strip removes. */
  predicate IsSpace(c: char) { c == ' ' || '\t' <= c <= '\r' || 28 <= c as int <= 31 }

  function StripLeft(s: string): string {
    if s != [] && IsSpace(s[0]) then StripLeft(s[1..]) else s
  }

  function StripRight(s: string): string {
    if s != [] && IsSpace(s[|s| - 1]) then StripRight(s[..|s| - 1]) else s
  }

  function Strip(s: string): string { StripRight(StripLeft(s)) }

  function LowerChar(c: char): char { if 'A' <= c <= 'Z' then c + ' ' else c }

  function Lower(s: string): string { seq(|s|, i requires 0 <= i < |s| => LowerChar(s[i])) }

  /** Order of texts, as string comparison has it. */
  predicate LexLeq(a: string, b: string) {
    a == [] || (b != [] && (a[0] < b[0] || (a[0] == b[0] && LexLeq(a[1..], b[1..]))))
  }

  lemma {:induction false} LexLeqTotal(a: string, b: string)
    ensures LexLeq(a, b) || LexLeq(b, a)
  {
    if a != [] && b != [] && a[0] == b[0] {
      LexLeqTotal(a[1..], b[1..]);
    }
  }

  lemma {:induction false} LexLeqReflexive(a: string)
    ensures LexLeq(a, a)
  {
    if a != [] {
      LexLeqReflexive(a[1..]);
    }
  }

  lemma {:induction false} LexLeqTransitive(a: string, b: string, c: string)
    requires LexLeq(a, b) && LexLeq(b, c)
    ensures LexLeq(a, c)
  {
    if a != [] && a[0] == b[0] == c[0] {
      LexLeqTransitive(a[1..], b[1..], c[1..]);
    }
  }

  lemma {:induction false} LexLeqAntisymmetric(a: string, b: string)
    requires LexLeq(a, b) && LexLeq(b, a)
    ensures a == b
  {
    if a != [] {
      LexLeqAntisymmetric(a[1..], b[1..]);
      assert a == [a[0]] + a[1..] && b == [b[0]] + b[1..];
    }
  }

  /** Texts with prefixes of one length are ordered by the prefixes first. */
  lemma {:induction false} LexPrefix(a: string, x: string, b: string, y: string)
    requires |a| == |b|
    ensures LexLeq(a + x, b + y) <==> if a == b then LexLeq(x, y) else LexLeq(a, b)
  {
    if a == [] {
      assert a + x == x && b + y == y;
    } else {
      assert (a + x)[1..] == a[1..] + x && (b + y)[1..] == b[1..] + y;
      assert a == [a[0]] + a[1..] && b == [b[0]] + b[1..];
      LexPrefix(a[1..], x, b[1..], y);
    }
  }

  lemma LastDigit(v: nat, q: nat, c: char)
    requires IsDigit(c) && v == q * 10 + DigitValue(c)
    ensures v / 10 == q && Digit(v % 10) == c
  {
  }

  lemma FrontDigits(d: string)
    requires d != [] && AllDigits(d)
    ensures AllDigits(d[..|d| - 1]) && IsDigit(d[|d| - 1]) && d == d[..|d| - 1] + [d[|d| - 1]]
  {
    forall c | c in d[..|d| - 1] ensures IsDigit(c) {
      assert c in d;
    }
    assert d[|d| - 1] in d;
  }

  lemma OneDigit(c: char)
    requires IsDigit(c)
    ensures AllDigits([c]) && ValueOf([c]) == DigitValue(c) && Numeral(DigitValue(c)) == [c]
  {
    assert [c][..0] == [];
  }

  /** A number without a leading zero is the numeral of its value. */
  lemma {:induction false} NumeralOfValue(d: string)
    requires d != [] && AllDigits(d) && d[0] != '0'
    ensures Numeral(ValueOf(d)) == d && ValueOf(d) >= 1
  {
    FrontDigits(d);
    var front, last := d[..|d| - 1], d[|d| - 1];
    hide AllDigits;
    if front == [] {
      OneDigit(last);
      assert d == [last];
    } else {
      NumeralOfValue(front);
      LastDigit(ValueOf(d), ValueOf(front), last);
    }
  }
}
