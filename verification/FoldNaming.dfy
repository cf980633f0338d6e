/** Names of target-scoped folds over ASCII text: the target token, the printed fold id, and its parser. */
module FoldNaming {
  import opened Text
  import opened Wrappers

  predicate IsLowerAlnum(c: char) { 'a' <= c <= 'z' || IsDigit(c) }

  predicate IsAlnum(c: char) { IsLowerAlnum(c) || 'A' <= c <= 'Z' }

  function UpperChar(c: char): char { if 'a' <= c <= 'z' then c - ' ' else c }

  function Upper(s: string): string { seq(|s|, i requires 0 <= i < |s| => UpperChar(s[i])) }

  function CleanChar(c: char): char { if IsAlnum(c) then LowerChar(c) else '_' }

  function Clean(s: string): string { seq(|s|, i requires 0 <= i < |s| => CleanChar(s[i])) }

  /** Python's s.split("_"). */
  function Split(s: string): (parts: seq<string>)
    ensures parts != []
  {
    if s == [] then [""]
    else
      var rest := Split(s[1..]);
      if s[0] == '_' then [""] + rest else [[s[0]] + rest[0]] + rest[1..]
  }

  function NonEmpty(parts: seq<string>): seq<string> {
    if parts == [] then [] else (if parts[0] == "" then [] else [parts[0]]) + NonEmpty(parts[1..])
  }

  /** Python's "_".join(parts). */
  function Join(parts: seq<string>): string {
    if parts == [] then "" else if |parts| == 1 then parts[0] else parts[0] + "_" + Join(parts[1..])
  }

  /** `target` is None for a missing symbol; an empty symbol counts as missing. */
  function SafeTargetToken(target: Option<string>): Option<string> {
    if target.None? || target.value == "" then None
    else
      var token := Join(NonEmpty(Split(Clean(Upper(Strip(target.value))))));
      if token == "" then None else Some(token)
  }

  /** The shape \d{4}-\d{2}. */
  predicate IsMonthText(s: string) {
    |s| == 7 && s[4] == '-' && forall i :: 0 <= i < 7 && i != 4 ==> IsDigit(s[i])
  }

  const UNSCOPED := "unscoped"

  function Scope(target: Option<string>): string { SafeTargetToken(target).GetOr(UNSCOPED) }

  function Print(token: string, year: string): string { "fold_" + token + "_" + year }

  function FoldId(target: Option<string>, startMonth: string): Result<string, string> {
    if IsMonthText(startMonth) then Ok(Print(Scope(target), startMonth[..4])) else Err(startMonth)
  }

  predicate AllLowerAlnum(s: string) { forall i :: 0 <= i < |s| ==> IsLowerAlnum(s[i]) }

  /** The text matches fold_([a-z0-9]+)_(\d{4}) as a whole. */
  predicate Matches(s: string) {
    && |s| > 10 && s[..5] == "fold_" && s[|s| - 5] == '_'
    && AllLowerAlnum(s[5..|s| - 5]) && AllDigits(s[|s| - 4..])
  }

  function Parse(foldId: string): Option<(string, string)> {
    var s := Lower(Strip(foldId));
    if Matches(s) then Some((s[5..|s| - 5], s[|s| - 4..])) else None
  }

  /** A fold id is printed exactly for a start month of the form YYYY-MM, from the year and the token or "unscoped". */
  lemma FoldIdIff(target: Option<string>, startMonth: string)
    ensures FoldId(target, startMonth).Ok? <==>
        exists year, month :: startMonth == year + "-" + month && |year| == 4 && |month| == 2
          && AllDigits(year) && AllDigits(month)
    ensures FoldId(target, startMonth).Err? ==> FoldId(target, startMonth).error == startMonth
    ensures forall year, month :: startMonth == year + "-" + month && FoldId(target, startMonth).Ok? && |year| == 4 ==>
        FoldId(target, startMonth).value
        == "fold_" + (if SafeTargetToken(target).Some? then SafeTargetToken(target).value else "unscoped") + "_" + year
  {
    hide SafeTargetToken;
    if IsMonthText(startMonth) {
      var year, month := startMonth[..4], startMonth[5..];
      assert startMonth == year + "-" + month;
      assert AllDigits(year) && AllDigits(month);
    }
    forall year, month | startMonth == year + "-" + month && |year| == 4
      ensures startMonth[..4] == year && startMonth[4] == '-'
      ensures AllDigits(year) && AllDigits(month) && |month| == 2 ==> IsMonthText(startMonth)
    {
      if AllDigits(year) && AllDigits(month) && |month| == 2 {
        forall i | 0 <= i < 7 && i != 4 ensures IsDigit(startMonth[i]) {
          if i < 4 {
            assert startMonth[i] == year[i] && year[i] in year;
          } else {
            assert startMonth[i] == month[i - 5] && month[i - 5] in month;
          }
        }
      }
    }
  }

  // ----- tokens -----

  /** A non-empty run of lower-case letters and digits. */
  predicate Word(s: string) { s != "" && AllLowerAlnum(s) }

  predicate Words(parts: seq<string>) { forall i :: 0 <= i < |parts| ==> Word(parts[i]) }

  predicate CleanText(s: string) { forall i :: 0 <= i < |s| ==> IsLowerAlnum(s[i]) || s[i] == '_' }

  lemma {:induction false} SplitGivesWords(s: string)
    requires CleanText(s)
    ensures forall i :: 0 <= i < |Split(s)| ==> AllLowerAlnum(Split(s)[i])
  {
    if s != [] {
      assert CleanText(s[1..]);
      SplitGivesWords(s[1..]);
      var rest := Split(s[1..]);
      if s[0] != '_' {
        assert AllLowerAlnum([s[0]] + rest[0]);
      }
    }
  }

  lemma {:induction false} NonEmptyGivesWords(parts: seq<string>)
    requires forall i :: 0 <= i < |parts| ==> AllLowerAlnum(parts[i])
    ensures Words(NonEmpty(parts))
  {
    if parts != [] {
      NonEmptyGivesWords(parts[1..]);
    }
  }

  lemma {:induction false} NonEmptyKeepsWords(parts: seq<string>)
    requires Words(parts)
    ensures NonEmpty(parts) == parts
  {
    if parts != [] {
      assert Word(parts[0]);
      assert Words(parts[1..]) by {
        forall i | 0 <= i < |parts[1..]| ensures Word(parts[1..][i]) {
          assert parts[1..][i] == parts[i + 1];
        }
      }
      NonEmptyKeepsWords(parts[1..]);
    }
  }

  lemma {:induction false} SplitWord(w: string)
    requires AllLowerAlnum(w)
    ensures Split(w) == [w]
  {
    if w != [] {
      assert AllLowerAlnum(w[1..]);
      SplitWord(w[1..]);
      assert w == [w[0]] + w[1..];
      assert IsLowerAlnum(w[0]);
    }
  }

  lemma {:induction false} SplitWordFirst(w: string, rest: string)
    requires AllLowerAlnum(w)
    ensures Split(w + "_" + rest) == [w] + Split(rest)
  {
    var s := w + "_" + rest;
    if w == [] {
      assert s[1..] == rest;
    } else {
      assert AllLowerAlnum(w[1..]);
      assert s[1..] == w[1..] + "_" + rest;
      SplitWordFirst(w[1..], rest);
      assert IsLowerAlnum(w[0]) && s[0] == w[0];
      assert w == [w[0]] + w[1..];
    }
  }

  /** Splitting undoes joining when the parts are words. */
  lemma {:induction false} SplitJoin(parts: seq<string>)
    requires parts != [] && Words(parts)
    ensures Split(Join(parts)) == parts
  {
    assert Word(parts[0]);
    if |parts| == 1 {
      SplitWord(parts[0]);
    } else {
      assert Words(parts[1..]) by {
        forall i | 0 <= i < |parts[1..]| ensures Word(parts[1..][i]) {
          assert parts[1..][i] == parts[i + 1];
        }
      }
      SplitJoin(parts[1..]);
      SplitWordFirst(parts[0], Join(parts[1..]));
    }
  }

  predicate Token(s: string) {
    s != "" && CleanText(s) && IsLowerAlnum(s[0]) && IsLowerAlnum(s[|s| - 1])
  }

  lemma {:induction false} JoinIsToken(parts: seq<string>)
    requires parts != [] && Words(parts)
    ensures Token(Join(parts))
  {
    assert Word(parts[0]);
    if |parts| > 1 {
      assert Words(parts[1..]) by {
        forall i | 0 <= i < |parts[1..]| ensures Word(parts[1..][i]) {
          assert parts[1..][i] == parts[i + 1];
        }
      }
      JoinIsToken(parts[1..]);
      var tail := Join(parts[1..]);
      var s := parts[0] + "_" + tail;
      forall i | 0 <= i < |s| ensures IsLowerAlnum(s[i]) || s[i] == '_' {
        assert i < |parts[0]| ==> s[i] == parts[0][i];
        assert i > |parts[0]| ==> s[i] == tail[i - |parts[0]| - 1];
      }
      assert s[|s| - 1] == tail[|tail| - 1];
    }
  }

  /** The words a target symbol is made of. */
  function WordsOf(target: string): seq<string> { NonEmpty(Split(Clean(Upper(Strip(target))))) }

  lemma TargetWords(target: string)
    ensures Words(WordsOf(target))
  {
    var s := Clean(Upper(Strip(target)));
    assert CleanText(s);
    SplitGivesWords(s);
    NonEmptyGivesWords(Split(s));
  }

  lemma CleanKeeps(s: string)
    requires Token(s)
    ensures Clean(Upper(Strip(s))) == s
  {
    assert !IsSpace(s[0]) && !IsSpace(s[|s| - 1]);
    assert Strip(s) == s;
    forall i | 0 <= i < |s| ensures Clean(Upper(s))[i] == s[i] {
    }
  }

  /** A token holds only words joined by single underscores, and taking the token of a token changes nothing. */
  lemma TokenIsStable(target: Option<string>)
    requires SafeTargetToken(target).Some?
    ensures var t := SafeTargetToken(target).value;
            Token(t) && Words(Split(t)) && SafeTargetToken(Some(t)) == Some(t)
  {
    var parts := WordsOf(target.value);
    TargetWords(target.value);
    var t := Join(parts);
    JoinIsToken(parts);
    SplitJoin(parts);
    CleanKeeps(t);
    NonEmptyKeepsWords(parts);
  }

  /** A symbol has no token exactly when nothing in it is a letter or a digit. */
  lemma NoTokenIff(target: string)
    ensures SafeTargetToken(Some(target)).None? <==> forall c :: c in target ==> !IsAlnum(c)
  {
    var s := Strip(target);
    StripKeepsAlnum(target);
    var u := Clean(Upper(s));
    WordsIff(u);
    TargetWords(target);
    if WordsOf(target) != [] {
      JoinIsToken(WordsOf(target));
      var i :| 0 <= i < |u| && u[i] != '_';
      assert s[i] in s && IsAlnum(s[i]);
    } else {
      forall c | c in s ensures !IsAlnum(c) {
        var i :| 0 <= i < |s| && s[i] == c;
        assert u[i] == '_';
      }
    }
  }

  lemma {:induction false} WordsIff(u: string)
    ensures NonEmpty(Split(u)) == [] <==> forall i :: 0 <= i < |u| ==> u[i] == '_'
  {
    if u != [] {
      WordsIff(u[1..]);
      assert forall i :: 0 <= i < |u[1..]| ==> u[1..][i] == u[i + 1];
      assert (forall i :: 0 <= i < |u| ==> u[i] == '_')
        <==> u[0] == '_' && forall i :: 0 <= i < |u[1..]| ==> u[1..][i] == '_' by {
        forall i | 0 < i < |u| ensures u[i] == u[1..][i - 1] {
        }
      }
      var rest := Split(u[1..]);
      if u[0] == '_' {
        assert ([""] + rest)[1..] == rest;
      } else {
        assert NonEmpty([[u[0]] + rest[0]] + rest[1..]) != [];
      }
    }
  }

  lemma {:induction false} StripLeftKeepsAlnum(s: string)
    ensures forall c :: IsAlnum(c) ==> (c in StripLeft(s) <==> c in s)
  {
    if s != [] && IsSpace(s[0]) {
      StripLeftKeepsAlnum(s[1..]);
      assert s == [s[0]] + s[1..];
    }
  }

  lemma {:induction false} StripRightKeepsAlnum(s: string)
    ensures forall c :: IsAlnum(c) ==> (c in StripRight(s) <==> c in s)
  {
    if s != [] && IsSpace(s[|s| - 1]) {
      StripRightKeepsAlnum(s[..|s| - 1]);
      assert s == s[..|s| - 1] + [s[|s| - 1]];
    }
  }

  lemma StripKeepsAlnum(s: string)
    ensures forall c :: IsAlnum(c) ==> (c in Strip(s) <==> c in s)
  {
    StripLeftKeepsAlnum(s);
    StripRightKeepsAlnum(StripLeft(s));
  }

  // ----- fold ids -----

  lemma ScopeIsToken(target: Option<string>)
    ensures Token(Scope(target)) && SafeTargetToken(Some(Scope(target))) == Some(Scope(target))
  {
    if SafeTargetToken(target).Some? {
      TokenIsStable(target);
    } else {
      UnscopedIsWord();
      WordIsStable(UNSCOPED);
    }
  }

  lemma WordIsStable(t: string)
    requires Word(t)
    ensures Token(t) && SafeTargetToken(Some(t)) == Some(t)
  {
    CleanKeeps(t);
    SplitWord(t);
    assert Words([t]);
    NonEmptyKeepsWords([t]);
  }

  lemma UnscopedIsWord()
    ensures Word(UNSCOPED)
  {
  }

  lemma PrintIsLower(t: string, year: string)
    requires Token(t) && |year| == 4 && AllDigits(year)
    ensures Lower(Strip(Print(t, year))) == Print(t, year)
  {
    var s := Print(t, year);
    assert forall i :: 0 <= i < 4 ==> year[i] in year;
    assert s[0] == 'f' && s[|s| - 1] == year[3];
    assert Strip(s) == s;
    forall i | 0 <= i < |s| ensures LowerChar(s[i]) == s[i] {
      assert i < 5 ==> s[i] == "fold_"[i];
      assert 5 <= i < 5 + |t| ==> s[i] == t[i - 5];
      assert i > 5 + |t| ==> s[i] == year[i - 6 - |t|];
    }
  }

  lemma PrintPieces(t: string, year: string)
    requires |year| == 4
    ensures var s := Print(t, year);
            && |s| == 10 + |t| && s[..5] == "fold_" && s[5..|s| - 5] == t && s[|s| - 5] == '_' && s[|s| - 4..] == year
  {
  }

  lemma WordIff(t: string)
    requires Token(t)
    ensures AllLowerAlnum(t) <==> '_' !in t
  {
    if '_' in t {
      var i :| 0 <= i < |t| && t[i] == '_';
      assert !IsLowerAlnum(t[i]);
    } else {
      forall i | 0 <= i < |t| ensures IsLowerAlnum(t[i]) {
        assert t[i] in t;
      }
    }
  }

  lemma PrintMatchesIff(t: string, year: string)
    requires Token(t) && |year| == 4 && AllDigits(year)
    ensures Matches(Print(t, year)) <==> '_' !in t
  {
    PrintPieces(t, year);
    WordIff(t);
  }

  /**
   Parsing a printed fold id gives the token and the year back exactly when the token is a single word; otherwise
   nothing.
   */
  lemma ParsePrinted(target: Option<string>, startMonth: string)
    requires IsMonthText(startMonth)
    ensures FoldId(target, startMonth).Ok?
    ensures var t := Scope(target);
            Parse(FoldId(target, startMonth).value) == if '_' in t then None else Some((t, startMonth[..4]))
  {
    var t, year := Scope(target), startMonth[..4];
    ScopeIsToken(target);
    assert |year| == 4 && AllDigits(year);
    PrintIsLower(t, year);
    PrintMatchesIff(t, year);
    PrintPieces(t, year);
  }

  /** Printing what was parsed gives the stripped lower-cased text back. */
  lemma PrintParsed(foldId: string, month: string)
    requires Parse(foldId).Some?
    requires IsMonthText(month) && month[..4] == Parse(foldId).value.1
    ensures FoldId(Some(Parse(foldId).value.0), month) == Ok(Lower(Strip(foldId)))
  {
    var s := Lower(Strip(foldId));
    var t := s[5..|s| - 5];
    assert Word(t);
    WordIsStable(t);
    assert s == s[..5] + t + [s[|s| - 5]] + s[|s| - 4..];
  }

  /**
   Two fold ids are equal exactly when the tokens and the years are; a missing target shares its ids with "unscoped".
   */
  lemma FoldIdsAgreeIff(a: Option<string>, m: string, b: Option<string>, n: string)
    requires IsMonthText(m) && IsMonthText(n)
    ensures FoldId(a, m) == FoldId(b, n) <==> Scope(a) == Scope(b) && m[..4] == n[..4]
  {
    PrintPieces(Scope(a), m[..4]);
    PrintPieces(Scope(b), n[..4]);
  }
}
