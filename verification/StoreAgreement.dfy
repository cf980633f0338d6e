/** When the two stores of the error catalog give every call the same answer, and when they do not. */
module StoreAgreement {
  import opened Wrappers
  import opened ErrorCatalog
  import opened Text
  import AlertRate

  /** Requests of one fault arrive in order of their occurrence times; different faults may interleave anyhow. */
  ghost predicate InOrder(calls: seq<Call>) {
    forall i, j :: 0 <= i < j < |calls| && calls[i].fingerprint == calls[j].fingerprint
                   && calls[i].occurred.Some? && calls[j].occurred.Some?
      ==> calls[i].occurred.value <= calls[j].occurred.value
  }

  /** Equal in everything but which earlier request an occurrence points at. */
  predicate SameRow(a: Row, b: Row) { a.(duplicateOf := None) == b.(duplicateOf := None) }

  ghost predicate Agree(a: seq<Row>, b: seq<Row>) {
    |a| == |b| && forall i :: 0 <= i < |a| ==> SameRow(a[i], b[i])
  }

  /** In append order, one fault's dated rows have nondecreasing times and numbers, no later than `bound` allows. */
  ghost predicate Rising(rows: seq<Row>) {
    forall i, j :: 0 <= i < j < |rows| && rows[i].fingerprint == rows[j].fingerprint
                   && rows[i].occurred.Some? && rows[j].occurred.Some?
      ==> rows[i].occurred.value <= rows[j].occurred.value && rows[i].number <= rows[j].number
  }

  ghost predicate NotBefore(c: Call, rows: seq<Row>) {
    forall r :: r in rows && r.fingerprint == c.fingerprint && r.occurred.Some? && c.occurred.Some?
      ==> r.occurred.value <= c.occurred.value
  }

  /** The number a backward scan of append order picks is the greatest any stored duplicate carries. */
  lemma JsonlPicksGreatest(rows: seq<Row>, c: Call)
    requires Rising(rows) && FindDuplicate(rows, c).Some?
    ensures var base := FindDuplicate(rows, c).value;
            base in rows && Duplicates(base, c)
            && forall r :: r in rows && Duplicates(r, c) ==> r.number <= base.number
  {
    var base := FindDuplicate(rows, c).value;
    FindDuplicateFinds(rows, c);
    var i: nat :| LastDuplicateAt(rows, c, i) && rows[i] == base;
    forall r | r in rows && Duplicates(r, c) ensures r.number <= base.number {
      var j :| 0 <= j < |rows| && rows[j] == r;
      assert j <= i;
    }
  }

  /**
   Of the rows a call duplicates, the one a backward scan of the ORDER BY settles on: in any arrival order none has a
   greater number, none with its number was created in a later second, and none of that second has a greater request
   id.
   */
  lemma SqlPicksLatest(rows: seq<Row>, c: Call)
    requires FindDuplicate(OrderRows(rows), c).Some?
    ensures var base := FindDuplicate(OrderRows(rows), c).value;
            && base in rows && Duplicates(base, c)
            && forall r :: r in rows && Duplicates(r, c) ==>
                 && r.number <= base.number
                 && (r.number == base.number ==> r.now / SECOND <= base.now / SECOND)
                 && (r.number == base.number && r.now / SECOND == base.now / SECOND ==>
                       LexLeq(r.requestId, base.requestId))
  {
    hide OrderRows, FindDuplicate, Duplicates, LexLeq;
    var view := OrderRows(rows);
    OrderRowsCorrect(rows);
    ViewKeepsRows(Sql(true), rows);
    var base := FindDuplicate(view, c).value;
    FindDuplicateFinds(view, c);
    var i: nat :| LastDuplicateAt(view, c, i) && view[i] == base;
    assert view[i] in view;
    forall r | r in rows && Duplicates(r, c) ensures NoLater(r, base) {
      assert r in view;
      var j :| 0 <= j < |view| && view[j] == r;
      LexLeqReflexive(r.requestId);
      assert j <= i;
    }
  }

  lemma {:induction false} AgreeOnHighest(a: seq<Row>, b: seq<Row>)
    requires Agree(a, b)
    ensures HighestNumber(a) == HighestNumber(b)
  {
    if a != [] {
      var n := |a| - 1;
      AgreeOnHighest(a[..n], b[..n]);
      assert SameRow(a[n], b[n]);
    }
  }

  lemma AgreeOnMembers(a: seq<Row>, b: seq<Row>, r: Row) returns (twin: Row)
    requires Agree(a, b) && r in a
    ensures twin in b && SameRow(r, twin)
  {
    var i :| 0 <= i < |a| && a[i] == r;
    twin := b[i];
  }

  /** With one fault's rows rising, the two scans settle on the same number, or both find nothing. */
  lemma SameChoice(jsonl: seq<Row>, sql: seq<Row>, c: Call)
    requires Agree(jsonl, sql) && Rising(jsonl)
    ensures var j, s := FindDuplicate(jsonl, c), FindDuplicate(OrderRows(sql), c);
            (j.Some? <==> s.Some?) && (j.Some? ==> j.value.number == s.value.number)
  {
    var j, s := FindDuplicate(jsonl, c), FindDuplicate(OrderRows(sql), c);
    ViewKeepsRows(Sql(true), sql);
    hide OrderRows, FindDuplicate;
    FindDuplicateFinds(OrderRows(sql), c);
    FindDuplicateFinds(jsonl, c);
    if j.Some? {
      JsonlPicksGreatest(jsonl, c);
      var twin := AgreeOnMembers(jsonl, sql, j.value);
      assert Duplicates(twin, c) && twin in OrderRows(sql);
    }
    if s.Some? {
      SqlPicksLatest(sql, c);
      var twin := AgreeOnMembers(sql, jsonl, s.value);
      assert Duplicates(twin, c) && twin in jsonl;
    }
  }

  /** An in-order call keeps a fault's rows rising. */
  lemma StepKeepsRising(rows: seq<Row>, c: Call)
    requires Rising(rows) && NotBefore(c, rows)
    ensures Rising(rows + [AnswerRow(rows, FindDuplicate(rows, c), c)])
  {
    var base := FindDuplicate(rows, c);
    var r := AnswerRow(rows, base, c);
    var after := rows + [r];
    forall i, j | 0 <= i < j < |after| && after[i].fingerprint == after[j].fingerprint
                  && after[i].occurred.Some? && after[j].occurred.Some?
      ensures after[i].occurred.value <= after[j].occurred.value && after[i].number <= after[j].number
    {
      if j == |rows| {
        assert rows[i] in rows;
        HighestIsGreatest(rows);
        if base.Some? {
          FindDuplicateFinds(rows, c);
          var p: nat :| LastDuplicateAt(rows, c, p) && rows[p] == base.value;
          if p < i {
            assert rows[p].occurred.value <= rows[i].occurred.value;
            assert Duplicates(rows[i], c);
          }
        }
      }
    }
  }

  predicate WrittenBy(r: Row, c: Call) {
    r.fingerprint == c.fingerprint && r.occurred == c.occurred && r.now == c.now && r.window == c.window
    && r.requestId == c.requestId
  }

  /** Every stored row records the fault, times, window and request of a call that wrote it. */
  ghost predicate RowsComeFrom(rows: seq<Row>, calls: seq<Call>) {
    forall r :: r in rows ==> exists c :: c in calls && WrittenBy(r, c)
  }

  lemma {:induction false} RunComesFrom(calls: seq<Call>)
    ensures RowsComeFrom(Run(Jsonl, calls), calls)
  {
    if calls != [] {
      var n := |calls| - 1;
      var rows, c := Run(Jsonl, calls[..n]), calls[n];
      RunComesFrom(calls[..n]);
      assert calls == calls[..n] + [c];
      if Unregistered(rows, c) {
        RegisterFresh(Jsonl, rows, c);
        assert WrittenBy(AnswerRow(rows, FindDuplicate(rows, c), c), c);
        forall r | r in rows ensures exists d :: d in calls && WrittenBy(r, d) {
          var d :| d in calls[..n] && WrittenBy(r, d);
        }
      } else {
        RegisterStale(Jsonl, rows, c);
      }
    }
  }

  lemma InOrderNotBefore(calls: seq<Call>, rows: seq<Row>, c: Call)
    requires InOrder(calls + [c]) && RowsComeFrom(rows, calls)
    ensures NotBefore(c, rows)
  {
    var all := calls + [c];
    forall r | r in rows && r.fingerprint == c.fingerprint && r.occurred.Some? && c.occurred.Some?
      ensures r.occurred.value <= c.occurred.value
    {
      var d :| d in calls && WrittenBy(r, d);
      var i :| 0 <= i < |calls| && calls[i] == d;
      assert all[i] == d && all[|calls|] == c;
    }
  }

  ghost predicate SameAnswer(a: Option<Row>, b: Option<Row>) {
    (a.Some? <==> b.Some?) && (a.Some? ==> SameRow(a.value, b.value))
  }

  lemma AgreeOnUnregistered(a: seq<Row>, b: seq<Row>, c: Call)
    requires Agree(a, b)
    ensures Unregistered(a, c) <==> Unregistered(b, c)
  {
    if Unregistered(a, c) {
      forall r | r in b ensures r.requestId != c.requestId { var twin := AgreeOnMembers(b, a, r); }
    }
    if Unregistered(b, c) {
      forall r | r in a ensures r.requestId != c.requestId { var twin := AgreeOnMembers(a, b, r); }
    }
  }

  /** Reads cut no fraction off this call's time: the store keeps fractions, or there is none. */
  predicate Exact(stamps: bool, c: Call) { stamps ==> AlertRate.WholeTime(c.occurred) }

  lemma StoredExactly(stamps: bool, c: Call, r: Row)
    requires Exact(stamps, c) && r.occurred == c.occurred
    ensures Stored(Sql(stamps), r) == r
  {
  }

  lemma FreshAgrees(stamps: bool, jsonl: seq<Row>, sql: seq<Row>, c: Call)
    requires Agree(jsonl, sql) && Rising(jsonl) && Exact(stamps, c) && Unregistered(jsonl, c)
    ensures var j, s := Register(Jsonl, jsonl, c), Register(Sql(stamps), sql, c);
            Agree(j.rows, s.rows) && SameAnswer(j.answer, s.answer)
  {
    AgreeOnUnregistered(jsonl, sql, c);
    SameChoice(jsonl, sql, c);
    AgreeOnHighest(jsonl, sql);
    RegisterFresh(Jsonl, jsonl, c);
    RegisterFresh(Sql(stamps), sql, c);
    var x, y := AnswerRow(jsonl, FindDuplicate(jsonl, c), c), AnswerRow(sql, FindDuplicate(OrderRows(sql), c), c);
    assert SameRow(x, y);
    StoredExactly(stamps, c, y);
    AgreeSnoc(jsonl, sql, x, y);
  }

  lemma StepAgrees(stamps: bool, jsonl: seq<Row>, sql: seq<Row>, c: Call)
    requires Agree(jsonl, sql) && Rising(jsonl) && NotBefore(c, jsonl) && Exact(stamps, c)
    requires UniqueRequests(jsonl) && UniqueRequests(sql)
    ensures var j, s := Register(Jsonl, jsonl, c), Register(Sql(stamps), sql, c);
            Agree(j.rows, s.rows) && Rising(j.rows) && SameAnswer(j.answer, s.answer)
  {
    AgreeOnUnregistered(jsonl, sql, c);
    if Unregistered(jsonl, c) {
      FreshAgrees(stamps, jsonl, sql, c);
      RegisterFresh(Jsonl, jsonl, c);
      StepKeepsRising(jsonl, c);
    } else {
      RegisterStale(Jsonl, jsonl, c);
      RegisterStale(Sql(stamps), sql, c);
      if c.wellFormed {
        var a, b := Register(Jsonl, jsonl, c).answer.value, Register(Sql(stamps), sql, c).answer.value;
        var twin := AgreeOnMembers(jsonl, sql, a);
        assert twin == b;
      }
    }
  }

  predicate AllExact(stamps: bool, calls: seq<Call>) { forall c :: c in calls ==> Exact(stamps, c) }

  /**
   Fed the same calls, in order for each fault, with any windows and with times the stores keep exactly, the two
   stores hold the same rows up to the duplicate pointer and give every next such call the same number and the same
   deduplicated flag.
   */
  lemma {:induction false} StoresAgree(stamps: bool, calls: seq<Call>)
    requires InOrder(calls) && AllExact(stamps, calls)
    ensures Agree(Run(Jsonl, calls), Run(Sql(stamps), calls)) && Rising(Run(Jsonl, calls))
    ensures forall c :: InOrder(calls + [c]) && Exact(stamps, c)
              ==> SameAnswer(Register(Jsonl, Run(Jsonl, calls), c).answer,
                  Register(Sql(stamps), Run(Sql(stamps), calls), c).answer)
  {
    if calls != [] {
      var n := |calls| - 1;
      assert calls == calls[..n] + [calls[n]];
      assert calls[n] in calls;
      StoresAgree(stamps, calls[..n]);
      PrefixAgrees(stamps, calls[..n], calls[n]);
    }
    forall c | InOrder(calls + [c]) && Exact(stamps, c)
      ensures SameAnswer(Register(Jsonl, Run(Jsonl, calls), c).answer,
                Register(Sql(stamps), Run(Sql(stamps), calls), c).answer)
    {
      PrefixAgrees(stamps, calls, c);
    }
  }

  lemma PrefixAgrees(stamps: bool, calls: seq<Call>, c: Call)
    requires InOrder(calls + [c]) && Exact(stamps, c)
    requires Agree(Run(Jsonl, calls), Run(Sql(stamps), calls)) && Rising(Run(Jsonl, calls))
    ensures Agree(Run(Jsonl, calls + [c]), Run(Sql(stamps), calls + [c])) && Rising(Run(Jsonl, calls + [c]))
    ensures SameAnswer(Register(Jsonl, Run(Jsonl, calls), c).answer,
              Register(Sql(stamps), Run(Sql(stamps), calls), c).answer)
  {
    RunExtends(Jsonl, calls, c);
    RunExtends(Sql(stamps), calls, c);
    CatalogHolds(Jsonl, calls);
    CatalogHolds(Sql(stamps), calls);
    RunComesFrom(calls);
    InOrderNotBefore(calls, Run(Jsonl, calls), c);
    StepAgrees(stamps, Run(Jsonl, calls), Run(Sql(stamps), calls), c);
  }

  lemma SharedDuplicate(a: seq<Row>, b: seq<Row>, c: Call, r: Row) returns (twin: Row)
    requires Agree(a, b) && r in a && Duplicates(r, c)
    ensures twin in b && Duplicates(twin, c) && twin.number == r.number
  {
    twin := AgreeOnMembers(a, b, r);
  }

  /** n is the greatest number among the rows the call duplicates. */
  ghost predicate GreatestDuplicate(rows: seq<Row>, c: Call, n: nat) {
    && (exists r :: r in rows && Duplicates(r, c) && r.number == n)
    && forall r :: r in rows && Duplicates(r, c) ==> r.number <= n
  }

  ghost predicate HasDuplicate(rows: seq<Row>, c: Call) { exists r :: r in rows && Duplicates(r, c) }

  /** What the ORDER BY read settles on, told from rows that agree with the table's: the greatest number, or nothing. */
  lemma SqlChoiceOn(rows: seq<Row>, sql: seq<Row>, c: Call)
    requires Agree(rows, sql)
    ensures var s := FindDuplicate(OrderRows(sql), c);
            (s.Some? <==> HasDuplicate(rows, c)) && (s.Some? ==> GreatestDuplicate(rows, c, s.value.number))
  {
    var s := FindDuplicate(OrderRows(sql), c);
    FindDuplicateFinds(OrderRows(sql), c);
    ViewKeepsRows(Sql(true), sql);
    if HasDuplicate(rows, c) {
      var r :| r in rows && Duplicates(r, c);
      var twin := SharedDuplicate(rows, sql, c, r);
      assert twin in OrderRows(sql);
    }
    if s.Some? {
      SqlPicksLatest(sql, c);
      var twin := SharedDuplicate(sql, rows, c, s.value);
      forall r | r in rows && Duplicates(r, c) ensures r.number <= s.value.number {
        var other := SharedDuplicate(rows, sql, c, r);
      }
    }
  }

  lemma OneGreatest(rows: seq<Row>, c: Call, m: nat, n: nat)
    requires GreatestDuplicate(rows, c, m)
    ensures m == n <==> GreatestDuplicate(rows, c, n)
  {
  }

  lemma ScanFinds(rows: seq<Row>, c: Call)
    ensures FindDuplicate(rows, c).Some? <==> HasDuplicate(rows, c)
    ensures var j := FindDuplicate(rows, c); j.Some? ==> j.value in rows && Duplicates(j.value, c)
  {
    FindDuplicateFinds(rows, c);
  }

  /** In any arrival order: the next numbers agree exactly when the last stored duplicate has the greatest number. */
  lemma ChoiceAgreesIff(jsonl: seq<Row>, sql: seq<Row>, c: Call)
    requires Agree(jsonl, sql) && FindDuplicate(jsonl, c).Some?
    ensures var j, s := FindDuplicate(jsonl, c).value, FindDuplicate(OrderRows(sql), c);
            s.Some?
            && (j.number == s.value.number <==> forall r :: r in jsonl && Duplicates(r, c) ==> r.number <= j.number)
  {
    ScanFinds(jsonl, c);
    SqlChoiceOn(jsonl, sql, c);
    OneGreatest(jsonl, c, FindDuplicate(OrderRows(sql), c).value.number, FindDuplicate(jsonl, c).value.number);
  }

  // ----- any arrival order and any times, over whole runs -----

  /** The rows as a read of the table would return them. */
  function AsRead(stamps: bool, rows: seq<Row>): seq<Row> {
    seq(|rows|, i requires 0 <= i < |rows| => Stored(Sql(stamps), rows[i]))
  }

  /** The table holds, up to the duplicate pointer, what the file holds with its times read as the table's. */
  ghost predicate AgreeAsRead(stamps: bool, jsonl: seq<Row>, sql: seq<Row>) { Agree(AsRead(stamps, jsonl), sql) }

  /**
   The file's own scan for a new call, on the exact times, comes out as one on the times the table returns: both find
   something or neither does, and what the scan finds carries the greatest number among the duplicates by those times.
   */
  ghost predicate SettlesAsRead(stamps: bool, rows: seq<Row>, c: Call) {
    var base, cut := FindDuplicate(rows, c), AsRead(stamps, rows);
    Unregistered(rows, c) ==>
      && (base.Some? <==> HasDuplicate(cut, c))
      && (base.Some? ==> GreatestDuplicate(cut, c, base.value.number))
  }

  lemma {:induction false} AsReadKeepsNumbers(stamps: bool, rows: seq<Row>)
    ensures HighestNumber(AsRead(stamps, rows)) == HighestNumber(rows)
  {
    if rows != [] {
      var n := |rows| - 1;
      AsReadKeepsNumbers(stamps, rows[..n]);
      assert AsRead(stamps, rows)[..n] == AsRead(stamps, rows[..n]);
    }
  }

  lemma AsReadKeepsRequests(stamps: bool, rows: seq<Row>)
    ensures SameRequests(rows, AsRead(stamps, rows))
  {
  }

  lemma AsReadSnoc(stamps: bool, rows: seq<Row>, r: Row)
    ensures AsRead(stamps, rows + [r]) == AsRead(stamps, rows) + [Stored(Sql(stamps), r)]
  {
    hide Stored;
    var after := rows + [r];
    assert forall i :: 0 <= i < |rows| ==> after[i] == rows[i];
  }

  /** Two searches lead to the same row, as read, exactly when they settle on the same number or on none. */
  lemma AnswersAlikeIff(stamps: bool, jsonl: seq<Row>, sql: seq<Row>, j: Option<Row>, s: Option<Row>, c: Call)
    requires HighestNumber(jsonl) == HighestNumber(sql)
    ensures SameRow(Stored(Sql(stamps), AnswerRow(jsonl, j, c)), Stored(Sql(stamps), AnswerRow(sql, s, c)))
       <==> (j.Some? <==> s.Some?) && (j.Some? ==> j.value.number == s.value.number)
  {
  }

  /** For a new call and agreeing stores: the two searches settle alike exactly when the file's scan settles as read. */
  lemma SearchesAlikeIff(stamps: bool, jsonl: seq<Row>, sql: seq<Row>, c: Call)
    requires AgreeAsRead(stamps, jsonl, sql) && Unregistered(jsonl, c)
    ensures var j, s := FindDuplicate(jsonl, c), FindDuplicate(OrderRows(sql), c);
            && (SettlesAsRead(stamps, jsonl, c) <==>
                  (j.Some? <==> s.Some?) && (j.Some? ==> j.value.number == s.value.number))
  {
    hide OrderRows, FindDuplicate, Stored, AsRead;
    var j, s, cut := FindDuplicate(jsonl, c), FindDuplicate(OrderRows(sql), c), AsRead(stamps, jsonl);
    SqlChoiceOn(cut, sql, c);
    if j.Some? && s.Some? {
      OneGreatest(cut, c, s.value.number, j.value.number);
    }
  }

  lemma AsReadAgreesOnNew(stamps: bool, jsonl: seq<Row>, sql: seq<Row>, c: Call)
    requires AgreeAsRead(stamps, jsonl, sql)
    ensures HighestNumber(jsonl) == HighestNumber(sql) && (Unregistered(jsonl, c) <==> Unregistered(sql, c))
  {
    AsReadKeepsNumbers(stamps, jsonl);
    AsReadKeepsRequests(stamps, jsonl);
    RequestsInBoth(jsonl, AsRead(stamps, jsonl), c);
    AgreeOnHighest(AsRead(stamps, jsonl), sql);
    AgreeOnUnregistered(AsRead(stamps, jsonl), sql, c);
  }

  /** The number and the deduplicated flag a call is given. */
  ghost predicate SameVerdict(a: Option<Row>, b: Option<Row>) {
    (a.Some? <==> b.Some?) && (a.Some? ==> a.value.kind == b.value.kind && a.value.number == b.value.number)
  }

  lemma NewCallAgreesIff(stamps: bool, jsonl: seq<Row>, sql: seq<Row>, c: Call)
    requires AgreeAsRead(stamps, jsonl, sql) && Unregistered(jsonl, c)
    ensures var j, s := Register(Jsonl, jsonl, c), Register(Sql(stamps), sql, c);
            && (AgreeAsRead(stamps, j.rows, s.rows) <==> SettlesAsRead(stamps, jsonl, c))
            && (SameVerdict(j.answer, s.answer) <==> SettlesAsRead(stamps, jsonl, c))
  {
    var j, s := FindDuplicate(jsonl, c), FindDuplicate(OrderRows(sql), c);
    var x, y := AnswerRow(jsonl, j, c), AnswerRow(sql, s, c);
    AsReadAgreesOnNew(stamps, jsonl, sql, c);
    RegisterFresh(Jsonl, jsonl, c);
    RegisterFresh(Sql(stamps), sql, c);
    VerdictsAlikeIff(jsonl, sql, j, s, c);
    AnswersAlikeIff(stamps, jsonl, sql, j, s, c);
    hide Register, OrderRows, FindDuplicate, Stored, AnswerRow, SettlesAsRead;
    SearchesAlikeIff(stamps, jsonl, sql, c);
    AsReadSnoc(stamps, jsonl, x);
    AgreeSnoc(AsRead(stamps, jsonl), sql, Stored(Sql(stamps), x), Stored(Sql(stamps), y));
  }

  lemma VerdictsAlikeIff(jsonl: seq<Row>, sql: seq<Row>, j: Option<Row>, s: Option<Row>, c: Call)
    requires HighestNumber(jsonl) == HighestNumber(sql)
    ensures SameVerdict(Some(AnswerRow(jsonl, j, c)), Some(AnswerRow(sql, s, c)))
       <==> (j.Some? <==> s.Some?) && (j.Some? ==> j.value.number == s.value.number)
  {
  }

  /**
   One call on agreeing stores, with no condition on it: the stores still agree, and give the same number and flag,
   exactly when the file's scan settles as read.
   */
  lemma StepAgreesAsReadIff(stamps: bool, jsonl: seq<Row>, sql: seq<Row>, c: Call)
    requires AgreeAsRead(stamps, jsonl, sql) && UniqueRequests(jsonl)
    ensures var j, s := Register(Jsonl, jsonl, c), Register(Sql(stamps), sql, c);
            && (AgreeAsRead(stamps, j.rows, s.rows) <==> SettlesAsRead(stamps, jsonl, c))
            && (SameVerdict(j.answer, s.answer) <==> SettlesAsRead(stamps, jsonl, c))
  {
    AsReadAgreesOnNew(stamps, jsonl, sql, c);
    if Unregistered(jsonl, c) {
      NewCallAgreesIff(stamps, jsonl, sql, c);
    } else {
      RegisterStale(Jsonl, jsonl, c);
      RegisterStale(Sql(stamps), sql, c);
      if c.wellFormed {
        var a, b := Register(Jsonl, jsonl, c).answer.value, Register(Sql(stamps), sql, c).answer.value;
        OldAnswersAlike(stamps, jsonl, sql, a, b);
      }
    }
  }

  lemma OldAnswersAlike(stamps: bool, jsonl: seq<Row>, sql: seq<Row>, a: Row, b: Row)
    requires AgreeAsRead(stamps, jsonl, sql) && UniqueRequests(jsonl)
    requires a in jsonl && b in sql && a.requestId == b.requestId
    ensures SameVerdict(Some(a), Some(b))
  {
    var i :| 0 <= i < |sql| && sql[i] == b;
    var k :| 0 <= k < |jsonl| && jsonl[k] == a;
    assert SameRow(AsRead(stamps, jsonl)[i], sql[i]);
    assert jsonl[i].requestId == b.requestId;
  }

  lemma AgreeSnoc(a: seq<Row>, b: seq<Row>, x: Row, y: Row)
    requires |a| == |b|
    ensures Agree(a + [x], b + [y]) <==> Agree(a, b) && SameRow(x, y)
  {
    var p, q := a + [x], b + [y];
    assert p[|a|] == x && q[|a|] == y;
    assert forall i :: 0 <= i < |a| ==> p[i] == a[i] && q[i] == b[i];
  }

  ghost predicate SameRequests(a: seq<Row>, b: seq<Row>) {
    |a| == |b| && forall i :: 0 <= i < |a| ==> a[i].requestId == b[i].requestId
  }

  lemma RequestsInBoth(a: seq<Row>, b: seq<Row>, c: Call)
    requires SameRequests(a, b)
    ensures Unregistered(a, c) <==> Unregistered(b, c)
  {
    if !Unregistered(a, c) && c.wellFormed {
      var i :| 0 <= i < |a| && a[i].requestId == c.requestId;
      assert b[i] in b;
    }
    if !Unregistered(b, c) && c.wellFormed {
      var i :| 0 <= i < |b| && b[i].requestId == c.requestId;
      assert a[i] in a;
    }
  }

  /** The two stores register the same requests, whatever numbers they give. */
  lemma {:induction false} RunsShareRequests(stamps: bool, calls: seq<Call>)
    ensures SameRequests(Run(Jsonl, calls), Run(Sql(stamps), calls))
  {
    if calls != [] {
      var n := |calls| - 1;
      var jsonl, sql, c := Run(Jsonl, calls[..n]), Run(Sql(stamps), calls[..n]), calls[n];
      RunsShareRequests(stamps, calls[..n]);
      RequestsInBoth(jsonl, sql, c);
      if Unregistered(jsonl, c) {
        RegisterFresh(Jsonl, jsonl, c);
        RegisterFresh(Sql(stamps), sql, c);
      } else {
        RegisterStale(Jsonl, jsonl, c);
        RegisterStale(Sql(stamps), sql, c);
      }
    }
  }

  ghost predicate AllSettleAsRead(stamps: bool, calls: seq<Call>) {
    forall i :: 0 <= i < |calls| ==> SettlesAsRead(stamps, Run(Jsonl, calls[..i]), calls[i])
  }

  lemma AllSettleSnoc(stamps: bool, calls: seq<Call>)
    requires calls != []
    ensures var n := |calls| - 1;
            AllSettleAsRead(stamps, calls)
            <==> AllSettleAsRead(stamps, calls[..n]) && SettlesAsRead(stamps, Run(Jsonl, calls[..n]), calls[n])
  {
    hide SettlesAsRead;
    var front := calls[..|calls| - 1];
    forall i | 0 <= i < |front| ensures front[..i] == calls[..i] && front[i] == calls[i] {
    }
  }

  /** Stores that differ stay different: both append a row or neither does. */
  lemma StaysApart(stamps: bool, jsonl: seq<Row>, sql: seq<Row>, c: Call)
    requires SameRequests(jsonl, sql) && !AgreeAsRead(stamps, jsonl, sql)
    ensures !AgreeAsRead(stamps, Register(Jsonl, jsonl, c).rows, Register(Sql(stamps), sql, c).rows)
  {
    RequestsInBoth(jsonl, sql, c);
    if Unregistered(jsonl, c) {
      RegisterFresh(Jsonl, jsonl, c);
      RegisterFresh(Sql(stamps), sql, c);
      var x, y := AnswerRow(jsonl, FindDuplicate(jsonl, c), c), AnswerRow(sql, FindDuplicate(OrderRows(sql), c), c);
      hide Register, Agree, Stored, AnswerRow;
      AsReadSnoc(stamps, jsonl, x);
      AgreeSnoc(AsRead(stamps, jsonl), sql, Stored(Sql(stamps), x), Stored(Sql(stamps), y));
    } else {
      RegisterStale(Jsonl, jsonl, c);
      RegisterStale(Sql(stamps), sql, c);
    }
  }

  lemma NothingAgrees(stamps: bool)
    ensures AgreeAsRead(stamps, [], [])
  {
  }

  /**
   For every run, in any arrival order, with any windows and any times: the stores hold the same rows as read, up to the
   duplicate pointer, exactly when the file's scan settles as read at every call.
   */
  lemma {:induction false} RunsAgreeAsReadIff(stamps: bool, calls: seq<Call>)
    ensures AgreeAsRead(stamps, Run(Jsonl, calls), Run(Sql(stamps), calls)) <==> AllSettleAsRead(stamps, calls)
  {
    hide SettlesAsRead, AgreeAsRead, Register;
    if calls == [] {
      NothingAgrees(stamps);
    } else {
      var n := |calls| - 1;
      RunsAgreeAsReadIff(stamps, calls[..n]);
      AllSettleSnoc(stamps, calls);
      var jsonl, sql, c := Run(Jsonl, calls[..n]), Run(Sql(stamps), calls[..n]), calls[n];
      if AgreeAsRead(stamps, jsonl, sql) {
        CatalogHolds(Jsonl, calls[..n]);
        StepAgreesAsReadIff(stamps, jsonl, sql, c);
      } else {
        RunsShareRequests(stamps, calls[..n]);
        StaysApart(stamps, jsonl, sql, c);
      }
    }
  }

  /** The two stores answered call i, after the same calls, with the same number and flag. */
  ghost predicate AnsweredAlike(stamps: bool, calls: seq<Call>, i: nat)
    requires i < |calls|
  {
    SameVerdict(Register(Jsonl, Run(Jsonl, calls[..i]), calls[i]).answer,
                Register(Sql(stamps), Run(Sql(stamps), calls[..i]), calls[i]).answer)
  }

  /** Equivalently, every call of the run gets the same number and the same deduplicated flag from both stores. */
  lemma {:induction false} AnswersAgreeAsReadIff(stamps: bool, calls: seq<Call>)
    ensures (forall i: nat :: i < |calls| ==> AnsweredAlike(stamps, calls, i)) <==> AllSettleAsRead(stamps, calls)
  {
    hide SettlesAsRead, SameVerdict, Register, Run;
    forall i: nat | i < |calls| && AllSettleAsRead(stamps, calls[..i])
      ensures AnsweredAlike(stamps, calls, i) <==> SettlesAsRead(stamps, Run(Jsonl, calls[..i]), calls[i])
    {
      RunsAgreeAsReadIff(stamps, calls[..i]);
      CatalogHolds(Jsonl, calls[..i]);
      StepAgreesAsReadIff(stamps, Run(Jsonl, calls[..i]), Run(Sql(stamps), calls[..i]), calls[i]);
    }
    if !AllSettleAsRead(stamps, calls) {
      var i := FirstUnsettled(stamps, calls);
    }
    forall i: nat | i < |calls| && AllSettleAsRead(stamps, calls) ensures AllSettleAsRead(stamps, calls[..i]) {
      SettledPrefix(stamps, calls, i);
    }
  }

  lemma SettledPrefix(stamps: bool, calls: seq<Call>, i: nat)
    requires i <= |calls| && AllSettleAsRead(stamps, calls)
    ensures AllSettleAsRead(stamps, calls[..i])
  {
    hide SettlesAsRead;
    forall k | 0 <= k < i ensures calls[..i][..k] == calls[..k] {
    }
  }

  lemma {:induction false} FirstUnsettled(stamps: bool, calls: seq<Call>) returns (i: nat)
    requires !AllSettleAsRead(stamps, calls)
    ensures i < |calls| && AllSettleAsRead(stamps, calls[..i])
    ensures !SettlesAsRead(stamps, Run(Jsonl, calls[..i]), calls[i])
  {
    hide SettlesAsRead;
    var n := |calls| - 1;
    AllSettleSnoc(stamps, calls);
    if AllSettleAsRead(stamps, calls[..n]) {
      i := n;
    } else {
      i := FirstUnsettled(stamps, calls[..n]);
      assert calls[..n][..i] == calls[..i];
    }
  }

  // ----- times the stores keep exactly -----

  /** The call is answered from a stored duplicate only if the last stored one carries the greatest number. */
  ghost predicate Settles(rows: seq<Row>, c: Call) {
    var base := FindDuplicate(rows, c);
    Unregistered(rows, c) && base.Some? ==> forall r :: r in rows && Duplicates(r, c) ==> r.number <= base.value.number
  }

  ghost predicate AllSettle(calls: seq<Call>) {
    forall i :: 0 <= i < |calls| ==> Settles(Run(Jsonl, calls[..i]), calls[i])
  }

  lemma SettlesExactly(stamps: bool, rows: seq<Row>, c: Call)
    requires AsRead(stamps, rows) == rows
    ensures Settles(rows, c) <==> SettlesAsRead(stamps, rows, c)
  {
    ScanFinds(rows, c);
  }

  lemma ReadExactly(stamps: bool, calls: seq<Call>)
    requires AllExact(stamps, calls)
    ensures AsRead(stamps, Run(Jsonl, calls)) == Run(Jsonl, calls)
  {
    var rows := Run(Jsonl, calls);
    RunComesFrom(calls);
    forall i | 0 <= i < |rows| ensures Stored(Sql(stamps), rows[i]) == rows[i] {
      assert rows[i] in rows;
      var c :| c in calls && WrittenBy(rows[i], c);
      StoredExactly(stamps, c, rows[i]);
    }
  }

  /**
   In any arrival order, with any windows and with times the stores keep exactly: the stores hold the same rows up to
   the duplicate pointer exactly when, at every call answered from a stored duplicate, the last stored one carries
   the greatest number.
   */
  lemma RunsAgreeIff(stamps: bool, calls: seq<Call>)
    requires AllExact(stamps, calls)
    ensures Agree(Run(Jsonl, calls), Run(Sql(stamps), calls)) <==> AllSettle(calls)
  {
    hide Settles, SettlesAsRead, Run;
    RunsAgreeAsReadIff(stamps, calls);
    ReadExactly(stamps, calls);
    forall i | 0 <= i < |calls|
      ensures Settles(Run(Jsonl, calls[..i]), calls[i]) <==> SettlesAsRead(stamps, Run(Jsonl, calls[..i]), calls[i])
    {
      ReadExactly(stamps, calls[..i]);
      SettlesExactly(stamps, Run(Jsonl, calls[..i]), calls[i]);
    }
  }

  // ----- the duplicate pointer -----

  /** base is one of the rows the call duplicates, and none of them comes later in the table's order. */
  ghost predicate LatestDuplicate(rows: seq<Row>, c: Call, base: Row) {
    && (exists r :: r in rows && Duplicates(r, c) && r.requestId == base.requestId)
    && forall r :: r in rows && Duplicates(r, c) ==> NoLater(r, base)
  }

  /** The file's own scan for a new call settles on the very row a read of the table would settle on. */
  ghost predicate SettlesFully(stamps: bool, rows: seq<Row>, c: Call) {
    var base, cut := FindDuplicate(rows, c), AsRead(stamps, rows);
    Unregistered(rows, c) ==>
      && (base.Some? <==> HasDuplicate(cut, c))
      && (base.Some? ==> LatestDuplicate(cut, c, base.value))
  }

  /** The table holds what the file holds, pointers included, with its times read as the table's. */
  ghost predicate SameAsRead(stamps: bool, jsonl: seq<Row>, sql: seq<Row>) { AsRead(stamps, jsonl) == sql }

  lemma SqlSettlesOn(rows: seq<Row>, c: Call)
    ensures var s := FindDuplicate(OrderRows(rows), c);
            (s.Some? <==> HasDuplicate(rows, c)) && (s.Some? ==> s.value in rows && LatestDuplicate(rows, c, s.value))
  {
    var s := FindDuplicate(OrderRows(rows), c);
    FindDuplicateFinds(OrderRows(rows), c);
    ViewKeepsRows(Sql(true), rows);
    if s.Some? {
      SqlPicksLatest(rows, c);
    }
  }

  lemma OneLatest(rows: seq<Row>, c: Call, a: Row, b: Row)
    requires UniqueRequests(rows) && a in rows && b in rows && LatestDuplicate(rows, c, a)
    ensures a == b <==> LatestDuplicate(rows, c, b)
  {
    if LatestDuplicate(rows, c, b) {
      var x :| x in rows && Duplicates(x, c) && x.requestId == a.requestId;
      var y :| y in rows && Duplicates(y, c) && y.requestId == b.requestId;
      RequestNamesRow(rows, x, a);
      RequestNamesRow(rows, y, b);
      LexLeqAntisymmetric(a.requestId, b.requestId);
      RequestNamesRow(rows, a, b);
    }
  }

  lemma RequestNamesRow(rows: seq<Row>, a: Row, b: Row)
    requires UniqueRequests(rows) && a in rows && b in rows && a.requestId == b.requestId
    ensures a == b
  {
    var i :| 0 <= i < |rows| && rows[i] == a;
    var j :| 0 <= j < |rows| && rows[j] == b;
    assert i == j;
  }

  lemma AsReadHas(stamps: bool, rows: seq<Row>, r: Row)
    requires r in rows
    ensures Stored(Sql(stamps), r) in AsRead(stamps, rows)
  {
    var i :| 0 <= i < |rows| && rows[i] == r;
    assert AsRead(stamps, rows)[i] == Stored(Sql(stamps), r);
  }

  lemma AsReadKeepsUnique(stamps: bool, rows: seq<Row>)
    requires UniqueRequests(rows)
    ensures UniqueRequests(AsRead(stamps, rows))
  {
  }

  /** For a new call: both searches end in the same row, as read, exactly when the file's scan settles fully. */
  lemma SearchesMeetIff(stamps: bool, rows: seq<Row>, c: Call)
    requires UniqueRequests(rows) && Unregistered(rows, c)
    ensures var j, s := FindDuplicate(rows, c), FindDuplicate(OrderRows(AsRead(stamps, rows)), c);
            && (SettlesFully(stamps, rows, c) <==>
                  (j.Some? <==> s.Some?) && (j.Some? ==> Stored(Sql(stamps), j.value) == s.value))
            && (j.Some? && s.Some? ==>
                  (Stored(Sql(stamps), j.value) == s.value <==> j.value.requestId == s.value.requestId))
  {
    var cut := AsRead(stamps, rows);
    var j, s := FindDuplicate(rows, c), FindDuplicate(OrderRows(cut), c);
    SqlSettlesOn(cut, c);
    ScanFinds(rows, c);
    AsReadKeepsUnique(stamps, rows);
    hide OrderRows, FindDuplicate, AsRead, UniqueRequests;
    if j.Some? && s.Some? {
      var twin := Stored(Sql(stamps), j.value);
      AsReadHas(stamps, rows, j.value);
      OneLatest(cut, c, s.value, twin);
      LatestByColumns(cut, c, twin, j.value);
      if twin.requestId == s.value.requestId {
        RequestNamesRow(cut, twin, s.value);
      }
    }
  }

  lemma LatestByColumns(rows: seq<Row>, c: Call, a: Row, b: Row)
    requires a.number == b.number && a.now == b.now && a.requestId == b.requestId
    ensures LatestDuplicate(rows, c, a) <==> LatestDuplicate(rows, c, b)
  {
  }

  /** The number, the flag and the earlier request a call is answered with. */
  ghost predicate SameReference(a: Option<Row>, b: Option<Row>) {
    SameVerdict(a, b) && (a.Some? ==> a.value.duplicateOf == b.value.duplicateOf)
  }

  lemma AnswersMeetIff(stamps: bool, jsonl: seq<Row>, sql: seq<Row>, j: Option<Row>, s: Option<Row>, c: Call)
    requires HighestNumber(jsonl) == HighestNumber(sql)
    requires j.Some? && s.Some? ==>
        (Stored(Sql(stamps), j.value) == s.value <==> j.value.requestId == s.value.requestId)
    ensures var x, y := AnswerRow(jsonl, j, c), AnswerRow(sql, s, c);
            var meet := (j.Some? <==> s.Some?) && (j.Some? ==> Stored(Sql(stamps), j.value) == s.value);
            && (Stored(Sql(stamps), x) == Stored(Sql(stamps), y) <==> meet)
            && (SameReference(Some(x), Some(y)) <==> meet)
  {
  }

  lemma NewCallMeetsIff(stamps: bool, jsonl: seq<Row>, sql: seq<Row>, c: Call)
    requires SameAsRead(stamps, jsonl, sql) && UniqueRequests(jsonl) && Unregistered(jsonl, c)
    ensures var j, s := Register(Jsonl, jsonl, c), Register(Sql(stamps), sql, c);
            && (SameAsRead(stamps, j.rows, s.rows) <==> SettlesFully(stamps, jsonl, c))
            && (SameReference(j.answer, s.answer) <==> SettlesFully(stamps, jsonl, c))
  {
    var j, s := FindDuplicate(jsonl, c), FindDuplicate(OrderRows(sql), c);
    var x, y := AnswerRow(jsonl, j, c), AnswerRow(sql, s, c);
    AgreesWithItself(sql);
    AsReadAgreesOnNew(stamps, jsonl, sql, c);
    RegisterFresh(Jsonl, jsonl, c);
    RegisterFresh(Sql(stamps), sql, c);
    hide Register, OrderRows, FindDuplicate, Stored, AnswerRow, SettlesFully;
    SearchesMeetIff(stamps, jsonl, c);
    AnswersMeetIff(stamps, jsonl, sql, j, s, c);
    AsReadSnoc(stamps, jsonl, x);
    assert SameAsRead(stamps, jsonl + [x], sql + [Stored(Sql(stamps), y)])
      <==> Stored(Sql(stamps), x) == Stored(Sql(stamps), y) by {
      LastRowsDecide(sql, Stored(Sql(stamps), x), Stored(Sql(stamps), y));
    }
  }

  lemma AgreesWithItself(rows: seq<Row>)
    ensures Agree(rows, rows)
  {
  }

  lemma LastRowsDecide(rows: seq<Row>, x: Row, y: Row)
    ensures rows + [x] == rows + [y] <==> x == y
  {
    assert (rows + [x])[|rows|] == x && (rows + [y])[|rows|] == y;
  }

  /** One call on stores that hold the same: they still do, and answer alike to the pointer, iff it settles fully. */
  lemma StepMeetsIff(stamps: bool, jsonl: seq<Row>, sql: seq<Row>, c: Call)
    requires SameAsRead(stamps, jsonl, sql) && UniqueRequests(jsonl)
    ensures var j, s := Register(Jsonl, jsonl, c), Register(Sql(stamps), sql, c);
            && (SameAsRead(stamps, j.rows, s.rows) <==> SettlesFully(stamps, jsonl, c))
            && (SameReference(j.answer, s.answer) <==> SettlesFully(stamps, jsonl, c))
  {
    if Unregistered(jsonl, c) {
      NewCallMeetsIff(stamps, jsonl, sql, c);
    } else {
      AgreesWithItself(sql);
      AsReadAgreesOnNew(stamps, jsonl, sql, c);
      RegisterStale(Jsonl, jsonl, c);
      RegisterStale(Sql(stamps), sql, c);
      if c.wellFormed {
        var a, b := Register(Jsonl, jsonl, c).answer.value, Register(Sql(stamps), sql, c).answer.value;
        AsReadHas(stamps, jsonl, a);
        AsReadKeepsUnique(stamps, jsonl);
        RequestNamesRow(sql, Stored(Sql(stamps), a), b);
      }
    }
  }

  lemma StaysDifferent(stamps: bool, jsonl: seq<Row>, sql: seq<Row>, c: Call)
    requires SameRequests(jsonl, sql) && !SameAsRead(stamps, jsonl, sql)
    ensures !SameAsRead(stamps, Register(Jsonl, jsonl, c).rows, Register(Sql(stamps), sql, c).rows)
  {
    RequestsInBoth(jsonl, sql, c);
    if Unregistered(jsonl, c) {
      RegisterFresh(Jsonl, jsonl, c);
      RegisterFresh(Sql(stamps), sql, c);
      var x, y := AnswerRow(jsonl, FindDuplicate(jsonl, c), c), AnswerRow(sql, FindDuplicate(OrderRows(sql), c), c);
      hide Register, Stored, AnswerRow;
      AsReadSnoc(stamps, jsonl, x);
      var p, q := AsRead(stamps, jsonl) + [Stored(Sql(stamps), x)], sql + [Stored(Sql(stamps), y)];
      assert p[..|sql|] == AsRead(stamps, jsonl) && q[..|sql|] == sql;
    } else {
      RegisterStale(Jsonl, jsonl, c);
      RegisterStale(Sql(stamps), sql, c);
    }
  }

  ghost predicate AllSettleFully(stamps: bool, calls: seq<Call>) {
    forall i :: 0 <= i < |calls| ==> SettlesFully(stamps, Run(Jsonl, calls[..i]), calls[i])
  }

  lemma AllSettleFullySnoc(stamps: bool, calls: seq<Call>)
    requires calls != []
    ensures var n := |calls| - 1;
            AllSettleFully(stamps, calls)
            <==> AllSettleFully(stamps, calls[..n]) && SettlesFully(stamps, Run(Jsonl, calls[..n]), calls[n])
  {
    hide SettlesFully;
    var front := calls[..|calls| - 1];
    forall i | 0 <= i < |front| ensures front[..i] == calls[..i] && front[i] == calls[i] {
    }
  }

  /**
   For every run, in any arrival order, with any windows and any times: the table holds exactly what the file holds as
   read, the duplicate pointers included, exactly when at every call the file's last duplicate is the one of the
   greatest number, latest second and greatest request id.
   */
  lemma {:induction false} RunsMeetIff(stamps: bool, calls: seq<Call>)
    ensures SameAsRead(stamps, Run(Jsonl, calls), Run(Sql(stamps), calls)) <==> AllSettleFully(stamps, calls)
  {
    hide SettlesFully, SameAsRead, Register;
    if calls == [] {
      NothingDiffers(stamps);
    } else {
      var n := |calls| - 1;
      RunsMeetIff(stamps, calls[..n]);
      AllSettleFullySnoc(stamps, calls);
      var jsonl, sql, c := Run(Jsonl, calls[..n]), Run(Sql(stamps), calls[..n]), calls[n];
      if SameAsRead(stamps, jsonl, sql) {
        CatalogHolds(Jsonl, calls[..n]);
        StepMeetsIff(stamps, jsonl, sql, c);
      } else {
        RunsShareRequests(stamps, calls[..n]);
        StaysDifferent(stamps, jsonl, sql, c);
      }
    }
  }

  lemma NothingDiffers(stamps: bool)
    ensures SameAsRead(stamps, [], [])
  {
  }

  /** Requests of one fault are created in order of the second, and within one second in order of their ids. */
  ghost predicate CreatedInOrder(calls: seq<Call>) {
    forall i, j :: 0 <= i < j < |calls| && calls[i].fingerprint == calls[j].fingerprint
      ==> CreatedNoLater(calls[i].now, calls[i].requestId, calls[j].now, calls[j].requestId)
  }

  predicate CreatedNoLater(now: int, id: string, later: int, laterId: string) {
    now / SECOND <= later / SECOND && (now / SECOND == later / SECOND ==> LexLeq(id, laterId))
  }

  /** In append order, one fault's rows were created in order. */
  ghost predicate CreatedRising(rows: seq<Row>) {
    forall i, j :: 0 <= i < j < |rows| && rows[i].fingerprint == rows[j].fingerprint
      ==> CreatedNoLater(rows[i].now, rows[i].requestId, rows[j].now, rows[j].requestId)
  }

  lemma {:induction false} RunIsCreatedRising(calls: seq<Call>)
    requires CreatedInOrder(calls)
    ensures CreatedRising(Run(Jsonl, calls))
  {
    hide CreatedNoLater;
    if calls != [] {
      var n := |calls| - 1;
      var rows, c := Run(Jsonl, calls[..n]), calls[n];
      RunIsCreatedRising(calls[..n]);
      RunComesFrom(calls[..n]);
      if Unregistered(rows, c) {
        RegisterFresh(Jsonl, rows, c);
        var r := AnswerRow(rows, FindDuplicate(rows, c), c);
        hide Register, Run;
        forall i | 0 <= i < |rows| && rows[i].fingerprint == c.fingerprint
          ensures CreatedNoLater(rows[i].now, rows[i].requestId, c.now, c.requestId)
        {
          assert rows[i] in rows;
          var d :| d in calls[..n] && WrittenBy(rows[i], d);
          var k :| 0 <= k < n && calls[..n][k] == d;
          assert calls[k] == d;
        }
        assert r.now == c.now && r.requestId == c.requestId && r.fingerprint == c.fingerprint;
      } else {
        RegisterStale(Jsonl, rows, c);
      }
    }
  }

  /** On rows that rise in time, number and creation, the file's scan settles on the latest duplicate. */
  lemma RisingSettlesFully(rows: seq<Row>, c: Call)
    requires Rising(rows) && CreatedRising(rows) && FindDuplicate(rows, c).Some?
    ensures LatestDuplicate(rows, c, FindDuplicate(rows, c).value)
  {
    FindDuplicateFinds(rows, c);
    var base := FindDuplicate(rows, c).value;
    var i: nat :| LastDuplicateAt(rows, c, i) && rows[i] == base;
    forall r | r in rows && Duplicates(r, c) ensures NoLater(r, base) {
      var j :| 0 <= j < |rows| && rows[j] == r;
      LexLeqReflexive(r.requestId);
      assert j <= i;
    }
  }

  /**
   Fed the same calls, in order for each fault by occurrence and by creation, with any windows and with times the
   stores keep exactly, the two stores hold the very same rows: every occurrence points at the same earlier request.
   */
  lemma PointersAgree(stamps: bool, calls: seq<Call>)
    requires InOrder(calls) && CreatedInOrder(calls) && AllExact(stamps, calls)
    ensures Run(Jsonl, calls) == Run(Sql(stamps), calls)
  {
    hide SettlesFully, Run;
    forall i | 0 <= i < |calls| ensures SettlesFully(stamps, Run(Jsonl, calls[..i]), calls[i]) {
      PrefixSettlesFully(stamps, calls, i);
    }
    RunsMeetIff(stamps, calls);
    ReadExactly(stamps, calls);
  }

  lemma PrefixSettlesFully(stamps: bool, calls: seq<Call>, i: nat)
    requires InOrder(calls) && CreatedInOrder(calls) && AllExact(stamps, calls) && i < |calls|
    ensures SettlesFully(stamps, Run(Jsonl, calls[..i]), calls[i])
  {
    hide Run, Exact;
    var front := calls[..i];
    var rows := Run(Jsonl, front);
    StoresAgree(stamps, front);
    RunIsCreatedRising(front);
    ReadExactly(stamps, front);
    ScanFinds(rows, calls[i]);
    if FindDuplicate(rows, calls[i]).Some? {
      RisingSettlesFully(rows, calls[i]);
    }
  }

  // ----- runs on which the stores disagree -----

  /** The row a fresh call gets, read off the stored rows alone. */
  lemma SearchedRow(storage: Storage, rows: seq<Row>, c: Call)
    requires Unregistered(rows, c)
    ensures var o := Register(storage, rows, c);
            o.answer.Some? && o.rows == rows + [Stored(storage, o.answer.value)]
            && if exists r :: r in rows && Duplicates(r, c)
               then exists base :: base in rows && Duplicates(base, c) && o.answer.value == OccurrenceRow(base, c)
               else o.answer.value == EntryRow(HighestNumber(rows) + 1, c)
  {
    ViewKeepsRows(storage, rows);
    HonestSearch(View(storage, rows), rows, c);
    RegisterFresh(storage, rows, c);
  }

  /** Four calls of one fault with window 10: occurrences at 0, 16, then back at 5 and 10 seconds. */
  predicate OutOfOrder(a: Call, b: Call, c: Call, d: Call) {
    && a.wellFormed && b.wellFormed && c.wellFormed && d.wellFormed
    && a.fingerprint == b.fingerprint == c.fingerprint == d.fingerprint
    && a.window == b.window == c.window == d.window == 10
    && a.occurred == Some(0) && b.occurred == Some(16_000_000) && c.occurred == Some(5_000_000)
         && d.occurred == Some(10_000_000)
    && a.requestId != b.requestId && a.requestId != c.requestId && a.requestId != d.requestId
    && b.requestId != c.requestId && b.requestId != d.requestId && c.requestId != d.requestId
  }

  lemma FirstRow(storage: Storage, a: Call)
    requires a.wellFormed
    ensures Register(storage, [], a).rows == [Stored(storage, EntryRow(1, a))]
  {
    SearchedRow(storage, [], a);
  }

  lemma SecondRow(storage: Storage, a: Call, b: Call)
    requires b.wellFormed && a.requestId != b.requestId && !Duplicates(EntryRow(1, a), b)
              && AlertRate.WholeTime(b.occurred)
    ensures Register(storage, [EntryRow(1, a)], b).rows == [EntryRow(1, a), EntryRow(2, b)]
  {
    SearchedRow(storage, [EntryRow(1, a)], b);
  }

  lemma ThirdRow(storage: Storage, a: Call, b: Call, c: Call, d: Call)
    requires OutOfOrder(a, b, c, d)
    ensures var ra, rb := EntryRow(1, a), EntryRow(2, b);
            Register(storage, [ra, rb], c).rows == [ra, rb, OccurrenceRow(ra, c)]
  {
    var rows := [EntryRow(1, a), EntryRow(2, b)];
    assert Duplicates(rows[0], c) && !Duplicates(rows[1], c);
    SearchedRow(storage, rows, c);
  }

  lemma OutOfOrderRows(storage: Storage, a: Call, b: Call, c: Call, d: Call)
    requires OutOfOrder(a, b, c, d)
    ensures Run(storage, [a, b, c]) == [EntryRow(1, a), EntryRow(2, b), OccurrenceRow(EntryRow(1, a), c)]
  {
    RunOfThree(storage, a, b, c);
    FirstRow(storage, a);
    SecondRow(storage, a, b);
    ThirdRow(storage, a, b, c, d);
  }

  lemma JsonlPicksLast(rows: seq<Row>, d: Call)
    requires Unregistered(rows, d) && rows != [] && Duplicates(rows[|rows| - 1], d)
    ensures Register(Jsonl, rows, d).answer == Some(OccurrenceRow(rows[|rows| - 1], d))
  {
    RegisterFresh(Jsonl, rows, d);
  }

  lemma SqlAnswersGreatest(stamps: bool, rows: seq<Row>, d: Call, r: Row)
    requires Unregistered(rows, d) && r in rows && Duplicates(r, d)
    requires forall x :: x in rows && x != r ==> x.number < r.number
    ensures Register(Sql(stamps), rows, d).answer == Some(OccurrenceRow(r, d))
  {
    RegisterFresh(Sql(stamps), rows, d);
    ViewKeepsRows(Sql(stamps), rows);
    assert r in OrderRows(rows);
    FindDuplicateFinds(OrderRows(rows), d);
    SqlPicksLatest(rows, d);
  }

  /** Out of order, even with one fixed window and whole seconds, the stores disagree on the fourth call. */
  lemma DisagreeOutOfOrder(stamps: bool, a: Call, b: Call, c: Call, d: Call)
    requires OutOfOrder(a, b, c, d)
    ensures && Register(Jsonl, Run(Jsonl, [a, b, c]), d).answer.value.number == 1
            && Register(Sql(stamps), Run(Sql(stamps), [a, b, c]), d).answer.value.number == 2
  {
    OutOfOrderRows(Jsonl, a, b, c, d);
    OutOfOrderRows(Sql(stamps), a, b, c, d);
    hide Run, Register;
    FourthCall(stamps, a, b, c, d);
  }

  lemma FourthCall(stamps: bool, a: Call, b: Call, c: Call, d: Call)
    requires OutOfOrder(a, b, c, d)
    ensures var rows := [EntryRow(1, a), EntryRow(2, b), OccurrenceRow(EntryRow(1, a), c)];
            && Register(Jsonl, rows, d).answer == Some(OccurrenceRow(rows[2], d))
            && Register(Sql(stamps), rows, d).answer == Some(OccurrenceRow(rows[1], d))
  {
    hide Register;
    var rows := [EntryRow(1, a), EntryRow(2, b), OccurrenceRow(EntryRow(1, a), c)];
    JsonlPicksLast(rows, d);
    SqlAnswersGreatest(stamps, rows, d, rows[1]);
  }

  /**
   In order but with fractions: at 0.9 and 10.5 seconds, window 10, only the store that cuts times gives a second
   number.
   */
  lemma DisagreeOnFractions(a: Call, b: Call)
    requires a.wellFormed && b.wellFormed && a.fingerprint == b.fingerprint && a.requestId != b.requestId
    requires a.occurred == Some(900_000) && b.occurred == Some(10_500_000) && b.window == 10
    ensures Register(Jsonl, Run(Jsonl, [a]), b).answer.value.number == 1
    ensures Register(Sql(true), Run(Sql(true), [a]), b).answer.value.number == 2
  {
    assert [a] == [] + [a];
    RunExtends(Jsonl, [], a);
    RunExtends(Sql(true), [], a);
    FirstRow(Jsonl, a);
    FirstRow(Sql(true), a);
    hide Register;
    KeptFractionRepeats(a, b);
    CutFractionRenews(a, b);
  }

  lemma KeptFractionRepeats(a: Call, b: Call)
    requires b.wellFormed && a.fingerprint == b.fingerprint && a.requestId != b.requestId
    requires a.occurred == Some(900_000) && b.occurred == Some(10_500_000) && b.window == 10
    ensures Register(Jsonl, [EntryRow(1, a)], b).answer == Some(OccurrenceRow(EntryRow(1, a), b))
  {
    JsonlPicksLast([EntryRow(1, a)], b);
  }

  lemma CutFractionRenews(a: Call, b: Call)
    requires b.wellFormed && a.requestId != b.requestId
    requires a.occurred == Some(900_000) && b.occurred == Some(10_500_000) && b.window == 10
    ensures Register(Sql(true), [Stored(Sql(true), EntryRow(1, a))], b).answer == Some(EntryRow(2, b))
  {
    var cut := Stored(Sql(true), EntryRow(1, a));
    assert cut.occurred == Some(0) && !Duplicates(cut, b);
    assert [cut][..0] == [] && HighestNumber([cut]) == 1;
    SearchedRow(Sql(true), [cut], b);
  }
}
