/**
 The server-error catalog: a numbered log with a sliding deduplication window, kept either in a JSONL file (read in
 append order) or in an SQL table (read through an ORDER BY). One definition, `RegisterFrom`, says what a call does
 with the rows it has read; `Catalog` is the imperative form.
 */
module ErrorCatalog {
  import opened Text
  import opened Wrappers

  datatype RowKind = Entry | Occurrence

  /** `stamps` says that the table returns occurrence times as timestamps, which the read cuts to whole seconds. */
  datatype Storage = Sql(stamps: bool) | Jsonl

  /** Times are microseconds and windows seconds. */
  const SECOND := 1_000_000

  /** `occurred` is None when the occurrence text does not parse; `now` is the registering call's clock. */
  datatype Row = Row(kind: RowKind, number: nat, fingerprint: string, requestId: string,
                     duplicateOf: Option<string>, occurred: Option<int>, now: int, window: int)

  /** One call; `wellFormed` is the verdict of the request and row validators. */
  datatype Call = Call(requestId: string, fingerprint: string, occurred: Option<int>, now: int, window: int,
                       wellFormed: bool)

  datatype Outcome = Outcome(rows: seq<Row>, answer: Option<Row>)

  // ----- reading the store -----

  /** The creation time as recorded, in whole seconds. */
  function Created(r: Row): int { r.now / SECOND }

  /** ORDER BY error_number, created_at_utc, request_id. */
  predicate OrderedBefore(a: Row, b: Row) {
    a.number < b.number
    || (a.number == b.number && Created(a) < Created(b))
    || (a.number == b.number && Created(a) == Created(b) && LexLeq(a.requestId, b.requestId))
  }

  function InsertOrdered(r: Row, sorted: seq<Row>): seq<Row> {
    if sorted == [] || OrderedBefore(r, sorted[0]) then [r] + sorted
    else [sorted[0]] + InsertOrdered(r, sorted[1..])
  }

  function OrderRows(rows: seq<Row>): seq<Row> {
    if rows == [] then [] else InsertOrdered(rows[0], OrderRows(rows[1..]))
  }

  function View(storage: Storage, rows: seq<Row>): seq<Row> {
    if storage.Sql? then OrderRows(rows) else rows
  }

  ghost predicate Ordered(rows: seq<Row>) {
    forall i :: 0 <= i < |rows| - 1 ==> OrderedBefore(rows[i], rows[i + 1])
  }

  lemma {:induction false} InsertOrderedCorrect(r: Row, sorted: seq<Row>)
    requires Ordered(sorted)
    ensures Ordered(InsertOrdered(r, sorted))
    ensures multiset(InsertOrdered(r, sorted)) == multiset{r} + multiset(sorted)
  {
    if sorted == [] || OrderedBefore(r, sorted[0]) {
    } else {
      LexLeqTotal(r.requestId, sorted[0].requestId);
      var rest := sorted[1..];
      assert Ordered(rest) by {
        forall i | 0 <= i < |rest| - 1 ensures OrderedBefore(rest[i], rest[i + 1]) {
          assert rest[i] == sorted[i + 1] && rest[i + 1] == sorted[i + 2];
        }
      }
      InsertOrderedCorrect(r, rest);
      assert sorted == [sorted[0]] + rest;
      var tail := InsertOrdered(r, rest);
      assert tail[0] == r || (rest != [] && tail[0] == rest[0] == sorted[1]);
    }
  }

  /**
   A later row has no smaller number, at one number no earlier second of creation, and at one number and second no
   smaller request id.
   */
  ghost predicate NoLater(a: Row, b: Row) {
    && a.number <= b.number
    && (a.number == b.number ==> a.now / SECOND <= b.now / SECOND)
    && (a.number == b.number && a.now / SECOND == b.now / SECOND ==> LexLeq(a.requestId, b.requestId))
  }

  lemma {:induction false} RowsFollow(rows: seq<Row>, i: nat, j: nat)
    requires Ordered(rows) && i <= j < |rows|
    ensures NoLater(rows[i], rows[j])
    decreases j - i
  {
    LexLeqReflexive(rows[i].requestId);
    if i < j {
      RowsFollow(rows, i + 1, j);
      assert OrderedBefore(rows[i], rows[i + 1]);
      if LexLeq(rows[i].requestId, rows[i + 1].requestId) && LexLeq(rows[i + 1].requestId, rows[j].requestId) {
        LexLeqTransitive(rows[i].requestId, rows[i + 1].requestId, rows[j].requestId);
      }
    }
  }

  lemma {:induction false} OrderRowsOrders(rows: seq<Row>)
    ensures Ordered(OrderRows(rows))
    ensures multiset(OrderRows(rows)) == multiset(rows)
  {
    if rows != [] {
      OrderRowsOrders(rows[1..]);
      InsertOrderedCorrect(rows[0], OrderRows(rows[1..]));
      assert rows == [rows[0]] + rows[1..];
    }
  }

  /**
   What the ORDER BY read returns: the stored rows, each once, by rising number, at one number by rising second of
   creation, and at one second by rising request id.
   */
  lemma OrderRowsCorrect(rows: seq<Row>)
    ensures multiset(OrderRows(rows)) == multiset(rows)
    ensures forall i, j :: 0 <= i < j < |OrderRows(rows)| ==> NoLater(OrderRows(rows)[i], OrderRows(rows)[j])
  {
    OrderRowsOrders(rows);
    forall i, j | 0 <= i < j < |OrderRows(rows)| ensures NoLater(OrderRows(rows)[i], OrderRows(rows)[j]) {
      RowsFollow(OrderRows(rows), i, j);
    }
  }

  lemma ViewKeepsRows(storage: Storage, rows: seq<Row>)
    ensures multiset(View(storage, rows)) == multiset(rows)
    ensures |View(storage, rows)| == |rows|
    ensures forall r :: r in View(storage, rows) <==> r in rows
  {
    OrderRowsCorrect(rows);
    var v := View(storage, rows);
    assert |multiset(v)| == |v| && |multiset(rows)| == |rows|;
    forall r ensures r in v <==> r in rows {
      assert r in v <==> r in multiset(v);
      assert r in rows <==> r in multiset(rows);
    }
  }

  // ----- the decision -----

  function Abs(x: int): int { if x < 0 then -x else x }

  function Current(c: Call): int { c.occurred.GetOr(c.now) }

  predicate WithinWindow(r: Row, current: int, window: int) {
    r.occurred.Some? && Abs(current - r.occurred.value) <= window * SECOND
  }

  predicate Duplicates(r: Row, c: Call) {
    r.fingerprint == c.fingerprint && WithinWindow(r, Current(c), c.window)
  }

  /** The first row carrying the request id. */
  function FindRequest(view: seq<Row>, requestId: string): Option<Row> {
    if view == [] then None
    else if view[0].requestId == requestId then Some(view[0])
    else FindRequest(view[1..], requestId)
  }

  /** The last row, scanning backwards, that the call duplicates. */
  function FindDuplicate(view: seq<Row>, c: Call): Option<Row> {
    if view == [] then None
    else
      var n := |view| - 1;
      if Duplicates(view[n], c) then Some(view[n]) else FindDuplicate(view[..n], c)
  }

  function HighestNumber(view: seq<Row>): nat {
    if view == [] then 0
    else
      var n := |view| - 1;
      var below := HighestNumber(view[..n]);
      if view[n].number > below then view[n].number else below
  }

  lemma {:induction false} FindRequestFinds(view: seq<Row>, requestId: string)
    ensures match FindRequest(view, requestId)
            case Some(r) => r in view && r.requestId == requestId
            case None => forall r :: r in view ==> r.requestId != requestId
  {
    if view != [] && view[0].requestId != requestId {
      FindRequestFinds(view[1..], requestId);
      assert view == [view[0]] + view[1..];
    }
  }

  /** Position i holds a row the call duplicates, and no later position does. */
  ghost predicate LastDuplicateAt(view: seq<Row>, c: Call, i: nat) {
    i < |view| && Duplicates(view[i], c) && forall j :: i < j < |view| ==> !Duplicates(view[j], c)
  }

  lemma {:induction false} FindDuplicateFinds(view: seq<Row>, c: Call)
    ensures match FindDuplicate(view, c)
            case Some(r) => exists i: nat :: LastDuplicateAt(view, c, i) && view[i] == r
            case None => forall r :: r in view ==> !Duplicates(r, c)
  {
    if view != [] {
      var n := |view| - 1;
      assert view == view[..n] + [view[n]];
      if Duplicates(view[n], c) {
        assert LastDuplicateAt(view, c, n);
      } else {
        FindDuplicateFinds(view[..n], c);
        if FindDuplicate(view[..n], c).Some? {
          var i: nat :| LastDuplicateAt(view[..n], c, i) && view[..n][i] == FindDuplicate(view[..n], c).value;
          assert LastDuplicateAt(view, c, i);
        }
      }
    }
  }

  lemma {:induction false} HighestIsGreatest(view: seq<Row>)
    ensures forall r :: r in view ==> r.number <= HighestNumber(view)
    ensures HighestNumber(view) == 0 || exists r :: r in view && r.number == HighestNumber(view)
  {
    if view != [] {
      var n := |view| - 1;
      assert view == view[..n] + [view[n]];
      HighestIsGreatest(view[..n]);
      assert view[n] in view;
    }
  }

  function EntryRow(number: nat, c: Call): Row {
    Row(Entry, number, c.fingerprint, c.requestId, None, c.occurred, c.now, c.window)
  }

  function OccurrenceRow(base: Row, c: Call): Row {
    Row(Occurrence, base.number, c.fingerprint, c.requestId, Some(base.requestId), c.occurred, c.now, c.window)
  }

  function WholeSeconds(t: int): int { t / SECOND * SECOND }

  /** The row as every later read returns it. */
  function Stored(storage: Storage, r: Row): Row {
    if storage.Sql? && storage.stamps && r.occurred.Some? then r.(occurred := Some(WholeSeconds(r.occurred.value)))
    else r
  }

  predicate SameKey(a: Row, b: Row) { a.kind == b.kind && a.requestId == b.requestId }

  /** INSERT ... ON CONFLICT (catalog_row_id) DO UPDATE, the id being an injective digest of kind and request. */
  function Upsert(rows: seq<Row>, r: Row): seq<Row> {
    if rows == [] then [r]
    else if SameKey(rows[0], r) then [r] + rows[1..]
    else [rows[0]] + Upsert(rows[1..], r)
  }

  function Persist(storage: Storage, rows: seq<Row>, r: Row): seq<Row> {
    if storage.Sql? then Upsert(rows, r) else rows + [r]
  }

  /** A call that has read `view` and writes to a store that now holds `rows`. */
  function RegisterFrom(storage: Storage, rows: seq<Row>, view: seq<Row>, c: Call): Outcome {
    if !c.wellFormed then Outcome(rows, None)
    else
      var existing := FindRequest(view, c.requestId);
      if existing.Some? then Outcome(rows, existing)
      else
        var base := FindDuplicate(view, c);
        var row := if base.Some? then OccurrenceRow(base.value, c) else EntryRow(HighestNumber(view) + 1, c);
        Outcome(Persist(storage, rows, Stored(storage, row)), Some(row))
  }

  function Register(storage: Storage, rows: seq<Row>, c: Call): Outcome {
    RegisterFrom(storage, rows, View(storage, rows), c)
  }

  function Run(storage: Storage, calls: seq<Call>): seq<Row> {
    if calls == [] then []
    else
      var n := |calls| - 1;
      Register(storage, Run(storage, calls[..n]), calls[n]).rows
  }

  lemma RunExtends(storage: Storage, calls: seq<Call>, c: Call)
    ensures Run(storage, calls + [c]) == Register(storage, Run(storage, calls), c).rows
  {
    assert (calls + [c])[..|calls|] == calls;
  }

  lemma RunOfThree(storage: Storage, a: Call, b: Call, c: Call)
    ensures Run(storage, [a, b, c])
         == Register(storage, Register(storage, Register(storage, [], a).rows, b).rows, c).rows
  {
    assert [a, b, c] == [a, b] + [c] && [a, b] == [a] + [b] && [a] == [] + [a];
    RunExtends(storage, [a, b], c);
    RunExtends(storage, [a], b);
    RunExtends(storage, [], a);
  }

  // ----- the catalog invariant -----

  function EntryNumbers(rows: seq<Row>): seq<nat> {
    if rows == [] then []
    else
      var n := |rows| - 1;
      EntryNumbers(rows[..n]) + if rows[n].kind.Entry? then [rows[n].number] else []
  }

  ghost predicate UniqueRequests(rows: seq<Row>) {
    forall i, j :: 0 <= i < j < |rows| ==> rows[i].requestId != rows[j].requestId
  }

  /** Row i is an occurrence of row j: the same fault and number, j within i's own window. */
  ghost predicate LinksTo(rows: seq<Row>, i: nat, j: nat)
    requires i < |rows| && j < |rows|
  {
    && rows[i].duplicateOf == Some(rows[j].requestId)
    && rows[i].fingerprint == rows[j].fingerprint
    && rows[i].number == rows[j].number
    && WithinWindow(rows[j], rows[i].occurred.GetOr(rows[i].now), rows[i].window)
  }

  ghost predicate Linked(rows: seq<Row>, i: nat)
    requires i < |rows|
  {
    if rows[i].kind.Entry? then rows[i].duplicateOf.None? else exists j: nat :: j < i && LinksTo(rows, i, j)
  }

  ghost predicate AllLinked(rows: seq<Row>) {
    forall i: nat :: i < |rows| ==> Linked(rows, i)
  }

  /** The entries carry exactly the numbers 1..n, in order, and no row carries more. */
  ghost predicate Numbered(rows: seq<Row>) {
    && (forall k :: 0 <= k < |EntryNumbers(rows)| ==> EntryNumbers(rows)[k] == k + 1)
    && HighestNumber(rows) == |EntryNumbers(rows)|
  }

  ghost predicate AsStored(storage: Storage, rows: seq<Row>) { forall r :: r in rows ==> Stored(storage, r) == r }

  ghost predicate CatalogInv(storage: Storage, rows: seq<Row>) {
    UniqueRequests(rows) && AllLinked(rows) && Numbered(rows) && AsStored(storage, rows)
  }

  lemma {:induction false} UpsertAppends(rows: seq<Row>, r: Row)
    requires forall x :: x in rows ==> !SameKey(x, r)
    ensures Upsert(rows, r) == rows + [r]
  {
    if rows != [] {
      UpsertAppends(rows[1..], r);
      assert rows == [rows[0]] + rows[1..];
    }
  }

  /** A valid call whose request id no stored row carries. */
  ghost predicate Unregistered(rows: seq<Row>, c: Call) {
    c.wellFormed && forall r :: r in rows ==> r.requestId != c.requestId
  }

  ghost predicate SameMembers(view: seq<Row>, rows: seq<Row>) {
    forall r :: r in view <==> r in rows
  }

  /** What an honest read finds for an unregistered call: a stored row it duplicates, or none at all. */
  lemma HonestSearch(view: seq<Row>, rows: seq<Row>, c: Call)
    requires SameMembers(view, rows)
    ensures HighestNumber(view) == HighestNumber(rows)
    ensures FindRequest(view, c.requestId).None? <==> forall r :: r in rows ==> r.requestId != c.requestId
    ensures var base := FindDuplicate(view, c);
            if base.Some? then base.value in rows && Duplicates(base.value, c)
            else forall r :: r in rows ==> !Duplicates(r, c)
  {
    HighestIsGreatest(view);
    HighestIsGreatest(rows);
    FindRequestFinds(view, c.requestId);
    FindDuplicateFinds(view, c);
  }

  function AnswerRow(rows: seq<Row>, base: Option<Row>, c: Call): Row {
    if base.Some? then OccurrenceRow(base.value, c) else EntryRow(HighestNumber(rows) + 1, c)
  }

  lemma RegisterFromFresh(storage: Storage, rows: seq<Row>, view: seq<Row>, c: Call)
    requires SameMembers(view, rows) && Unregistered(rows, c)
    ensures var r := AnswerRow(rows, FindDuplicate(view, c), c);
            RegisterFrom(storage, rows, view, c) == Outcome(rows + [Stored(storage, r)], Some(r))
  {
    HonestSearch(view, rows, c);
    UpsertAppends(rows, Stored(storage, AnswerRow(rows, FindDuplicate(view, c), c)));
  }

  /** A fresh call appends exactly its own row, after every stored row: the upsert overwrites none. */
  lemma RegisterFresh(storage: Storage, rows: seq<Row>, c: Call)
    requires Unregistered(rows, c)
    ensures var r := AnswerRow(rows, FindDuplicate(View(storage, rows), c), c);
            Register(storage, rows, c) == Outcome(rows + [Stored(storage, r)], Some(r))
  {
    ViewKeepsRows(storage, rows);
    RegisterFromFresh(storage, rows, View(storage, rows), c);
  }

  /** Any other call changes nothing; a valid one is answered with a stored row of its request id. */
  lemma RegisterStale(storage: Storage, rows: seq<Row>, c: Call)
    requires !Unregistered(rows, c)
    ensures var o := Register(storage, rows, c);
            o.rows == rows && (o.answer.Some? <==> c.wellFormed)
            && (o.answer.Some? ==> o.answer.value in rows && o.answer.value.requestId == c.requestId)
  {
    ViewKeepsRows(storage, rows);
    FindRequestFinds(View(storage, rows), c.requestId);
  }

  lemma AppendKeepsLinks(rows: seq<Row>, r: Row, i: nat)
    requires i < |rows| && Linked(rows, i)
    ensures Linked(rows + [r], i)
  {
    if rows[i].kind.Occurrence? {
      var j: nat :| j < i && LinksTo(rows, i, j);
      assert LinksTo(rows + [r], i, j);
    }
  }

  predicate NextNumber(rows: seq<Row>, r: Row) {
    if r.kind.Entry? then r.number == HighestNumber(rows) + 1 else r.number <= HighestNumber(rows)
  }

  lemma AppendKeepsNumbered(rows: seq<Row>, r: Row)
    requires Numbered(rows) && NextNumber(rows, r)
    ensures Numbered(rows + [r])
  {
    var after := rows + [r];
    assert after[..|rows|] == rows && after[|rows|] == r;
    assert EntryNumbers(after) == EntryNumbers(rows) + if r.kind.Entry? then [r.number] else [];
    assert HighestNumber(after) == if r.number > HighestNumber(rows) then r.number else HighestNumber(rows);
  }

  lemma AppendKeepsAllLinks(rows: seq<Row>, r: Row)
    requires AllLinked(rows) && Linked(rows + [r], |rows|)
    ensures AllLinked(rows + [r])
  {
    forall i: nat | i < |rows + [r]| ensures Linked(rows + [r], i) {
      if i < |rows| {
        AppendKeepsLinks(rows, r, i);
      }
    }
  }

  /** Between whole seconds, cutting one time to its second keeps the distance within a whole number of seconds. */
  lemma CutStaysWithin(current: int, whole: int, window: int)
    requires whole % SECOND == 0 && Abs(current - whole) <= window * SECOND
    ensures Abs(WholeSeconds(current) - whole) <= window * SECOND
  {
    var a, b := current / SECOND, whole / SECOND;
    assert whole == b * SECOND && a * SECOND <= current < a * SECOND + SECOND;
  }

  lemma OccurrenceLinks(storage: Storage, rows: seq<Row>, base: Row, c: Call)
    requires base in rows && Duplicates(base, c) && AsStored(storage, rows)
    ensures Linked(rows + [Stored(storage, OccurrenceRow(base, c))], |rows|)
  {
    var j: nat :| j < |rows| && rows[j] == base;
    var r := Stored(storage, OccurrenceRow(base, c));
    if storage.Sql? && storage.stamps && c.occurred.Some? {
      assert Stored(storage, base) == base;
      CutStaysWithin(c.occurred.value, base.occurred.value, c.window);
    }
    assert LinksTo(rows + [r], |rows|, j);
  }

  lemma AppendKeepsUnique(rows: seq<Row>, r: Row)
    requires UniqueRequests(rows) && forall x :: x in rows ==> x.requestId != r.requestId
    ensures UniqueRequests(rows + [r])
  {
    var after := rows + [r];
    forall i, j | 0 <= i < j < |after| ensures after[i].requestId != after[j].requestId {
      if j == |rows| {
        assert after[i] in rows;
      }
    }
  }

  lemma AppendKeepsInv(storage: Storage, rows: seq<Row>, r: Row)
    requires CatalogInv(storage, rows) && Stored(storage, r) == r
    requires forall x :: x in rows ==> x.requestId != r.requestId
    requires Linked(rows + [r], |rows|)
    requires NextNumber(rows, r)
    ensures CatalogInv(storage, rows + [r])
  {
    AppendKeepsNumbered(rows, r);
    AppendKeepsUnique(rows, r);
    AppendKeepsAllLinks(rows, r);
  }

  lemma StoredTwice(storage: Storage, r: Row)
    ensures Stored(storage, Stored(storage, r)) == Stored(storage, r)
  {
  }

  lemma RegisterKeepsInv(storage: Storage, rows: seq<Row>, c: Call)
    requires CatalogInv(storage, rows)
    ensures CatalogInv(storage, Register(storage, rows, c).rows)
  {
    if Unregistered(rows, c) {
      var view := View(storage, rows);
      ViewKeepsRows(storage, rows);
      HonestSearch(view, rows, c);
      RegisterFresh(storage, rows, c);
      var r := Stored(storage, AnswerRow(rows, FindDuplicate(view, c), c));
      if r.kind.Occurrence? {
        OccurrenceLinks(storage, rows, FindDuplicate(view, c).value, c);
        HighestIsGreatest(rows);
      }
      StoredTwice(storage, AnswerRow(rows, FindDuplicate(view, c), c));
      AppendKeepsInv(storage, rows, r);
    } else {
      RegisterStale(storage, rows, c);
    }
  }

  /** Every run of calls, on either store, keeps the catalog invariant. */
  lemma {:induction false} CatalogHolds(storage: Storage, calls: seq<Call>)
    ensures CatalogInv(storage, Run(storage, calls))
  {
    if calls != [] {
      var n := |calls| - 1;
      CatalogHolds(storage, calls[..n]);
      RegisterKeepsInv(storage, Run(storage, calls[..n]), calls[n]);
    }
  }

  /** Resubmitting any registered request changes nothing and gives the first answer again. */
  lemma ResubmissionIsIdempotent(storage: Storage, calls: seq<Call>, i: nat, again: Call)
    requires i < |Run(storage, calls)| && again.requestId == Run(storage, calls)[i].requestId && again.wellFormed
    ensures Run(storage, calls + [again]) == Run(storage, calls)
    ensures Register(storage, Run(storage, calls), again).answer == Some(Run(storage, calls)[i])
  {
    var rows := Run(storage, calls);
    CatalogHolds(storage, calls);
    assert rows[i] in rows;
    RegisterStale(storage, rows, again);
    assert (calls + [again])[..|calls|] == calls;
    var answer := Register(storage, rows, again).answer.value;
    var j :| 0 <= j < |rows| && rows[j] == answer;
    assert i == j;
  }

  /** A path of row positions, each the `duplicate_of_request_id` of the one before. */
  ghost predicate ChainToEntry(rows: seq<Row>, i: nat, path: seq<nat>) {
    && path != [] && path[0] == i
    && (forall k :: 0 <= k < |path| ==> path[k] < |rows|)
    && (forall k :: 0 <= k < |path| - 1 ==> path[k + 1] < path[k] && LinksTo(rows, path[k], path[k + 1]))
    && var last := rows[path[|path| - 1]];
       last.kind.Entry? && last.fingerprint == rows[i].fingerprint && last.number == rows[i].number
  }

  /** Following the duplicate reference from any row reaches an entry of the same fault and number. */
  lemma {:induction false} ChainReachesEntry(storage: Storage, rows: seq<Row>, i: nat) returns (path: seq<nat>)
    requires CatalogInv(storage, rows) && i < |rows|
    ensures ChainToEntry(rows, i, path)
    decreases i
  {
    assert Linked(rows, i);
    if rows[i].kind.Entry? {
      path := [i];
    } else {
      var j: nat :| j < i && LinksTo(rows, i, j);
      var rest := ChainReachesEntry(storage, rows, j);
      path := [i] + rest;
      forall k | 0 <= k < |path| - 1 ensures path[k + 1] < path[k] && LinksTo(rows, path[k], path[k + 1]) {
        if k > 0 {
          assert path[k] == rest[k - 1] && path[k + 1] == rest[k];
        }
      }
    }
  }

  // ----- the imperative form -----

  /** One catalog store together with the calls that read and write it under the lock. */
  class Catalog {
    const storage: Storage
    var rows: seq<Row>

    constructor (storage: Storage)
      ensures this.storage == storage && rows == []
    {
      this.storage := storage;
      rows := [];
    }

    /** Scans forward for the request id. */
    static method FindExisting(view: seq<Row>, requestId: string) returns (found: Option<Row>)
      ensures found == FindRequest(view, requestId)
    {
      var i := 0;
      while i < |view|
        invariant 0 <= i <= |view|
        invariant FindRequest(view, requestId) == FindRequest(view[i..], requestId)
      {
        if view[i].requestId == requestId {
          return Some(view[i]);
        }
        assert view[i..][1..] == view[i + 1..];
        i := i + 1;
      }
      return None;
    }

    /** Scans backward for the latest row inside the window. */
    static method FindDuplicateBase(view: seq<Row>, c: Call) returns (found: Option<Row>)
      ensures found == FindDuplicate(view, c)
    {
      var i := |view|;
      assert view[..i] == view;
      while i > 0
        invariant 0 <= i <= |view|
        invariant FindDuplicate(view, c) == FindDuplicate(view[..i], c)
      {
        i := i - 1;
        assert view[..i + 1][..i] == view[..i];
        if Duplicates(view[i], c) {
          return Some(view[i]);
        }
      }
      return None;
    }

    static method LatestNumber(view: seq<Row>) returns (n: nat)
      ensures n == HighestNumber(view)
    {
      n := 0;
      for i := 0 to |view|
        invariant n == HighestNumber(view[..i])
      {
        assert view[..i + 1][..i] == view[..i];
        if view[i].number > n {
          n := view[i].number;
        }
      }
      assert view[..|view|] == view;
    }

    method RegisterError(c: Call) returns (answer: Option<Row>)
      modifies this`rows
      ensures Outcome(rows, answer) == Register(storage, old(rows), c)
    {
      var view := View(storage, rows);
      if !c.wellFormed {
        return None;
      }
      var existing := FindExisting(view, c.requestId);
      if existing.Some? {
        return existing;
      }
      var base := FindDuplicateBase(view, c);
      var row;
      if base.Some? {
        row := OccurrenceRow(base.value, c);
      } else {
        var n := LatestNumber(view);
        row := EntryRow(n + 1, c);
      }
      rows := Persist(storage, rows, Stored(storage, row));
      return Some(row);
    }
  }
}
