/** How many numbers one fault can burn over whole runs of the error catalog. */
module AlertRate {
  import opened Wrappers
  import opened ErrorCatalog

  /** Positions of the entries of one fault whose occurrence time lies in [low, high]. */
  ghost function EntriesIn(rows: seq<Row>, fingerprint: string, low: int, high: int): set<nat> {
    set i: nat | i < |rows| && rows[i].kind.Entry? && rows[i].fingerprint == fingerprint
                 && rows[i].occurred.Some? && low <= rows[i].occurred.value <= high
  }

  /** An entry is at least `gap` from every earlier row of its fault, in either direction of time. */
  ghost predicate Apart(rows: seq<Row>, gap: int) {
    forall i, j :: 0 <= i < j < |rows| && rows[j].kind.Entry? && rows[i].fingerprint == rows[j].fingerprint
                   && rows[i].occurred.Some? && rows[j].occurred.Some?
      ==> Abs(rows[j].occurred.value - rows[i].occurred.value) >= gap
  }

  predicate WholeTime(occurred: Option<int>) { occurred.Some? ==> occurred.value % SECOND == 0 }

  predicate WholeTimes(calls: seq<Call>) { forall c :: c in calls ==> WholeTime(c.occurred) }

  /**
   How far apart, in microseconds, the stored times of one fault's entries must lie: a full second more than the
   window when all times are whole seconds, just more than the window in a store that keeps fractions, and the window
   otherwise.
   */
  function Gap(storage: Storage, whole: bool, w: nat): nat {
    if whole then (w + 1) * SECOND else if storage.Sql? && storage.stamps then w * SECOND else w * SECOND + 1
  }

  /** The arithmetic of one new entry: its exact time against a stored one outside the window. */
  lemma GapKept(storage: Storage, exact: Row, seen: Row, whole: bool, w: nat)
    requires exact.occurred.Some? && seen.occurred.Some? && Stored(storage, seen) == seen
    requires whole ==> WholeTime(exact.occurred) && WholeTime(seen.occurred)
    requires Abs(exact.occurred.value - seen.occurred.value) > w * SECOND
    ensures Abs(Stored(storage, exact).occurred.value - seen.occurred.value) >= Gap(storage, whole, w)
  {
    var e, s := exact.occurred.value, seen.occurred.value;
    var a, b := e / SECOND, s / SECOND;
    assert a * SECOND <= e < a * SECOND + SECOND && b * SECOND <= s < b * SECOND + SECOND;
    if whole {
      assert e == a * SECOND && s == b * SECOND;
    }
  }

  ghost predicate AllWhole(rows: seq<Row>) { forall r :: r in rows ==> WholeTime(r.occurred) }

  lemma {:induction false} RunKeepsApart(storage: Storage, calls: seq<Call>, w: nat)
    requires forall c :: c in calls ==> c.window == w
    ensures WholeTimes(calls) ==> AllWhole(Run(storage, calls))
    ensures Apart(Run(storage, calls), Gap(storage, WholeTimes(calls), w))
  {
    RunKeepsGap(storage, calls, WholeTimes(calls), w);
  }

  lemma {:induction false} RunKeepsGap(storage: Storage, calls: seq<Call>, whole: bool, w: nat)
    requires forall c :: c in calls ==> c.window == w && (whole ==> WholeTime(c.occurred))
    ensures whole ==> AllWhole(Run(storage, calls))
    ensures Apart(Run(storage, calls), Gap(storage, whole, w))
  {
    hide Gap;
    if calls != [] {
      var n := |calls| - 1;
      var c := calls[n];
      assert c in calls;
      RunKeepsGap(storage, calls[..n], whole, w);
      var rows := Run(storage, calls[..n]);
      if Unregistered(rows, c) {
        var view := View(storage, rows);
        ViewKeepsRows(storage, rows);
        HonestSearch(view, rows, c);
        RegisterFresh(storage, rows, c);
        CatalogHolds(storage, calls[..n]);
        StepKeepsApart(storage, rows, AnswerRow(rows, FindDuplicate(view, c), c), c, whole, w);
      } else {
        RegisterStale(storage, rows, c);
      }
    }
  }

  lemma StepKeepsApart(storage: Storage, rows: seq<Row>, r: Row, c: Call, whole: bool, w: nat)
    requires Apart(rows, Gap(storage, whole, w)) && AsStored(storage, rows)
    requires c.window == w && r.fingerprint == c.fingerprint && r.occurred == c.occurred
    requires whole ==> WholeTime(c.occurred) && AllWhole(rows)
    requires r.kind.Entry? ==> forall x :: x in rows ==> !Duplicates(x, c)
    ensures Apart(rows + [Stored(storage, r)], Gap(storage, whole, w))
    ensures whole ==> AllWhole(rows + [Stored(storage, r)])
  {
    hide Gap;
    var after := rows + [Stored(storage, r)];
    forall i, j | 0 <= i < j < |after| && after[j].kind.Entry? && after[i].fingerprint == after[j].fingerprint
                  && after[i].occurred.Some? && after[j].occurred.Some?
      ensures Abs(after[j].occurred.value - after[i].occurred.value) >= Gap(storage, whole, w)
    {
      if j == |rows| {
        assert rows[i] in rows && !Duplicates(rows[i], c);
        GapKept(storage, r, rows[i], whole, w);
      }
    }
  }

  ghost function LatestOf(rows: seq<Row>, s: set<nat>): (m: nat)
    requires s != {} && forall i :: i in s ==> i < |rows| && rows[i].occurred.Some?
    ensures m in s && forall i :: i in s ==> rows[i].occurred.value <= rows[m].occurred.value
  {
    var x :| x in s;
    if s == {x} then x
    else
      var m := LatestOf(rows, s - {x});
      if rows[x].occurred.value > rows[m].occurred.value then x else m
  }

  /** Every other entry of the set lies a full gap before the latest one. */
  lemma BeforeLatest(rows: seq<Row>, fingerprint: string, gap: nat, low: int, high: int, s: set<nat>, i: nat)
    requires Apart(rows, gap) && s <= EntriesIn(rows, fingerprint, low, high) && i in s && i != LatestOf(rows, s)
    ensures i in EntriesIn(rows, fingerprint, low, rows[LatestOf(rows, s)].occurred.value - gap)
  {
    var m := LatestOf(rows, s);
    assert i in EntriesIn(rows, fingerprint, low, high) && m in EntriesIn(rows, fingerprint, low, high);
    if i < m {
      assert Abs(rows[m].occurred.value - rows[i].occurred.value) >= gap;
    } else {
      assert Abs(rows[i].occurred.value - rows[m].occurred.value) >= gap;
    }
  }

  lemma OneMore(k: nat, gap: nat)
    ensures k * gap + gap == (k + 1) * gap
  {
  }

  /** Pigeonhole: entries pairwise at least `gap` apart inside [low, high]. */
  lemma {:induction false} Pigeonhole(rows: seq<Row>, fingerprint: string, gap: nat, low: int, high: int, s: set<nat>)
    requires Apart(rows, gap) && s != {} && s <= EntriesIn(rows, fingerprint, low, high)
    ensures (|s| - 1) * gap <= high - low
    decreases |s|
  {
    var m := LatestOf(rows, s);
    var rest := s - {m};
    assert |rest| == |s| - 1;
    assert m in EntriesIn(rows, fingerprint, low, high);
    if rest != {} {
      var below := rows[m].occurred.value - gap;
      assert rest <= EntriesIn(rows, fingerprint, low, below) by {
        forall i | i in rest ensures i in EntriesIn(rows, fingerprint, low, below) {
          BeforeLatest(rows, fingerprint, gap, low, high, s, i);
        }
      }
      Pigeonhole(rows, fingerprint, gap, low, below, rest);
      OneMore(|rest| - 1, gap);
    }
  }

  /**
   With one window w, one fault burns k numbers inside a span only if (k-1) gaps fit into it. On whole seconds the
   gap is w + 1 seconds; with fractions of a second it is more than w seconds, or w seconds where reads cut the
   times.
   */
  lemma AlertRateBound(storage: Storage, calls: seq<Call>, w: nat, fingerprint: string, low: int, span: nat)
    requires forall c :: c in calls ==> c.window == w
    ensures var k := |EntriesIn(Run(storage, calls), fingerprint, low, low + span)|;
            k >= 1 ==> (k - 1) * Gap(storage, WholeTimes(calls), w) <= span
  {
    RunKeepsApart(storage, calls, w);
    var s := EntriesIn(Run(storage, calls), fingerprint, low, low + span);
    if s != {} {
      Pigeonhole(Run(storage, calls), fingerprint, Gap(storage, WholeTimes(calls), w), low, low + span, s);
    }
  }

  /** Three errors of one fault, at 0, 10.5 and 21 seconds, with a window of ten. */
  predicate Fractions(a: Call, b: Call, c: Call) {
    && a.wellFormed && b.wellFormed && c.wellFormed && a.fingerprint == b.fingerprint == c.fingerprint
    && a.window == b.window == c.window == 10
    && a.occurred == Some(0) && b.occurred == Some(10_500_000) && c.occurred == Some(21_000_000)
    && a.requestId != b.requestId && a.requestId != c.requestId && b.requestId != c.requestId
  }

  /** They get three numbers, so fractions of a second really need the smaller gap. */
  lemma FractionsBurnMore(a: Call, b: Call, c: Call)
    requires Fractions(a, b, c)
    ensures Run(Jsonl, [a, b, c]) == [EntryRow(1, a), EntryRow(2, b), EntryRow(3, c)]
  {
    var ra, rb := EntryRow(1, a), EntryRow(2, b);
    FirstNumbers(ra, rb);
    FractionsApart(a, b, c);
    hide Register, HighestNumber, Duplicates, EntryRow;
    NewEntry([], 0, a);
    NewEntry([ra], 1, b);
    NewEntry([ra, rb], 2, c);
    RunOfThree(Jsonl, a, b, c);
    hide Run;
    assert [] + [ra] == [ra];
    assert [ra] + [rb] == [ra, rb];
    assert [ra, rb] + [EntryRow(3, c)] == [ra, rb, EntryRow(3, c)];
  }

  lemma FractionsApart(a: Call, b: Call, c: Call)
    requires Fractions(a, b, c)
    ensures Unregistered([], a) && Unregistered([EntryRow(1, a)], b)
              && Unregistered([EntryRow(1, a), EntryRow(2, b)], c)
    ensures !Duplicates(EntryRow(1, a), b) && !Duplicates(EntryRow(1, a), c) && !Duplicates(EntryRow(2, b), c)
  {
  }

  lemma FirstNumbers(x: Row, y: Row)
    requires x.number == 1 && y.number == 2
    ensures HighestNumber([]) == 0 && HighestNumber([x]) == 1 && HighestNumber([x, y]) == 2
  {
    assert [x][..0] == [] && [x, y][..1] == [x];
  }

  lemma NewEntry(rows: seq<Row>, highest: nat, c: Call)
    requires Unregistered(rows, c) && HighestNumber(rows) == highest && forall r :: r in rows ==> !Duplicates(r, c)
    ensures Register(Jsonl, rows, c).rows == rows + [EntryRow(highest + 1, c)]
  {
    RegisterFresh(Jsonl, rows, c);
    FindDuplicateFinds(rows, c);
  }
}
