/**
 Collecting one layer's dataset evidence: a nested accumulator loop over snapshots, their splits and the roles,
 against a specification by sums over the input rows.
 */
module DatasetEvidence {
  import opened Wrappers
  import opened DatasetExpansion
  import FoldCalendar

  datatype Snapshot = Snapshot(id: string, modelId: string, samples: int)

  /** `role` is the normalised split name, None when unknown; zero samples fall back to the snapshot's. */
  datatype Split = Split(snapshotId: string, role: Option<Role>, start: Option<Moment>, end: Option<Moment>,
        samples: int)
  datatype LabelRow = LabelRow(snapshotId: string, count: int)
  datatype EvalRun = EvalRun(snapshotId: string, count: int, succeeded: bool)

  datatype Input = Input(snapshots: seq<Snapshot>, splits: seq<Split>, labels: seq<LabelRow>, evals: seq<EvalRun>)

  datatype Totals = Totals(months: int, samples: int, labels: int, evals: int, source: Option<string>)

  /** A moment by calendar year and month, and its place inside the month. */
  datatype Moment = Moment(year: int, month: int, within: int)

  predicate Earlier(a: Moment, b: Moment) {
    a.year < b.year || (a.year == b.year && (a.month < b.month || (a.month == b.month && a.within < b.within)))
  }

  /** Calendar months from the start's to the end's, both included; nothing for a missing or reversed span. */
  function MonthCoverage(start: Option<Moment>, end: Option<Moment>): int {
    if start.None? || end.None? || Earlier(end.value, start.value) then 0
    else (end.value.year - start.value.year) * 12 + (end.value.month - start.value.month) + 1
  }

  /** A moment of the calendar. */
  predicate Dated(a: Moment) { 0 <= a.year <= 9999 && 1 <= a.month <= 12 }

  /** The coverage of a span is the number of calendar months it touches, over any number of years. */
  lemma CoverageCountsMonths(start: Moment, end: Moment)
    requires Dated(start) && Dated(end)
    ensures var first, last := FoldCalendar.MonthOf(start.year, start.month), FoldCalendar.MonthOf(end.year, end.month);
            MonthCoverage(Some(start), Some(end))
            == if Earlier(end, start) then 0 else |FoldCalendar.MonthsInSpan(first, last)|
  {
  }

  function MonthsOf(p: Split): int { MonthCoverage(p.start, p.end) }

  // ----- the specification -----

  function OfModels(snapshots: seq<Snapshot>, models: set<string>): seq<Snapshot> {
    if snapshots == [] then []
    else
      var n := |snapshots| - 1;
      OfModels(snapshots[..n], models) + if snapshots[n].modelId in models then [snapshots[n]] else []
  }

  /** Rows without a snapshot id belong to no snapshot. */
  predicate Supplies(split: Split, s: Snapshot, role: Role) {
    split.snapshotId == s.id && s.id != "" && split.role == Some(role)
  }

  datatype Measure = ByMonths | BySamples

  /** What one split adds: its months, or its samples with the snapshot's when it has none. */
  function Weight(m: Measure, p: Split, s: Snapshot): int {
    match m
    case ByMonths => MonthsOf(p)
    case BySamples => if p.samples != 0 then p.samples else s.samples
  }

  function SplitSum(m: Measure, splits: seq<Split>, s: Snapshot, role: Role): int {
    if splits == [] then 0
    else
      var n := |splits| - 1;
      SplitSum(m, splits[..n], s, role) + if Supplies(splits[n], s, role) then Weight(m, splits[n], s) else 0
  }

  predicate HasRole(splits: seq<Split>, s: Snapshot, role: Role) { exists p :: p in splits && Supplies(p, s, role) }

  /** A label or evaluation row with no count, or a zero one, counts once. */
  function Counted(count: int): int { if count == 0 then 1 else count }

  function LabelsOf(labels: seq<LabelRow>, id: string): int {
    if labels == [] then 0
    else
      var n := |labels| - 1;
      LabelsOf(labels[..n], id) + if labels[n].snapshotId == id && id != "" then Counted(labels[n].count) else 0
  }

  function EvalsOf(evals: seq<EvalRun>, id: string): int {
    if evals == [] then 0
    else
      var n := |evals| - 1;
      EvalsOf(evals[..n], id)
      + if evals[n].snapshotId == id && id != "" && evals[n].succeeded then Counted(evals[n].count) else 0
  }

  function Total(m: Measure, snapshots: seq<Snapshot>, splits: seq<Split>, role: Role): int {
    if snapshots == [] then 0
    else Total(m, snapshots[..|snapshots| - 1], splits, role) + SplitSum(m, splits, snapshots[|snapshots| - 1], role)
  }

  /** The id of the first snapshot row that supplies the role. */
  function Source(snapshots: seq<Snapshot>, splits: seq<Split>, role: Role): Option<string> {
    if snapshots == [] then None
    else
      var n := |snapshots| - 1;
      var earlier := Source(snapshots[..n], splits, role);
      if earlier.Some? then earlier
      else if HasRole(splits, snapshots[n], role) then Some(snapshots[n].id) else None
  }

  function RowsWithId(snapshots: seq<Snapshot>, id: string): nat {
    if snapshots == [] then 0
    else RowsWithId(snapshots[..|snapshots| - 1], id) + if snapshots[|snapshots| - 1].id == id then 1 else 0
  }

  /**
   Months and samples are sums over the layer's snapshot rows and their splits; labels and evaluations are the source
   snapshot's own, once for every snapshot row that carries its id.
   */
  function TotalsOf(snapshots: seq<Snapshot>, x: Input, role: Role): Totals {
    var source := Source(snapshots, x.splits, role);
    Totals(Total(ByMonths, snapshots, x.splits, role), Total(BySamples, snapshots, x.splits, role),
           if source.None? then 0 else RowsWithId(snapshots, source.value) * LabelsOf(x.labels, source.value),
           if source.None? then 0 else RowsWithId(snapshots, source.value) * EvalsOf(x.evals, source.value),
           source)
  }

  ghost predicate UniqueIds(snapshots: seq<Snapshot>) {
    forall i, j :: 0 <= i < j < |snapshots| ==> snapshots[i].id != snapshots[j].id
  }

  lemma {:induction false} UniqueCountsOnce(snapshots: seq<Snapshot>, splits: seq<Split>, role: Role)
    requires UniqueIds(snapshots) && Source(snapshots, splits, role).Some?
    ensures RowsWithId(snapshots, Source(snapshots, splits, role).value) == 1
  {
    var n := |snapshots| - 1;
    if Source(snapshots[..n], splits, role).Some? {
      UniqueCountsOnce(snapshots[..n], splits, role);
      SourceIsARow(snapshots[..n], splits, role);
    } else {
      AbsentCountsZero(snapshots[..n], snapshots[n].id);
    }
  }

  lemma {:induction false} SourceIsARow(snapshots: seq<Snapshot>, splits: seq<Split>, role: Role)
    requires Source(snapshots, splits, role).Some?
    ensures exists i :: 0 <= i < |snapshots| && snapshots[i].id == Source(snapshots, splits, role).value
  {
    var n := |snapshots| - 1;
    if Source(snapshots[..n], splits, role).Some? {
      SourceIsARow(snapshots[..n], splits, role);
    }
  }

  /** The source of a role is the first snapshot row that supplies it, and there is none without such a row. */
  lemma {:induction false} SourceIsFirst(snapshots: seq<Snapshot>, splits: seq<Split>, role: Role)
    ensures match Source(snapshots, splits, role)
            case None => forall s :: s in snapshots ==> !HasRole(splits, s, role)
            case Some(id) => exists i :: 0 <= i < |snapshots| && snapshots[i].id == id
                                && HasRole(splits, snapshots[i], role)
                                && forall j :: 0 <= j < i ==> !HasRole(splits, snapshots[j], role)
  {
    hide HasRole;
    if snapshots != [] {
      var n := |snapshots| - 1;
      SourceIsFirst(snapshots[..n], splits, role);
      assert snapshots == snapshots[..n] + [snapshots[n]];
    }
  }

  lemma {:induction false} AbsentCountsZero(snapshots: seq<Snapshot>, id: string)
    requires forall s :: s in snapshots ==> s.id != id
    ensures RowsWithId(snapshots, id) == 0
  {
    if snapshots != [] {
      AbsentCountsZero(snapshots[..|snapshots| - 1], id);
    }
  }

  /** With unique snapshot ids a role's labels and evaluations are exactly those of its source snapshot. */
  lemma UniqueIdsTakeSource(snapshots: seq<Snapshot>, x: Input, role: Role)
    requires UniqueIds(snapshots) && Source(snapshots, x.splits, role).Some?
    ensures TotalsOf(snapshots, x, role).labels == LabelsOf(x.labels, Source(snapshots, x.splits, role).value)
    ensures TotalsOf(snapshots, x, role).evals == EvalsOf(x.evals, Source(snapshots, x.splits, role).value)
  {
    UniqueCountsOnce(snapshots, x.splits, role);
  }

  /** In general either count is exactly the source's iff its id occurs once or it has none to count. */
  lemma SourceCountedOnceIff(snapshots: seq<Snapshot>, x: Input, role: Role)
    requires Source(snapshots, x.splits, role).Some?
    ensures var id, t := Source(snapshots, x.splits, role).value, TotalsOf(snapshots, x, role);
            && (t.labels == LabelsOf(x.labels, id) <==> RowsWithId(snapshots, id) == 1 || LabelsOf(x.labels, id) == 0)
            && (t.evals == EvalsOf(x.evals, id) <==> RowsWithId(snapshots, id) == 1 || EvalsOf(x.evals, id) == 0)
  {
    var id := Source(snapshots, x.splits, role).value;
    var k := RowsWithId(snapshots, id);
    SameProductIff(k, LabelsOf(x.labels, id));
    SameProductIff(k, EvalsOf(x.evals, id));
  }

  lemma SameProductIff(k: nat, n: int)
    ensures k * n == n <==> k == 1 || n == 0
  {
    if k * n == n && n != 0 {
      assert (k - 1) * n == 0;
    }
  }

  /** Labels and evaluations add up row by row; a row counts for its own snapshot, once if it has no count. */
  lemma {:induction false} LabelsAddUp(a: seq<LabelRow>, b: seq<LabelRow>, id: string)
    ensures LabelsOf(a + b, id) == LabelsOf(a, id) + LabelsOf(b, id)
    ensures |a| == 1 ==>
        LabelsOf(a, id) == if id == "" || a[0].snapshotId != id then 0 else if a[0].count == 0 then 1 else a[0].count
  {
    if b == [] {
      assert a + b == a;
    } else {
      LabelsAddUp(a, b[..|b| - 1], id);
      assert (a + b)[..|a + b| - 1] == a + b[..|b| - 1];
    }
  }

  lemma {:induction false} EvalsAddUp(a: seq<EvalRun>, b: seq<EvalRun>, id: string)
    ensures EvalsOf(a + b, id) == EvalsOf(a, id) + EvalsOf(b, id)
    ensures |a| == 1 ==>
        EvalsOf(a, id) == if id == "" || a[0].snapshotId != id || !a[0].succeeded then 0
                          else if a[0].count == 0 then 1 else a[0].count
  {
    if b == [] {
      assert a + b == a;
    } else {
      EvalsAddUp(a, b[..|b| - 1], id);
      assert (a + b)[..|a + b| - 1] == a + b[..|b| - 1];
    }
  }

  /** The layer's snapshots are those of its models, in the order of the listing. */
  lemma {:induction false} ModelsSplit(a: seq<Snapshot>, b: seq<Snapshot>, models: set<string>)
    ensures OfModels(a + b, models) == OfModels(a, models) + OfModels(b, models)
    ensures |a| == 1 ==> OfModels(a, models) == if a[0].modelId in models then a else []
  {
    if b == [] {
      assert a + b == a;
    } else {
      ModelsSplit(a, b[..|b| - 1], models);
      assert (a + b)[..|a + b| - 1] == a + b[..|b| - 1];
    }
  }

  // ----- one sum over the splits -----

  /** What one split adds over all snapshot rows that carry its id. */
  function RowSum(m: Measure, p: Split, snapshots: seq<Snapshot>, role: Role): int {
    if snapshots == [] then 0
    else
      var n := |snapshots| - 1;
      RowSum(m, p, snapshots[..n], role) + if Supplies(p, snapshots[n], role) then Weight(m, p, snapshots[n]) else 0
  }

  function BySplit(m: Measure, snapshots: seq<Snapshot>, splits: seq<Split>, role: Role): int {
    if splits == [] then 0
    else
      var n := |splits| - 1;
      BySplit(m, snapshots, splits[..n], role) + RowSum(m, splits[n], snapshots, role)
  }

  /** Taking one more snapshot row adds its own share to every split's. */
  lemma {:induction false} BySplitExtends(m: Measure, snapshots: seq<Snapshot>, splits: seq<Split>, role: Role)
    requires snapshots != []
    ensures var n := |snapshots| - 1;
            BySplit(m, snapshots, splits, role) == BySplit(m, snapshots[..n], splits, role)
                + SplitSum(m, splits, snapshots[n], role)
  {
    if splits != [] {
      BySplitExtends(m, snapshots, splits[..|splits| - 1], role);
    }
  }

  lemma {:induction false} NoRowsNoSum(m: Measure, splits: seq<Split>, role: Role)
    ensures BySplit(m, [], splits, role) == 0
  {
    if splits != [] {
      NoRowsNoSum(m, splits[..|splits| - 1], role);
    }
  }

  /**
   A role's total is one sum over the splits, each counted once for every snapshot row of the layer that carries its
   id.
   */
  lemma {:induction false} TotalIsSumOverSplits(m: Measure, snapshots: seq<Snapshot>, splits: seq<Split>, role: Role)
    ensures Total(m, snapshots, splits, role) == BySplit(m, snapshots, splits, role)
  {
    if snapshots == [] {
      NoRowsNoSum(m, splits, role);
    } else {
      TotalIsSumOverSplits(m, snapshots[..|snapshots| - 1], splits, role);
      BySplitExtends(m, snapshots, splits, role);
    }
  }

  predicate Counts(p: Split, role: Role) { p.snapshotId != "" && p.role == Some(role) }

  /** The samples of all snapshot rows that carry an id. */
  function SamplesUnder(snapshots: seq<Snapshot>, id: string): int {
    if snapshots == [] then 0
    else
      var n := |snapshots| - 1;
      SamplesUnder(snapshots[..n], id) + if snapshots[n].id == id then snapshots[n].samples else 0
  }

  /**
   A split's months count once per snapshot row carrying its id; so do its samples when it has its own, and otherwise
   each of those rows adds the samples it has.
   */
  lemma {:induction false} RowSumTimes(m: Measure, p: Split, snapshots: seq<Snapshot>, role: Role)
    ensures !Counts(p, role) ==> RowSum(m, p, snapshots, role) == 0
    ensures Counts(p, role) && m == ByMonths
        ==> RowSum(m, p, snapshots, role) == RowsWithId(snapshots, p.snapshotId) * MonthsOf(p)
    ensures Counts(p, role) && m == BySamples && p.samples != 0
        ==> RowSum(m, p, snapshots, role) == RowsWithId(snapshots, p.snapshotId) * p.samples
    ensures Counts(p, role) && m == BySamples && p.samples == 0
        ==> RowSum(m, p, snapshots, role) == SamplesUnder(snapshots, p.snapshotId)
  {
    if snapshots != [] {
      RowSumTimes(m, p, snapshots[..|snapshots| - 1], role);
      var k := RowsWithId(snapshots[..|snapshots| - 1], p.snapshotId);
      OneMore(k, MonthsOf(p));
      OneMore(k, p.samples);
    }
  }

  /** The snapshot row a split belongs to: the last one to carry its id. */
  function OwnerOf(snapshots: seq<Snapshot>, id: string): Option<Snapshot> {
    if snapshots == [] then None
    else if snapshots[|snapshots| - 1].id == id then Some(snapshots[|snapshots| - 1])
    else OwnerOf(snapshots[..|snapshots| - 1], id)
  }

  /** One sum over the splits of the role whose snapshot belongs to the layer. */
  function FlatTotal(m: Measure, snapshots: seq<Snapshot>, splits: seq<Split>, role: Role): int {
    if splits == [] then 0
    else
      var p := splits[|splits| - 1];
      var owner := OwnerOf(snapshots, p.snapshotId);
      FlatTotal(m, snapshots, splits[..|splits| - 1], role)
      + if Counts(p, role) && owner.Some? then Weight(m, p, owner.value) else 0
  }

  lemma {:induction false} OwnerIsTheRow(snapshots: seq<Snapshot>, id: string)
    ensures match OwnerOf(snapshots, id)
            case Some(s) => s in snapshots && s.id == id
            case None => forall s :: s in snapshots ==> s.id != id
  {
    if snapshots != [] {
      OwnerIsTheRow(snapshots[..|snapshots| - 1], id);
    }
  }

  lemma {:induction false} UniqueRowSum(m: Measure, p: Split, snapshots: seq<Snapshot>, role: Role)
    requires UniqueIds(snapshots)
    ensures var owner := OwnerOf(snapshots, p.snapshotId);
            RowSum(m, p, snapshots, role) == if Counts(p, role) && owner.Some? then Weight(m, p, owner.value) else 0
  {
    if snapshots != [] {
      var front, last := snapshots[..|snapshots| - 1], snapshots[|snapshots| - 1];
      UniqueRowSum(m, p, front, role);
      OwnerIsTheRow(front, p.snapshotId);
      assert forall s :: s in front ==> s.id != last.id;
    }
  }

  /**
   With unique snapshot ids, a role's months and samples are one sum over its splits whose snapshot is in the layer.
   */
  lemma {:induction false} UniqueIdsTotalFlat(m: Measure, snapshots: seq<Snapshot>, splits: seq<Split>, role: Role)
    requires UniqueIds(snapshots)
    ensures Total(m, snapshots, splits, role) == FlatTotal(m, snapshots, splits, role)
  {
    TotalIsSumOverSplits(m, snapshots, splits, role);
    UniqueBySplit(m, snapshots, splits, role);
  }

  lemma {:induction false} UniqueBySplit(m: Measure, snapshots: seq<Snapshot>, splits: seq<Split>, role: Role)
    requires UniqueIds(snapshots)
    ensures BySplit(m, snapshots, splits, role) == FlatTotal(m, snapshots, splits, role)
  {
    if splits != [] {
      UniqueBySplit(m, snapshots, splits[..|splits| - 1], role);
      UniqueRowSum(m, splits[|splits| - 1], snapshots, role);
    }
  }

  ghost predicate AddsNothingNegative(m: Measure, snapshots: seq<Snapshot>, splits: seq<Split>) {
    forall p, s :: p in splits && s in snapshots ==> Weight(m, p, s) >= 0
  }

  /** Of the rows that carry the split's id, only the last may add anything. */
  ghost predicate OneRowAdds(m: Measure, p: Split, snapshots: seq<Snapshot>, role: Role) {
    forall i, j :: 0 <= i < j < |snapshots| && Supplies(p, snapshots[i], role) && snapshots[j].id == snapshots[i].id
        ==> Weight(m, p, snapshots[i]) == 0
  }

  ghost predicate AllAddNothing(m: Measure, p: Split, snapshots: seq<Snapshot>, role: Role) {
    forall i :: 0 <= i < |snapshots| && Supplies(p, snapshots[i], role) ==> Weight(m, p, snapshots[i]) == 0
  }

  lemma {:induction false} RowSumZeroIff(m: Measure, p: Split, snapshots: seq<Snapshot>, role: Role)
    requires forall s :: s in snapshots ==> Weight(m, p, s) >= 0
    ensures RowSum(m, p, snapshots, role) >= 0
    ensures RowSum(m, p, snapshots, role) == 0
       <==> AllAddNothing(m, p, snapshots, role)
  {
    hide Weight;
    if snapshots != [] {
      var n := |snapshots| - 1;
      RowSumZeroIff(m, p, snapshots[..n], role);
      assert snapshots[n] in snapshots;
      if AllAddNothing(m, p, snapshots[..n], role)
          && (Supplies(p, snapshots[n], role) ==> Weight(m, p, snapshots[n]) == 0) {
        forall i | 0 <= i < |snapshots| && Supplies(p, snapshots[i], role) ensures Weight(m, p, snapshots[i]) == 0 {
          assert i < n ==> snapshots[..n][i] == snapshots[i];
        }
      }
    }
  }

  lemma NoRowsAdd(m: Measure, p: Split, role: Role)
    ensures OneRowAdds(m, p, [], role)
  {
  }

  lemma OneRowAddsPrefix(m: Measure, p: Split, snapshots: seq<Snapshot>, role: Role)
    requires snapshots != []
    ensures var n := |snapshots| - 1;
            && (AllAddNothing(m, p, snapshots[..n], role) ==> OneRowAdds(m, p, snapshots[..n], role))
            && (OneRowAdds(m, p, snapshots, role) <==>
                  && OneRowAdds(m, p, snapshots[..n], role)
                  && (Supplies(p, snapshots[n], role) ==> AllAddNothing(m, p, snapshots[..n], role)))
  {
    hide Weight;
    var n := |snapshots| - 1;
    if OneRowAdds(m, p, snapshots[..n], role)
        && (Supplies(p, snapshots[n], role) ==> AllAddNothing(m, p, snapshots[..n], role)) {
      forall i, j | 0 <= i < j < |snapshots| && Supplies(p, snapshots[i], role) && snapshots[j].id == snapshots[i].id
        ensures Weight(m, p, snapshots[i]) == 0
      {
        assert snapshots[..n][i] == snapshots[i];
        assert j < n ==> snapshots[..n][j] == snapshots[j];
      }
    }
    if OneRowAdds(m, p, snapshots, role) {
      forall i | 0 <= i < n && Supplies(p, snapshots[n], role) && Supplies(p, snapshots[..n][i], role)
        ensures Weight(m, p, snapshots[..n][i]) == 0
      {
        assert snapshots[n].id == snapshots[i].id;
      }
    }
  }

  /** Over all rows a split adds at least what it adds under its owner, and the same iff no other row adds. */
  lemma {:induction false} RowSumFlatIff(m: Measure, p: Split, snapshots: seq<Snapshot>, role: Role)
    requires forall s :: s in snapshots ==> Weight(m, p, s) >= 0
    ensures var owner, sum := OwnerOf(snapshots, p.snapshotId), RowSum(m, p, snapshots, role);
            var flat := if Counts(p, role) && owner.Some? then Weight(m, p, owner.value) else 0;
            sum >= flat && (sum == flat <==> OneRowAdds(m, p, snapshots, role))
  {
    hide Weight, OneRowAdds, AllAddNothing;
    if snapshots == [] {
      NoRowsAdd(m, p, role);
    } else {
      var front := snapshots[..|snapshots| - 1];
      RowSumFlatIff(m, p, front, role);
      RowSumZeroIff(m, p, front, role);
      OneRowAddsPrefix(m, p, snapshots, role);
    }
  }

  /**
   Measures that are never negative: the total is at least the flat sum, and equal to it exactly when under every
   split's id only the last snapshot row adds anything.
   */
  lemma {:induction false} TotalFlatIff(m: Measure, snapshots: seq<Snapshot>, splits: seq<Split>, role: Role)
    requires AddsNothingNegative(m, snapshots, splits)
    ensures var total, flat := Total(m, snapshots, splits, role), FlatTotal(m, snapshots, splits, role);
            total >= flat && (total == flat <==> forall p :: p in splits ==> OneRowAdds(m, p, snapshots, role))
    decreases |splits|
  {
    hide OneRowAdds;
    TotalIsSumOverSplits(m, snapshots, splits, role);
    if splits != [] {
      var front, p := splits[..|splits| - 1], splits[|splits| - 1];
      TotalFlatIff(m, snapshots, front, role);
      TotalIsSumOverSplits(m, snapshots, front, role);
      RowSumFlatIff(m, p, snapshots, role);
      assert splits == front + [p];
    }
  }

  lemma {:induction false} RepeatedRows(snapshots: seq<Snapshot>, id: string)
    ensures RowsWithId(snapshots, id) >= 1 <==> exists s :: s in snapshots && s.id == id
    ensures RowsWithId(snapshots, id) >= 2
       <==> exists i, j :: 0 <= i < j < |snapshots| && snapshots[i].id == id && snapshots[j].id == id
  {
    if snapshots != [] {
      var n := |snapshots| - 1;
      RepeatedRows(snapshots[..n], id);
      if snapshots[n].id == id && RowsWithId(snapshots[..n], id) >= 1 {
        var s :| s in snapshots[..n] && s.id == id;
        var i :| 0 <= i < n && snapshots[i] == s;
        assert 0 <= i < n && snapshots[i].id == id && snapshots[n].id == id;
      }
    }
  }

  /** For months, and for a split's own samples: its id is listed at most once, or it adds nothing. */
  lemma OneRowAddsIff(m: Measure, p: Split, snapshots: seq<Snapshot>, role: Role)
    requires m == ByMonths || p.samples != 0
    ensures OneRowAdds(m, p, snapshots, role)
       <==> (Counts(p, role) ==> RowsWithId(snapshots, p.snapshotId) <= 1 || (m == ByMonths && MonthsOf(p) == 0))
  {
    RepeatedRows(snapshots, p.snapshotId);
    if Counts(p, role) && RowsWithId(snapshots, p.snapshotId) >= 2 {
      var i, j :| 0 <= i < j < |snapshots| && snapshots[i].id == p.snapshotId && snapshots[j].id == p.snapshotId;
      assert Supplies(p, snapshots[i], role);
    }
  }

  predicate RealMonth(t: Option<Moment>) { t.Some? ==> 1 <= t.value.month <= 12 }

  /** Months are flat exactly when every counting split's id is listed at most once or the split covers no month. */
  lemma MonthsFlatIff(snapshots: seq<Snapshot>, splits: seq<Split>, role: Role)
    requires forall p :: p in splits ==> RealMonth(p.start) && RealMonth(p.end)
    ensures Total(ByMonths, snapshots, splits, role) == FlatTotal(ByMonths, snapshots, splits, role)
       <==> forall p :: p in splits && Counts(p, role) ==>
                RowsWithId(snapshots, p.snapshotId) <= 1 || MonthsOf(p) == 0
  {
    hide OneRowAdds, Counts;
    TotalFlatIff(ByMonths, snapshots, splits, role);
    forall p | p in splits {
      OneRowAddsIff(ByMonths, p, snapshots, role);
    }
  }

  /** A snapshot row listed twice doubles its months, samples, labels and evaluations. */
  lemma RepeatedRowCountsTwice()
    ensures var s := Snapshot("s1", "m1", 100);
            var p := Split("s1", Some(Train), Some(Moment(2020, 1, 0)), Some(Moment(2020, 3, 0)), 0);
            var x := Input([s, s], [p], [LabelRow("s1", 7)], [EvalRun("s1", 2, true)]);
            TotalsOf([s], x, Train) == Totals(3, 100, 7, 2, Some("s1"))
                && TotalsOf([s, s], x, Train) == Totals(6, 200, 14, 4, Some("s1"))
  {
    var s := Snapshot("s1", "m1", 100);
    var p := Split("s1", Some(Train), Some(Moment(2020, 1, 0)), Some(Moment(2020, 3, 0)), 0);
    var x := Input([s, s], [p], [LabelRow("s1", 7)], [EvalRun("s1", 2, true)]);
    assert [s][..0] == [] && [s, s][..1] == [s] && [p][..0] == [];
    assert x.labels[..0] == [] && x.evals[..0] == [];
    assert SplitSum(ByMonths, [p], s, Train) == 3 && SplitSum(BySamples, [p], s, Train) == 100;
    assert LabelsOf(x.labels, "s1") == 7 && EvalsOf(x.evals, "s1") == 2;
    assert RowsWithId([s], "s1") == 1 && RowsWithId([s, s], "s1") == 2;
    assert p in [p] && HasRole([p], s, Train);
    assert Source([s], [p], Train) == Some("s1") && Source([s, s], [p], Train) == Some("s1");
    assert Total(ByMonths, [s], [p], Train) == 3 && Total(BySamples, [s], [p], Train) == 100;
  }

  // ----- the order of the rows matters neither to months nor to samples -----

  lemma DropThenLast<T>(s: seq<T>, i: nat)
    requires i < |s| - 1
    ensures var n, rest := |s| - 1, s[..i] + s[i + 1..];
            rest[..|rest| - 1] == s[..n][..i] + s[..n][i + 1..] && rest[|rest| - 1] == s[n]
  {
  }

  lemma {:induction false} SumSplitOut(m: Measure, splits: seq<Split>, i: nat, s: Snapshot, role: Role)
    requires i < |splits|
    ensures SplitSum(m, splits, s, role)
         == SplitSum(m, splits[..i] + splits[i + 1..], s, role)
             + (if Supplies(splits[i], s, role) then Weight(m, splits[i], s) else 0)
  {
    var n := |splits| - 1;
    var rest := splits[..i] + splits[i + 1..];
    if i == n {
      assert rest == splits[..n];
    } else {
      SumSplitOut(m, splits[..n], i, s, role);
      DropThenLast(splits, i);
    }
  }

  /** The last element of one list, taken out of a permutation of it. */
  lemma TakeOutLast<T>(a: seq<T>, b: seq<T>) returns (i: nat)
    requires multiset(a) == multiset(b) && a != []
    ensures i < |b| && b[i] == a[|a| - 1]
    ensures multiset(a[..|a| - 1]) == multiset(b[..i] + b[i + 1..])
  {
    var n := |a| - 1;
    assert a == a[..n] + [a[n]];
    assert a[n] in multiset(a);
    assert a[n] in b;
    i :| i < |b| && b[i] == a[n];
    assert b == b[..i] + [b[i]] + b[i + 1..];
    assert multiset(a[..n]) == multiset(a) - multiset{a[n]};
    assert multiset(b[..i] + b[i + 1..]) == multiset(b) - multiset{b[i]};
  }

  lemma SameSize<T>(a: seq<T>, b: seq<T>)
    requires multiset(a) == multiset(b)
    ensures |a| == |b|
  {
    assert |multiset(a)| == |a| && |multiset(b)| == |b|;
  }

  /** A snapshot's sum depends only on which splits there are. */
  lemma {:induction false} SplitOrderIrrelevant(m: Measure, a: seq<Split>, b: seq<Split>, s: Snapshot, role: Role)
    requires multiset(a) == multiset(b)
    ensures SplitSum(m, a, s, role) == SplitSum(m, b, s, role)
    decreases |a|
  {
    SameSize(a, b);
    if a != [] {
      var n := |a| - 1;
      var i := TakeOutLast(a, b);
      SumSplitOut(m, b, i, s, role);
      SplitOrderIrrelevant(m, a[..n], b[..i] + b[i + 1..], s, role);
    }
  }

  lemma {:induction false} TotalSplitOut(m: Measure, snapshots: seq<Snapshot>, i: nat, splits: seq<Split>, role: Role)
    requires i < |snapshots|
    ensures Total(m, snapshots, splits, role)
         == Total(m, snapshots[..i] + snapshots[i + 1..], splits, role) + SplitSum(m, splits, snapshots[i], role)
  {
    var n := |snapshots| - 1;
    var rest := snapshots[..i] + snapshots[i + 1..];
    if i == n {
      assert rest == snapshots[..n];
    } else {
      TotalSplitOut(m, snapshots[..n], i, splits, role);
      DropThenLast(snapshots, i);
    }
  }

  /**
   Nor does a role's total, of months or of samples, depend on the order of the snapshot rows or of the split rows.
   */
  lemma {:induction false} RowOrderIrrelevant(m: Measure, a: seq<Snapshot>, b: seq<Snapshot>, p: seq<Split>,
        q: seq<Split>, role: Role)
    requires multiset(a) == multiset(b) && multiset(p) == multiset(q)
    ensures Total(m, a, p, role) == Total(m, b, q, role)
    decreases |a|
  {
    SameSize(a, b);
    if a != [] {
      var n := |a| - 1;
      var i := TakeOutLast(a, b);
      TotalSplitOut(m, b, i, q, role);
      SplitOrderIrrelevant(m, p, q, a[n], role);
      RowOrderIrrelevant(m, a[..n], b[..i] + b[i + 1..], p, q, role);
    }
  }

  // ----- the imperative form -----

  const ROLES := {Train, Calibration, Validation, Test, ForwardHoldout, ShadowMonitoring}

  lemma AllRoles(role: Role)
    ensures role in ROLES
  {
  }

  /** The split loop: months, samples and source of every role after one more snapshot. */
  function AfterSplits(t: Totals, splits: seq<Split>, s: Snapshot, role: Role): Totals {
    t.(months := t.months + SplitSum(ByMonths, splits, s, role),
        samples := t.samples + SplitSum(BySamples, splits, s, role),
       source := if t.source.None? && HasRole(splits, s, role) then Some(s.id) else t.source)
  }

  /** One split of the loop. */
  function AddSplit(t: Totals, p: Split, s: Snapshot): Totals {
    t.(months := t.months + Weight(ByMonths, p, s), samples := t.samples + Weight(BySamples, p, s),
       source := if t.source.Some? then t.source else Some(s.id))
  }

  lemma SplitsExtend(t: Totals, splits: seq<Split>, p: Split, s: Snapshot, role: Role)
    ensures AfterSplits(t, splits + [p], s, role)
         == if Supplies(p, s, role) then AddSplit(AfterSplits(t, splits, s, role), p, s)
             else AfterSplits(t, splits, s, role)
  {
    var all := splits + [p];
    assert all[..|splits|] == splits;
    assert HasRole(all, s, role) <==> HasRole(splits, s, role) || Supplies(p, s, role) by {
      assert p in all && forall q :: q in splits ==> q in all;
    }
  }

  method AddSplits(acc: map<Role, Totals>, splits: seq<Split>, s: Snapshot) returns (after: map<Role, Totals>)
    requires acc.Keys == ROLES
    ensures after.Keys == ROLES
    ensures forall r :: r in ROLES ==> after[r] == AfterSplits(acc[r], splits, s, r)
  {
    after := acc;
    for i := 0 to |splits|
      invariant after.Keys == ROLES
      invariant forall r :: r in ROLES ==> after[r] == AfterSplits(acc[r], splits[..i], s, r)
    {
      var p := splits[i];
      assert splits[..i + 1] == splits[..i] + [p];
      forall r | r in ROLES {
        SplitsExtend(acc[r], splits[..i], p, s, r);
      }
      if p.snapshotId == s.id && s.id != "" && p.role.Some? {
        AllRoles(p.role.value);
        after := after[p.role.value := AddSplit(after[p.role.value], p, s)];
      }
    }
    assert splits[..|splits|] == splits;
  }

  /** The first row to supply a role is the first row of its id. */
  lemma {:induction false} NewSupplierIsFirst(snapshots: seq<Snapshot>, splits: seq<Split>, role: Role, s: Snapshot)
    requires Source(snapshots, splits, role).None? && HasRole(splits, s, role)
    ensures RowsWithId(snapshots, s.id) == 0
  {
    if snapshots != [] {
      var n := |snapshots| - 1;
      NewSupplierIsFirst(snapshots[..n], splits, role, s);
      RoleGoesById(splits, snapshots[n], s, role);
    }
  }

  lemma RoleGoesById(splits: seq<Split>, a: Snapshot, b: Snapshot, role: Role)
    ensures a.id == b.id ==> (HasRole(splits, a, role) <==> HasRole(splits, b, role))
  {
    if a.id == b.id {
      assert forall p :: Supplies(p, a, role) <==> Supplies(p, b, role);
    }
  }

  function WithOwn(t: Totals, s: Snapshot, x: Input): Totals {
    if t.source == Some(s.id)
    then t.(labels := t.labels + LabelsOf(x.labels, s.id), evals := t.evals + EvalsOf(x.evals, s.id))
    else t
  }

  /** One more snapshot row: the totals of the longer list, from those of the shorter one. */
  lemma TotalsExtend(snapshots: seq<Snapshot>, s: Snapshot, x: Input, role: Role)
    ensures TotalsOf(snapshots + [s], x, role)
         == WithOwn(AfterSplits(TotalsOf(snapshots, x, role), x.splits, s, role), s, x)
  {
    assert (snapshots + [s])[..|snapshots|] == snapshots;
    var before := Source(snapshots, x.splits, role);
    if before.None? && HasRole(x.splits, s, role) {
      NewSupplierIsFirst(snapshots, x.splits, role, s);
    } else if before.Some? {
      var k := RowsWithId(snapshots, before.value);
      OneMore(k, LabelsOf(x.labels, before.value));
      OneMore(k, EvalsOf(x.evals, before.value));
    }
  }

  lemma OneMore(k: nat, n: int)
    ensures (k + 1) * n == k * n + n
  {
  }

  /** The accumulator loop over the layer's snapshots. */
  method CollectLayer(x: Input, models: set<string>) returns (acc: map<Role, Totals>)
    ensures acc.Keys == ROLES
    ensures forall r :: r in ROLES ==> acc[r] == TotalsOf(OfModels(x.snapshots, models), x, r)
  {
    acc := map r | r in ROLES :: Totals(0, 0, 0, 0, None);
    var own := OfModels(x.snapshots, models);
    for i := 0 to |own|
      invariant acc.Keys == ROLES
      invariant forall r :: r in ROLES ==> acc[r] == TotalsOf(own[..i], x, r)
    {
      var s := own[i];
      assert own[..i + 1] == own[..i] + [s];
      forall r | r in ROLES {
        TotalsExtend(own[..i], s, x, r);
      }
      acc := AddSplits(acc, x.splits, s);
      acc := map r | r in ROLES :: WithOwn(acc[r], s, x);
    }
    assert own[..|own|] == own;
  }

  // ----- from evidence to the planner -----

  /** The gap a base role's totals raise: no months, else no labels, else no evaluation. */
  function RoleGap(role: Role, t: Totals): Option<Gap> {
    if t.months == 0 then Some(Coverage)
    else if t.labels == 0 && role != Train then Some(MissingLabels)
    else if t.evals == 0 && (role == Validation || role == Test) then Some(MissingEvalRun)
    else None
  }

  /** Gaps read off the metrics, and those the totals of the four base roles raise. */
  function GapsOf(metricGaps: set<Gap>, own: seq<Snapshot>, x: Input): set<Gap> {
    metricGaps
    + if own == [] then {Coverage}
      else set r | r in BASE_ROLES && RoleGap(r, TotalsOf(own, x, r)).Some? :: RoleGap(r, TotalsOf(own, x, r)).value
  }

  function RoleRow(own: seq<Snapshot>, x: Input, role: Role): RoleEvidence {
    RoleEvidence(role, TotalsOf(own, x, role).months)
  }

  /** The layer row the collector hands to the planner: production is never approved here. */
  function CollectedLayer(x: Input, models: set<string>, metricGaps: set<Gap>): LayerEvidence {
    var own := OfModels(x.snapshots, models);
    LayerEvidence([RoleRow(own, x, Train), RoleRow(own, x, Calibration), RoleRow(own, x, Validation),
        RoleRow(own, x, Test),
                   RoleRow(own, x, ForwardHoldout), RoleRow(own, x, ShadowMonitoring)],
                  GapsOf(metricGaps, own, x), false)
  }

  /** Role by role, which gap the totals raise: no months, then no labels, then no evaluation. */
  lemma GapSays(role: Role, t: Totals)
    ensures var gap := RoleGap(role, t);
            && (gap == Some(Coverage) <==> t.months == 0)
            && (gap == Some(MissingLabels) <==> t.months != 0 && t.labels == 0 && role != Train)
            && (gap == Some(MissingEvalRun) <==>
                  t.months != 0 && t.labels != 0 && t.evals == 0 && (role == Validation || role == Test))
            && (gap.Some? ==> gap.value in {Coverage, MissingLabels, MissingEvalRun})
  {
  }

  /** The gaps of a layer: those of the metrics, and a coverage gap without a snapshot, else those of its base roles. */
  lemma GapsSay(metricGaps: set<Gap>, own: seq<Snapshot>, x: Input, g: Gap)
    ensures own == [] ==> (g in GapsOf(metricGaps, own, x) <==> g in metricGaps || g == Coverage)
    ensures own != [] ==>
        (g in GapsOf(metricGaps, own, x) <==>
           || g in metricGaps
           || RoleGap(Train, TotalsOf(own, x, Train)) == Some(g)
           || RoleGap(Calibration, TotalsOf(own, x, Calibration)) == Some(g)
           || RoleGap(Validation, TotalsOf(own, x, Validation)) == Some(g)
           || RoleGap(Test, TotalsOf(own, x, Test)) == Some(g))
  {
    hide RoleGap, TotalsOf;
    assert Train in BASE_ROLES && Calibration in BASE_ROLES && Validation in BASE_ROLES && Test in BASE_ROLES;
  }

  ghost predicate IsCollected(e: LayerEvidence) {
    exists x: Input, models: set<string>, gaps: set<Gap> :: e == CollectedLayer(x, models, gaps)
  }

  /** Collected evidence can never make the planner select shadow monitoring. */
  lemma CollectedNeverShadows(layers: seq<LayerMeta>, ev: Evidence, min: Minimums)
    requires Covered(layers, ev) && Chronological(layers) && forall l :: l in ev ==> IsCollected(ev[l])
    ensures Decide(layers, ev, min).Some? ==> !Decide(layers, ev, min).value.role.ShadowMonitoring?
  {
    DecideIsLeastGap(layers, ev, min);
    if Decide(layers, ev, min).Some? {
      var c := Decide(layers, ev, min).value;
      var k: nat :| LeastGapAt(layers, ev, min, k, c.role) && layers[k].layer == c.layer;
      assert IsCollected(ev[c.layer]);
      var x, models, gaps :| ev[c.layer] == CollectedLayer(x, models, gaps);
    }
  }

  /** A collected layer with some base role empty always reports the coverage gap, and so needs a forward holdout. */
  lemma EmptyRoleNeedsHoldout(x: Input, models: set<string>, gaps: set<Gap>, role: Role)
    requires role in BASE_ROLES && Total(ByMonths, OfModels(x.snapshots, models), x.splits, role) == 0
    ensures NeedsHoldout(CollectedLayer(x, models, gaps))
  {
    var e, own := CollectedLayer(x, models, gaps), OfModels(x.snapshots, models);
    assert RoleGap(role, TotalsOf(own, x, role)) == Some(Coverage);
    assert Coverage in e.gaps;
    assert Coverage in e.gaps * {Coverage, Drift, SplitStability, StaleHoldout, RegimeCoverage, BaselineInstability};
  }

  /** The months the planner reads for a role are the collector's sum for that role. */
  lemma PlannerReadsTotals(x: Input, models: set<string>, gaps: set<Gap>, role: Role)
    ensures Months(CollectedLayer(x, models, gaps).roles, role)
              == Total(ByMonths, OfModels(x.snapshots, models), x.splits, role)
  {
    var own, rows := OfModels(x.snapshots, models), CollectedLayer(x, models, gaps).roles;
    assert rows[..5][..4] == rows[..4] && rows[..4][..3] == rows[..3] && rows[..3][..2] == rows[..2]
        && rows[..2][..1] == rows[..1];
    assert rows[..1] == [RoleRow(own, x, Train)];
    assert Months(rows[..1], Train) == TotalsOf(own, x, Train).months;
    assert Months(rows[..2], role) == if role == Calibration then TotalsOf(own, x, role).months
        else Months(rows[..1], role);
    assert Months(rows[..3], role) == if role == Validation then TotalsOf(own, x, role).months
        else Months(rows[..2], role);
    assert Months(rows[..4], role) == if role == Test then TotalsOf(own, x, role).months else Months(rows[..3], role);
    assert Months(rows[..5], role) == if role == ForwardHoldout then TotalsOf(own, x, role).months
        else Months(rows[..4], role);
  }
}
