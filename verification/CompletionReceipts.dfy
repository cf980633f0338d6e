/**
 Normalising a component completion receipt into manifests, artifacts and ready signals, and the three keyed upserts
 that store them.
 */
module CompletionReceipts {
  import opened Wrappers
  import opened Text

  // ----- the receipt -----

  /** A reference is a string, an object with some of uri/ref/path (empty when missing), or something else. */
  datatype Ref = Plain(text: string) | Object(uri: string, ref: string, path: string) | Opaque

  /** Steps are listed in order of their names; a step that is not an object contributes nothing. */
  datatype Step = Step(isObject: bool, references: seq<Ref>)

  /** Empty strings stand for missing fields. */
  datatype Run = Run(runId: string, status: string, startedAt: string,
                     outputRefs: seq<Ref>, outputs: seq<Ref>, artifacts: seq<Ref>, steps: seq<Step>)

  /** An entry of `runs` that is not an object is None; `top` holds the receipt's own run fields. */
  datatype Receipt = Receipt(runs: seq<Option<Run>>, top: Run)

  datatype Context = Context(requestId: string, componentId: string, repoId: string, receiptUri: string)

  /** An artifact id, before `IdOf` prints it. */
  datatype Key = ReceiptKey(run: string) | OutputKey(run: string, index: nat) | StepKey(run: string, index: nat)

  datatype Ready = ReadyNow | Partial | FailedRun | Cancelled | Blocked
  datatype RunStatus = Succeeded | Ended(ready: Ready)

  datatype Manifest = Manifest(runId: string, requestId: string, status: RunStatus)
  datatype Schema = ReceiptSchema | OutputSchema | StepSchema
  datatype Artifact = Artifact(key: Key, producer: string, uri: string, schema: Schema, active: bool)
  datatype Signal = Signal(id: string, producer: string, refs: seq<Key>, status: Ready, reviewRequired: bool)
  datatype Rows = Rows(manifests: seq<Manifest>, artifacts: seq<Artifact>, signals: seq<Signal>)

  datatype Fault = MissingField | NotAnObject | NoRuns | MissingStart(runId: string)

  // ----- keys -----

  function IdOf(k: Key): string {
    match k
    case ReceiptKey(run) => "art_receipt_" + run
    case OutputKey(run, i) => "art_output_" + run + "_" + Pad3(i)
    case StepKey(run, i) => "art_step_" + run + "_" + Pad3(i)
  }

  lemma KindShows(k: Key)
    ensures |IdOf(k)| > 4 && IdOf(k)[4] == if k.ReceiptKey? then 'r' else if k.OutputKey? then 'o' else 's'
  {
    match k
    case ReceiptKey(run) => assert "art_receipt_"[4] == 'r';
    case OutputKey(run, i) => assert "art_output_"[4] == 'o';
    case StepKey(run, i) => assert "art_step_"[4] == 's';
  }

  lemma DropPrefix(p: string, a: string, b: string)
    requires p + a == p + b
    ensures a == b
  {
    assert a == (p + a)[|p|..] && b == (p + b)[|p|..];
  }

  /** An artifact id string determines its kind, its run id and its index, whatever characters run ids hold. */
  lemma IdsAreInjective(k: Key, l: Key)
    requires IdOf(k) == IdOf(l)
    ensures k == l
  {
    KindShows(k);
    KindShows(l);
    match k
    case ReceiptKey(run) => DropPrefix("art_receipt_", run, l.run);
    case OutputKey(run, i) => NumberedKeySplits("art_output_" + run, i, "art_output_" + l.run, l.index);
                              DropPrefix("art_output_", run, l.run);
    case StepKey(run, i) => NumberedKeySplits("art_step_" + run, i, "art_step_" + l.run, l.index);
                            DropPrefix("art_step_", run, l.run);
  }

  // ----- statuses and uris -----

  function StatusOf(run: Run): string { Lower(Strip(if run.status == "" then "failed" else run.status)) }

  function ReadyStatus(status: string): Ready {
    if status in {"succeeded", "success", "completed", "complete", "ready"} then ReadyNow
    else if status in {"partial", "partial_ready"} then Partial
    else if status in {"failed", "failure", "error"} then FailedRun
    else if status == "cancelled" then Cancelled
    else Blocked
  }

  /** Only the statuses that count as success make a signal ready. */
  function ManifestStatus(ready: Ready): RunStatus { if ready.ReadyNow? then Succeeded else Ended(ready) }

  predicate Live(ready: Ready) { ready.ReadyNow? || ready.Partial? }

  predicate IsPrefix(p: string, s: string) { |p| <= |s| && s[..|p|] == p }

  function Canonical(value: string, repoId: string): string {
    var text := Strip(value);
    if IsPrefix("storage://", text) then text
    else if IsPrefix("storage/", text) then "storage://" + repoId + "/" + text[|"storage/"|..]
    else text
  }

  /** The canonical uri of a reference; empty when it has none. */
  function UriOf(r: Ref, repoId: string): string {
    match r
    case Plain(text) => Canonical(text, repoId)
    case Object(uri, ref, path) =>
      var value := if uri != "" then uri else if ref != "" then ref else path;
      if value == "" then "" else Canonical(value, repoId)
    case Opaque => ""
  }

  lemma TidyKeeps(s: string)
    requires s != "" && !IsSpace(s[0]) && !IsSpace(s[|s| - 1])
    ensures Strip(s) == s
  {
  }

  /** The short and the long spelling of a stored object are the same uri; any other tidy text is its own. */
  lemma SpellingsMeet(text: string, repoId: string)
    requires text != "" && !IsSpace(text[|text| - 1])
    ensures Canonical("storage/" + text, repoId) == "storage://" + repoId + "/" + text
    ensures Canonical("storage://" + repoId + "/" + text, repoId) == "storage://" + repoId + "/" + text
    ensures !IsSpace(text[0]) && !IsPrefix("storage/", text) ==> Canonical(text, repoId) == text
    ensures !IsSpace(text[0]) ==> Canonical(" " + text, repoId) == Canonical(text, repoId)
  {
    var short, long := "storage/" + text, "storage://" + repoId + "/" + text;
    TidyKeeps(short);
    TidyKeeps(long);
    assert short[|"storage/"|..] == text;
    assert short[7] == '/' && "storage://"[7] == ':' && long[7] == ':';
    if !IsSpace(text[0]) {
      TidyKeeps(text);
      assert (" " + text)[1..] == text;
    }
  }

  // ----- one run, resolved -----

  /** A run with its id, status and uris resolved; an empty uri is a reference without one. */
  datatype Resolved = Resolved(runId: string, ready: Ready, outputUris: seq<string>, stepUris: seq<string>)

  function RunIdOf(run: Run, index: nat, ctx: Context): string {
    if run.runId != "" then run.runId else ctx.requestId + "_run_" + Pad3(index)
  }

  function OutputsOf(run: Run): seq<Ref> {
    if run.outputRefs != [] then run.outputRefs else if run.outputs != [] then run.outputs else run.artifacts
  }

  function References(steps: seq<Step>): seq<Ref> {
    if steps == [] then []
    else
      var n := |steps| - 1;
      References(steps[..n]) + if steps[n].isObject then steps[n].references else []
  }

  function UrisOf(refs: seq<Ref>, repoId: string): seq<string> {
    seq(|refs|, i requires 0 <= i < |refs| => UriOf(refs[i], repoId))
  }

  function Resolve(run: Run, index: nat, ctx: Context): Resolved {
    Resolved(RunIdOf(run, index, ctx), ReadyStatus(StatusOf(run)),
             UrisOf(OutputsOf(run), ctx.repoId), UrisOf(References(run.steps), ctx.repoId))
  }

  function ResolveAll(runs: seq<Run>, ctx: Context): seq<Resolved> {
    seq(|runs|, i requires 0 <= i < |runs| => Resolve(runs[i], i + 1, ctx))
  }

  /** The uri of an object is its first nonempty field, of a text the text, and anything else has none. */
  lemma UriSays(r: Ref, repoId: string)
    ensures r.Plain? ==> UriOf(r, repoId) == Canonical(r.text, repoId)
    ensures r.Object? && r.uri != "" ==> UriOf(r, repoId) == Canonical(r.uri, repoId)
    ensures r.Object? && r.uri == "" && r.ref != "" ==> UriOf(r, repoId) == Canonical(r.ref, repoId)
    ensures r.Object? && r.uri == "" && r.ref == "" && r.path != "" ==> UriOf(r, repoId) == Canonical(r.path, repoId)
    ensures r.Opaque? || (r.Object? && r.uri == "" && r.ref == "" && r.path == "") ==> UriOf(r, repoId) == ""
  {
  }

  /** Outputs are read from the first of the three fields that lists any; references from the object steps alone. */
  lemma OutputsSay(run: Run)
    ensures run.outputRefs != [] ==> OutputsOf(run) == run.outputRefs
    ensures run.outputRefs == [] && run.outputs != [] ==> OutputsOf(run) == run.outputs
    ensures run.outputRefs == [] && run.outputs == [] ==> OutputsOf(run) == run.artifacts
  {
  }

  /** The references of steps taken together are those of the steps one after the other, object steps only. */
  lemma {:induction false} ReferencesJoin(a: seq<Step>, b: seq<Step>)
    ensures References(a + b) == References(a) + References(b)
    ensures |a| == 1 ==> References(a) == if a[0].isObject then a[0].references else []
  {
    if b == [] {
      assert a + b == a;
    } else {
      var n := |b| - 1;
      ReferencesJoin(a, b[..n]);
      assert (a + b)[..|a + b| - 1] == a + b[..n];
    }
  }

  // ----- rows of one run -----

  /** A skipped output still uses up its index. */
  function OutputRows(runId: string, uris: seq<string>, live: bool): seq<Artifact> {
    if uris == [] then []
    else
      var n := |uris| - 1;
      OutputRows(runId, uris[..n], live)
      + if uris[n] == "" then [] else [Artifact(OutputKey(runId, n + 1), runId, uris[n], OutputSchema, live)]
  }

  function Uris(rows: seq<Artifact>): set<string> { set r | r in rows :: r.uri }

  /** Rows for the uris that are new; `known` is what the run already lists. */
  function StepRows(runId: string, uris: seq<string>, known: set<string>, live: bool): seq<Artifact> {
    if uris == [] then []
    else
      var n := |uris| - 1;
      var rows := StepRows(runId, uris[..n], known, live);
      if uris[n] == "" || uris[n] in known + Uris(rows) then rows
      else rows + [Artifact(StepKey(runId, |rows| + 1), runId, uris[n], StepSchema, live)]
  }

  function OutputsFor(p: Resolved): seq<Artifact> { OutputRows(p.runId, p.outputUris, Live(p.ready)) }

  function StepsFor(p: Resolved, receiptUri: string): seq<Artifact> {
    StepRows(p.runId, p.stepUris, {receiptUri} + Uris(OutputsFor(p)), Live(p.ready))
  }

  function ArtifactsOf(p: Resolved, receiptUri: string): seq<Artifact> {
    [Artifact(ReceiptKey(p.runId), p.runId, receiptUri, ReceiptSchema, Live(p.ready))] + OutputsFor(p)
        + StepsFor(p, receiptUri)
  }

  function Keys(rows: seq<Artifact>): seq<Key> { seq(|rows|, i requires 0 <= i < |rows| => rows[i].key) }

  /** What one run contributes. */
  datatype Bundle = Bundle(manifest: Manifest, artifacts: seq<Artifact>, signal: Signal)

  function BundleOf(p: Resolved, ctx: Context): Bundle {
    var artifacts := ArtifactsOf(p, ctx.receiptUri);
    Bundle(Manifest(p.runId, ctx.requestId, ManifestStatus(p.ready)), artifacts,
           Signal("ready_" + p.runId, p.runId, Keys(artifacts), p.ready, p.ready.Partial?))
  }

  function Extend(rows: Rows, b: Bundle): Rows {
    Rows(rows.manifests + [b.manifest], rows.artifacts + b.artifacts, rows.signals + [b.signal])
  }

  function RowsOf(ps: seq<Resolved>, ctx: Context): Rows {
    if ps == [] then Rows([], [], [])
    else Extend(RowsOf(ps[..|ps| - 1], ctx), BundleOf(ps[|ps| - 1], ctx))
  }

  function ReceiptRuns(receipt: Receipt): Result<seq<Run>, Fault> {
    if receipt.runs != [] then
      if exists r :: r in receipt.runs && r.None? then Err(NotAnObject)
      else Ok(seq(|receipt.runs|, i requires 0 <= i < |receipt.runs| =>
        assert receipt.runs[i] in receipt.runs; receipt.runs[i].value))
    else if receipt.top.runId != "" || receipt.top.status != "" then Ok([receipt.top])
    else Err(NoRuns)
  }

  /** The first run, from index i on, without a start time. */
  function Unstarted(runs: seq<Run>, i: nat): Option<nat>
    requires i <= |runs|
    decreases |runs| - i
  {
    if i == |runs| then None else if runs[i].startedAt == "" then Some(i) else Unstarted(runs, i + 1)
  }

  lemma {:induction false} UnstartedIsFirst(runs: seq<Run>, i: nat)
    requires i <= |runs|
    ensures match Unstarted(runs, i)
            case Some(j) =>
              i <= j < |runs| && runs[j].startedAt == "" && forall k :: i <= k < j ==> runs[k].startedAt != ""
            case None => forall k :: i <= k < |runs| ==> runs[k].startedAt != ""
    decreases |runs| - i
  {
    if i < |runs| && runs[i].startedAt != "" {
      UnstartedIsFirst(runs, i + 1);
    }
  }

  /** All rows of the receipt, or the id of the first run that has no start time. */
  function RowsOrFault(runs: seq<Run>, ctx: Context): Result<Rows, Fault> {
    var bad := Unstarted(runs, 0);
    UnstartedIsFirst(runs, 0);
    if bad.Some? then Err(MissingStart(RunIdOf(runs[bad.value], bad.value + 1, ctx)))
    else Ok(RowsOf(ResolveAll(runs, ctx), ctx))
  }

  function Normalize(receipt: Receipt, ctx: Context): Result<Rows, Fault> {
    if ctx.requestId == "" || ctx.componentId == "" || ctx.repoId == "" || ctx.receiptUri == "" then Err(MissingField)
    else
      match ReceiptRuns(receipt)
      case Err(e) => Err(e)
      case Ok(runs) => RowsOrFault(runs, ctx)
  }

  /** A run keeps its own id and gets one from the request and its place otherwise. */
  lemma RunIdSays(run: Run, index: nat, ctx: Context)
    ensures run.runId != "" ==> RunIdOf(run, index, ctx) == run.runId
    ensures run.runId == "" ==> RunIdOf(run, index, ctx) == ctx.requestId + "_run_" + Pad3(index)
  {
  }

  predicate FieldMissing(ctx: Context) {
    "" in [ctx.requestId, ctx.componentId, ctx.repoId, ctx.receiptUri]
  }

  /** The runs of a receipt: those it lists, or the receipt itself when it lists none. */
  ghost predicate Submitted(receipt: Receipt, runs: seq<Run>) {
    if receipt.runs == [] then runs == [receipt.top]
    else |runs| == |receipt.runs| && forall i :: 0 <= i < |runs| ==> receipt.runs[i] == Some(runs[i])
  }

  ghost predicate Started(receipt: Receipt, ctx: Context, rows: Rows) {
    exists runs: seq<Run> ::
      && Submitted(receipt, runs) && rows == RowsOf(ResolveAll(runs, ctx), ctx)
      && forall r :: r in runs ==> r.startedAt != ""
  }

  ghost predicate FirstUnstarted(receipt: Receipt, ctx: Context, runId: string) {
    exists runs: seq<Run>, i: nat ::
      && Submitted(receipt, runs) && i < |runs| && runs[i].startedAt == ""
      && (forall k :: 0 <= k < i ==> runs[k].startedAt != "") && runId == RunIdOf(runs[i], i + 1, ctx)
  }

  /**
   When a receipt is normalised and what stops it: a missing field, an entry that is no object, a receipt that neither
   lists runs nor is one, or the first run without a start time.
   */
  lemma NormalizeIff(receipt: Receipt, ctx: Context)
    ensures var result := Normalize(receipt, ctx);
            && (result == Err(MissingField) <==> FieldMissing(ctx))
            && (result == Err(NotAnObject) <==> !FieldMissing(ctx) && None in receipt.runs)
            && (result == Err(NoRuns) <==>
                  !FieldMissing(ctx) && receipt.runs == [] && receipt.top.runId == "" && receipt.top.status == "")
            && (result.Ok? ==> Started(receipt, ctx, result.value))
            && (result.Err? && result.error.MissingStart? ==> FirstUnstarted(receipt, ctx, result.error.runId))
  {
    hide RowsOf, ResolveAll, RunIdOf;
    if ReceiptRuns(receipt).Ok? {
      var runs := ReceiptRuns(receipt).value;
      SubmittedRuns(receipt);
      UnstartedIsFirst(runs, 0);
      if Unstarted(runs, 0).Some? {
        assert FirstUnstarted(receipt, ctx, RunIdOf(runs[Unstarted(runs, 0).value], Unstarted(runs, 0).value + 1, ctx));
      }
    }
  }

  lemma SubmittedRuns(receipt: Receipt)
    requires ReceiptRuns(receipt).Ok?
    ensures Submitted(receipt, ReceiptRuns(receipt).value)
  {
    if receipt.runs != [] {
      forall i | 0 <= i < |receipt.runs| ensures receipt.runs[i].Some? {
        assert receipt.runs[i] in receipt.runs;
      }
    }
  }

  // ----- one run's artifacts -----

  ghost predicate DistinctKeys(rows: seq<Artifact>) {
    forall i, j :: 0 <= i < j < |rows| ==> rows[i].key != rows[j].key
  }

  predicate OwnKey(r: Artifact) { r.key.run == r.producer }

  lemma DistinctKeysConcat(a: seq<Artifact>, b: seq<Artifact>)
    requires DistinctKeys(a) && DistinctKeys(b)
    requires forall x, y :: x in a && y in b ==> x.key != y.key
    ensures DistinctKeys(a + b)
  {
    var rows := a + b;
    forall i, j | 0 <= i < j < |rows| ensures rows[i].key != rows[j].key {
      if i < |a| <= j {
        assert rows[i] in a && rows[j] in b;
      }
    }
  }

  lemma {:induction false} OutputRowsKeyed(runId: string, uris: seq<string>, live: bool)
    ensures var rows := OutputRows(runId, uris, live);
            && DistinctKeys(rows)
            && (forall r :: r in rows ==>
                  r.producer == runId && r.key.OutputKey? && r.key.run == runId && r.key.index <= |uris|)
  {
    if uris != [] {
      OutputRowsKeyed(runId, uris[..|uris| - 1], live);
    }
  }

  /** Output rows sit at their outputs' own places: a row for every output with a uri, under its index, and no other. */
  lemma {:induction false} OutputRowsPlaced(runId: string, uris: seq<string>, live: bool, i: nat)
    ensures var rows := OutputRows(runId, uris, live);
            (exists r :: r in rows && r.key == OutputKey(runId, i)) <==> 1 <= i <= |uris| && uris[i - 1] != ""
    ensures forall r :: r in OutputRows(runId, uris, live) && r.key == OutputKey(runId, i) ==>
              1 <= i <= |uris| && r.uri == uris[i - 1] && r.active == live
  {
    if uris != [] {
      var n := |uris| - 1;
      OutputRowsPlaced(runId, uris[..n], live, i);
      var last := Artifact(OutputKey(runId, n + 1), runId, uris[n], OutputSchema, live);
      var rows, front := OutputRows(runId, uris, live), OutputRows(runId, uris[..n], live);
      assert forall r :: r in rows <==> r in front || (uris[n] != "" && r == last);
    }
  }

  lemma UrisAppend(rows: seq<Artifact>, r: Artifact)
    ensures Uris(rows + [r]) == Uris(rows) + {r.uri}
  {
    assert r in rows + [r];
    assert forall x :: x in rows ==> x in rows + [r];
  }

  ghost predicate KeyedInOrder(runId: string, rows: seq<Artifact>) {
    forall i: nat :: i < |rows| ==> rows[i].key == StepKey(runId, i + 1) && rows[i].producer == runId
  }

  /** Step rows carry the keys 1, 2, ... */
  lemma {:induction false} StepRowsKeyed(runId: string, uris: seq<string>, known: set<string>, live: bool)
    ensures var rows := StepRows(runId, uris, known, live);
            KeyedInOrder(runId, rows)
  {
    if uris != [] {
      var n := |uris| - 1;
      var before, rows := StepRows(runId, uris[..n], known, live), StepRows(runId, uris, known, live);
      StepRowsKeyed(runId, uris[..n], known, live);
      if uris[n] == "" || uris[n] in known + Uris(before) {
        assert rows == before;
      } else {
        var row := Artifact(StepKey(runId, |before| + 1), runId, uris[n], StepSchema, live);
        assert rows == before + [row];
        assert KeyedInOrder(runId, before + [row]);
      }
    }
  }

  ghost predicate DistinctUris(rows: seq<Artifact>) {
    forall i, j :: 0 <= i < j < |rows| ==> rows[i].uri != rows[j].uri
  }

  /** Step rows have new, distinct uris only, and no uri among the references is lost. */
  lemma {:induction false} StepRowsNew(runId: string, uris: seq<string>, known: set<string>, live: bool)
    ensures var rows := StepRows(runId, uris, known, live);
            && DistinctUris(rows) && Uris(rows) !! known && "" !in Uris(rows)
            && (forall u :: u in uris && u != "" ==> u in known + Uris(rows))
  {
    if uris != [] {
      var n := |uris| - 1;
      StepRowsNew(runId, uris[..n], known, live);
      var before := StepRows(runId, uris[..n], known, live);
      assert uris == uris[..n] + [uris[n]];
      if uris[n] != "" && uris[n] !in known + Uris(before) {
        var row := Artifact(StepKey(runId, |before| + 1), runId, uris[n], StepSchema, live);
        UrisAppend(before, row);
        forall i | 0 <= i < |before| ensures before[i].uri != row.uri {
          assert before[i] in before;
        }
      }
    }
  }

  /** Step rows come in the order in which their uris are first referred to. */
  lemma {:induction false} StepRowsInOrder(runId: string, uris: seq<string>, known: set<string>, live: bool)
    ensures var rows := StepRows(runId, uris, known, live);
            && (forall i :: 0 <= i < |rows| ==> rows[i].uri in uris)
            && forall i, j, q :: 0 <= i < j < |rows| && 0 <= q < |uris| && uris[q] == rows[j].uri
                 ==> rows[i].uri in uris[..q]
  {
    if uris != [] {
      var n := |uris| - 1;
      var front := uris[..n];
      var before, rows := StepRows(runId, front, known, live), StepRows(runId, uris, known, live);
      StepRowsInOrder(runId, front, known, live);
      StepRowsNew(runId, front, known, live);
      assert uris == front + [uris[n]];
      assert forall q :: 0 <= q < n ==> uris[q] in front;
      forall i, j, q | 0 <= i < j < |rows| && 0 <= q < |uris| && uris[q] == rows[j].uri
        ensures rows[i].uri in uris[..q]
      {
        assert rows[i] == before[i];
        if j < |before| {
          assert rows[j] == before[j];
          if q < n {
            assert front[q] == before[j].uri && front[..q] == uris[..q];
          } else {
            assert uris[..q] == front;
          }
        } else if q == n {
          assert uris[..q] == front;
        } else {
          assert false;
        }
      }
    }
  }

  /**
   The uris of one run's artifacts: step references repeat neither each other nor the receipt nor any output, and
   every uri the run refers to is listed.
   */
  lemma StepUrisAreNew(p: Resolved, receiptUri: string)
    ensures DistinctUris(StepsFor(p, receiptUri))
    ensures receiptUri !in Uris(StepsFor(p, receiptUri)) && Uris(StepsFor(p, receiptUri)) !! Uris(OutputsFor(p))
    ensures forall u :: u in p.stepUris && u != "" ==>
              u in {receiptUri} + Uris(OutputsFor(p)) + Uris(StepsFor(p, receiptUri))
  {
    StepRowsNew(p.runId, p.stepUris, {receiptUri} + Uris(OutputsFor(p)), Live(p.ready));
  }

  /** All keys of one run are distinct and its own, and the first is its receipt's. */
  lemma RunArtifactsKeyed(p: Resolved, receiptUri: string)
    ensures var rows := ArtifactsOf(p, receiptUri);
            && DistinctKeys(rows) && rows != [] && rows[0].key == ReceiptKey(p.runId)
            && rows[0].uri == receiptUri && rows[0].schema == ReceiptSchema
            && forall r :: r in rows ==> r.producer == p.runId && OwnKey(r)
  {
    OutputRowsKeyed(p.runId, p.outputUris, Live(p.ready));
    StepRowsKeyed(p.runId, p.stepUris, {receiptUri} + Uris(OutputsFor(p)), Live(p.ready));
    var outs, steps := OutputsFor(p), StepsFor(p, receiptUri);
    var first := [Artifact(ReceiptKey(p.runId), p.runId, receiptUri, ReceiptSchema, Live(p.ready))];
    forall x | x in steps ensures x.key.StepKey? && x.key.run == p.runId && x.producer == p.runId {
      var i :| 0 <= i < |steps| && steps[i] == x;
    }
    DistinctKeysConcat(first, outs);
    DistinctKeysConcat(first + outs, steps);
  }

  // ----- conservation over the receipt -----

  function AllRefs(signals: seq<Signal>): seq<Key> {
    if signals == [] then [] else AllRefs(signals[..|signals| - 1]) + signals[|signals| - 1].refs
  }

  /** One manifest and one signal per run, in order; a manifest is succeeded exactly when its signal is ready. */
  lemma {:induction false} RowsMatchRuns(ps: seq<Resolved>, ctx: Context)
    ensures var rows := RowsOf(ps, ctx);
            && |rows.manifests| == |rows.signals| == |ps|
            && forall i :: 0 <= i < |ps| ==>
                 && rows.manifests[i].runId == rows.signals[i].producer == ps[i].runId
                 && (rows.manifests[i].status.Succeeded? <==> rows.signals[i].status.ReadyNow?)
                 && (rows.manifests[i].status.Ended? ==> rows.manifests[i].status.ready == rows.signals[i].status)
                 && rows.manifests[i].requestId == ctx.requestId && rows.signals[i].id == "ready_" + ps[i].runId
                 && rows.signals[i].status == ps[i].ready && (rows.signals[i].reviewRequired <==> ps[i].ready.Partial?)
  {
    hide ArtifactsOf, Keys;
    if ps != [] {
      var n := |ps| - 1;
      var before, b := RowsOf(ps[..n], ctx), BundleOf(ps[n], ctx);
      RowsMatchRuns(ps[..n], ctx);
      assert b.signal.id == "ready_" + ps[n].runId;
      hide BundleOf, RowsOf;
    }
  }

  /** The signals' references, read in order, are exactly the artifact list: none lost, none shared. */
  lemma {:induction false} SignalsPartitionArtifacts(ps: seq<Resolved>, ctx: Context)
    ensures AllRefs(RowsOf(ps, ctx).signals) == Keys(RowsOf(ps, ctx).artifacts)
  {
    hide ArtifactsOf;
    if ps != [] {
      var n := |ps| - 1;
      SignalsPartitionArtifacts(ps[..n], ctx);
      var before, rows, b := RowsOf(ps[..n], ctx), RowsOf(ps, ctx), BundleOf(ps[n], ctx);
      assert rows.signals[..|before.signals|] == before.signals;
      assert Keys(before.artifacts + b.artifacts) == Keys(before.artifacts) + Keys(b.artifacts);
    }
  }

  /** Signal i's references stand for artifacts of its run, all of them active or none. */
  ghost predicate RunPlaced(rows: Rows, i: nat, p: Resolved)
    requires i < |rows.signals|
  {
    var from := |AllRefs(rows.signals[..i])|;
    var to := from + |rows.signals[i].refs|;
    && to <= |rows.artifacts|
    && forall k :: from <= k < to ==>
         rows.artifacts[k].producer == p.runId && rows.artifacts[k].active == Live(p.ready)
  }

  lemma ExtendKeepsPlaced(rows: Rows, b: Bundle, i: nat, p: Resolved)
    requires i < |rows.signals| && RunPlaced(rows, i, p)
    ensures RunPlaced(Extend(rows, b), i, p)
  {
    hide AllRefs, Live;
    assert Extend(rows, b).signals[..i] == rows.signals[..i];
  }

  lemma LastIsPlaced(rows: Rows, b: Bundle, p: Resolved)
    requires AllRefs(rows.signals) == Keys(rows.artifacts) && |b.signal.refs| == |b.artifacts|
    requires forall r :: r in b.artifacts ==> r.producer == p.runId && r.active == Live(p.ready)
    ensures RunPlaced(Extend(rows, b), |rows.signals|, p)
  {
    hide AllRefs, Live;
    assert Extend(rows, b).signals[..|rows.signals|] == rows.signals;
    assert |Keys(rows.artifacts)| == |rows.artifacts|;
    forall k | |rows.artifacts| <= k < |rows.artifacts| + |b.artifacts|
      ensures Extend(rows, b).artifacts[k] in b.artifacts
    {
      assert Extend(rows, b).artifacts[k] == b.artifacts[k - |rows.artifacts|];
    }
  }

  lemma {:induction false} ArtifactsOfRun(ps: seq<Resolved>, ctx: Context, i: nat)
    requires i < |ps|
    ensures |RowsOf(ps, ctx).signals| == |ps| && RunPlaced(RowsOf(ps, ctx), i, ps[i])
  {
    hide RunPlaced, BundleOf, Extend;
    var n := |ps| - 1;
    var before, b := RowsOf(ps[..n], ctx), BundleOf(ps[n], ctx);
    RowsMatchRuns(ps[..n], ctx);
    RowsMatchRuns(ps, ctx);
    if i < n {
      ArtifactsOfRun(ps[..n], ctx, i);
      ExtendKeepsPlaced(before, b, i, ps[i]);
    } else {
      SignalsPartitionArtifacts(ps[..n], ctx);
      BundleIsLive(ps[n], ctx);
      LastIsPlaced(before, b, ps[n]);
    }
  }

  lemma BundleIsLive(p: Resolved, ctx: Context)
    ensures var b := BundleOf(p, ctx);
            && |b.signal.refs| == |b.artifacts|
            && forall r :: r in b.artifacts ==> r.producer == p.runId && r.active == Live(p.ready)
  {
    hide ArtifactsOf, Live, DistinctKeys, OwnKey;
    RunArtifactsLive(p, ctx.receiptUri);
    RunArtifactsKeyed(p, ctx.receiptUri);
  }

  lemma {:induction false} OutputRowsLive(runId: string, uris: seq<string>, live: bool)
    ensures forall r :: r in OutputRows(runId, uris, live) ==> r.active == live && r.schema.OutputSchema?
  {
    if uris != [] {
      OutputRowsLive(runId, uris[..|uris| - 1], live);
    }
  }

  lemma {:induction false} StepRowsLive(runId: string, uris: seq<string>, known: set<string>, live: bool)
    ensures forall r :: r in StepRows(runId, uris, known, live) ==> r.active == live && r.schema.StepSchema?
  {
    if uris != [] {
      StepRowsLive(runId, uris[..|uris| - 1], known, live);
    }
  }

  lemma RunArtifactsLive(p: Resolved, receiptUri: string)
    ensures forall r :: r in ArtifactsOf(p, receiptUri) ==> r.active == Live(p.ready)
  {
    OutputRowsLive(p.runId, p.outputUris, Live(p.ready));
    StepRowsLive(p.runId, p.stepUris, {receiptUri} + Uris(OutputsFor(p)), Live(p.ready));
  }

  predicate SuccessWord(text: string) { text in ["succeeded", "success", "completed", "complete", "ready"] }
  predicate PartialWord(text: string) { text in ["partial", "partial_ready"] }
  predicate FailureWord(text: string) { text in ["failed", "failure", "error"] }

  /** What a submitted run's own status says about its manifest and its signal. */
  ghost predicate Reported(run: Run, manifest: Manifest, signal: Signal) {
    var text := Lower(Strip(run.status));
    && (signal.status.ReadyNow? <==> SuccessWord(text))
    && (manifest.status.Succeeded? <==> SuccessWord(text))
    && (signal.status.Partial? <==> PartialWord(text))
    && (signal.reviewRequired <==> PartialWord(text))
    && (signal.status.FailedRun? <==> run.status == "" || FailureWord(text))
    && (signal.status.Cancelled? <==> text == "cancelled")
    && (manifest.status.Succeeded? || manifest.status == Ended(signal.status))
  }

  /**
   From a submitted run's status to its rows: success, partial, failure and cancellation each have their own words,
   spaces around and case aside; a run without a status has failed, and any other text blocks. The run's artifacts
   are active exactly for the words of success and of partial success.
   */
  lemma StatusDecidesRows(runs: seq<Run>, ctx: Context, i: nat)
    requires i < |runs|
    ensures var rows := RowsOf(ResolveAll(runs, ctx), ctx);
            && |rows.manifests| == |rows.signals| == |runs|
            && rows.manifests[i].runId == RunIdOf(runs[i], i + 1, ctx)
            && Reported(runs[i], rows.manifests[i], rows.signals[i])
            && var from := |AllRefs(rows.signals[..i])|;
               var to := from + |rows.signals[i].refs|;
               && to <= |rows.artifacts|
               && forall k :: from <= k < to ==>
                    (rows.artifacts[k].active
                     <==> SuccessWord(Lower(Strip(runs[i].status))) || PartialWord(Lower(Strip(runs[i].status))))
  {
    hide RowsOf, ResolveAll, Strip, Lower, Resolve, RunIdOf;
    var ps := ResolveAll(runs, ctx);
    ResolvedAt(runs, ctx, i);
    RowsMatchRuns(ps, ctx);
    ArtifactsOfRun(ps, ctx, i);
    WordsDecide(runs[i]);
  }

  lemma ResolvedAt(runs: seq<Run>, ctx: Context, i: nat)
    requires i < |runs|
    ensures |ResolveAll(runs, ctx)| == |runs| && ResolveAll(runs, ctx)[i].ready == ReadyStatus(StatusOf(runs[i]))
    ensures ResolveAll(runs, ctx)[i].runId == RunIdOf(runs[i], i + 1, ctx)
  {
  }

  lemma WordsDecide(run: Run)
    ensures var ready, text := ReadyStatus(StatusOf(run)), Lower(Strip(run.status));
            && (ready.ReadyNow? <==> SuccessWord(text)) && (ready.Partial? <==> PartialWord(text))
            && (ready.FailedRun? <==> run.status == "" || FailureWord(text))
            && (ready.Cancelled? <==> text == "cancelled")
  {
    var word := "failed";
    assert word[0] == 'f' && word[|word| - 1] == 'd';
    assert Strip(word) == word && Lower(word) == word;
    assert run.status == "" ==> Strip(run.status) == "" && Lower("") == "";
  }

  ghost predicate DistinctRuns(ps: seq<Resolved>) {
    forall i, j :: 0 <= i < j < |ps| ==> ps[i].runId != ps[j].runId
  }

  function Flatten(lists: seq<seq<Artifact>>): seq<Artifact> {
    if lists == [] then [] else Flatten(lists[..|lists| - 1]) + lists[|lists| - 1]
  }

  /** The artifacts of one run: distinct keys, all its own, the receipt's first. */
  ghost predicate OwnedBy(rows: seq<Artifact>, run: string) {
    && rows != [] && rows[0].key == ReceiptKey(run) && DistinctKeys(rows)
    && forall r :: r in rows ==> r.producer == run && OwnKey(r)
  }

  ghost predicate AllOwned(lists: seq<seq<Artifact>>, runs: seq<string>) {
    |lists| == |runs| && forall i :: 0 <= i < |lists| ==> OwnedBy(lists[i], runs[i])
  }

  lemma {:induction false} FlattenOwned(lists: seq<seq<Artifact>>, runs: seq<string>)
    requires AllOwned(lists, runs)
    ensures forall r :: r in Flatten(lists) ==> OwnKey(r) && r.producer in runs
  {
    if lists != [] {
      FlattenOwned(lists[..|lists| - 1], runs[..|runs| - 1]);
    }
  }

  /** List i starts right after everything before it. */
  lemma {:induction false} FlattenAt(lists: seq<seq<Artifact>>, i: nat)
    requires i < |lists| && lists[i] != []
    ensures |Flatten(lists[..i])| < |Flatten(lists)| && Flatten(lists)[|Flatten(lists[..i])|] == lists[i][0]
  {
    var n := |lists| - 1;
    if i < n {
      FlattenAt(lists[..n], i);
      assert lists[..n][..i] == lists[..i];
    }
  }

  lemma {:induction false} DistinctRunsDistinctKeys(lists: seq<seq<Artifact>>, runs: seq<string>)
    requires AllOwned(lists, runs) && forall i, j :: 0 <= i < j < |runs| ==> runs[i] != runs[j]
    ensures DistinctKeys(Flatten(lists))
  {
    if lists != [] {
      var n := |lists| - 1;
      DistinctRunsDistinctKeys(lists[..n], runs[..n]);
      FlattenOwned(lists[..n], runs[..n]);
      forall x, y | x in Flatten(lists[..n]) && y in lists[n] ensures x.key != y.key {
        assert OwnKey(x) && OwnKey(y);
      }
      DistinctKeysConcat(Flatten(lists[..n]), lists[n]);
    }
  }

  /** Two runs with one id give the receipt artifact key twice. */
  lemma TwoReceipts(lists: seq<seq<Artifact>>, runs: seq<string>, i: nat, j: nat)
    requires AllOwned(lists, runs) && i < j < |runs| && runs[i] == runs[j]
    ensures !DistinctKeys(Flatten(lists))
  {
    FlattenAt(lists, i);
    FlattenAt(lists, j);
    FlattenAt(lists[..j], i);
    assert lists[..j][..i] == lists[..i];
  }

  function Lists(ps: seq<Resolved>, receiptUri: string): seq<seq<Artifact>> {
    seq(|ps|, i requires 0 <= i < |ps| => ArtifactsOf(ps[i], receiptUri))
  }

  function RunIds(ps: seq<Resolved>): seq<string> { seq(|ps|, i requires 0 <= i < |ps| => ps[i].runId) }

  lemma ListsOwned(ps: seq<Resolved>, receiptUri: string)
    ensures AllOwned(Lists(ps, receiptUri), RunIds(ps))
  {
    forall i | 0 <= i < |ps| ensures OwnedBy(Lists(ps, receiptUri)[i], ps[i].runId) {
      RunArtifactsKeyed(ps[i], receiptUri);
    }
  }

  lemma {:induction false} RowsFlatten(ps: seq<Resolved>, ctx: Context)
    ensures RowsOf(ps, ctx).artifacts == Flatten(Lists(ps, ctx.receiptUri))
  {
    if ps != [] {
      var n := |ps| - 1;
      RowsFlatten(ps[..n], ctx);
      assert Lists(ps, ctx.receiptUri)[..n] == Lists(ps[..n], ctx.receiptUri);
    }
  }

  ghost predicate DistinctIds(rows: seq<Artifact>) {
    forall i, j :: 0 <= i < j < |rows| ==> IdOf(rows[i].key) != IdOf(rows[j].key)
  }

  lemma KeysPrintApart(rows: seq<Artifact>)
    ensures DistinctIds(rows) <==> DistinctKeys(rows)
  {
    forall i, j | 0 <= i < j < |rows| ensures IdOf(rows[i].key) == IdOf(rows[j].key) <==> rows[i].key == rows[j].key {
      if IdOf(rows[i].key) == IdOf(rows[j].key) {
        IdsAreInjective(rows[i].key, rows[j].key);
      }
    }
  }

  /** All printed artifact ids of a receipt are distinct exactly when its resolved run ids are. */
  lemma IdsDistinctIffRunsDistinct(ps: seq<Resolved>, ctx: Context)
    ensures DistinctIds(RowsOf(ps, ctx).artifacts) <==> DistinctRuns(ps)
  {
    var lists, runs := Lists(ps, ctx.receiptUri), RunIds(ps);
    RowsFlatten(ps, ctx);
    ListsOwned(ps, ctx.receiptUri);
    KeysPrintApart(Flatten(lists));
    if DistinctRuns(ps) {
      DistinctRunsDistinctKeys(lists, runs);
    } else {
      var i, j :| 0 <= i < j < |ps| && ps[i].runId == ps[j].runId;
      TwoReceipts(lists, runs, i, j);
    }
  }

  // ----- the store -----

  datatype Db = Db(manifests: map<string, Manifest>, artifacts: map<string, Artifact>, signals: map<string, Signal>)

  const EMPTY := Db(map[], map[], map[])

  function UpsertManifests(t: map<string, Manifest>, rows: seq<Manifest>): map<string, Manifest> {
    if rows == [] then t
    else UpsertManifests(t, rows[..|rows| - 1])[rows[|rows| - 1].runId := rows[|rows| - 1]]
  }

  /** The artifact table is keyed by printed ids; `printId` is the printer. */
  function UpsertArtifacts(printId: Key -> string, t: map<string, Artifact>, rows: seq<Artifact>)
      : map<string, Artifact> {
    if rows == [] then t
    else UpsertArtifacts(printId, t, rows[..|rows| - 1])[printId(rows[|rows| - 1].key) := rows[|rows| - 1]]
  }

  function UpsertSignals(t: map<string, Signal>, rows: seq<Signal>): map<string, Signal> {
    if rows == [] then t
    else UpsertSignals(t, rows[..|rows| - 1])[rows[|rows| - 1].id := rows[|rows| - 1]]
  }

  /** The three committed upserts in order; a crash leaves the store after the first `done` of them. */
  function Persist(printId: Key -> string, db: Db, rows: Rows, done: nat): Db {
    Db(if done >= 1 then UpsertManifests(db.manifests, rows.manifests) else db.manifests,
       if done >= 2 then UpsertArtifacts(printId, db.artifacts, rows.artifacts) else db.artifacts,
       if done >= 3 then UpsertSignals(db.signals, rows.signals) else db.signals)
  }

  /** The last row of each key is the one stored, and keys without a row keep what they had. */
  ghost predicate Holds<K(!new), V>(before: map<K, V>, after: map<K, V>, keys: seq<K>, rows: seq<V>)
    requires |keys| == |rows|
  {
    HoldsLast(after, keys, rows) && KeepsOthers(before, after, keys)
  }

  ghost predicate LastOfKey<K(!new)>(keys: seq<K>, i: nat)
    requires i < |keys|
  {
    forall j :: i < j < |keys| ==> keys[j] != keys[i]
  }

  ghost predicate HoldsLast<K(!new), V>(after: map<K, V>, keys: seq<K>, rows: seq<V>)
    requires |keys| == |rows|
  {
    forall i: nat :: i < |rows| && LastOfKey(keys, i) ==> keys[i] in after && after[keys[i]] == rows[i]
  }

  ghost predicate KeepsOthers<K(!new), V>(before: map<K, V>, after: map<K, V>, keys: seq<K>) {
    forall k :: k !in keys ==> (k in after <==> k in before) && (k in before ==> after[k] == before[k])
  }

  lemma LastOfMore<K(!new)>(keys: seq<K>, key: K, i: nat)
    requires i < |keys| && LastOfKey(keys + [key], i)
    ensures LastOfKey(keys, i) && keys[i] != key
  {
    var ks := keys + [key];
    assert ks[|keys|] == key && ks[i] == keys[i];
    assert forall j :: i < j < |keys| ==> ks[j] == keys[j];
  }

  lemma HoldsMore<K(!new), V>(before: map<K, V>, after: map<K, V>, keys: seq<K>, rows: seq<V>, key: K, row: V)
    requires |keys| == |rows| && Holds(before, after, keys, rows)
    ensures Holds(before, after[key := row], keys + [key], rows + [row])
  {
    hide LastOfKey;
    var ks, rs := keys + [key], rows + [row];
    forall i: nat | i < |rs| && LastOfKey(ks, i)
      ensures ks[i] in after[key := row] && after[key := row][ks[i]] == rs[i]
    {
      if i < |rows| {
        LastOfMore(keys, key, i);
      }
    }
    forall k | k !in ks ensures k !in keys && k != key {
      assert key in ks;
      assert k in keys ==> k in ks;
    }
  }

  lemma HoldsNothing<K(!new), V>(t: map<K, V>, keys: seq<K>, rows: seq<V>)
    requires keys == [] && rows == []
    ensures Holds(t, t, keys, rows)
  {
  }

  lemma {:induction false} ManifestsHold(t: map<string, Manifest>, rows: seq<Manifest>, keys: seq<string>)
    requires |keys| == |rows| && forall i :: 0 <= i < |rows| ==> keys[i] == rows[i].runId
    ensures Holds(t, UpsertManifests(t, rows), keys, rows)
  {
    hide Holds;
    if rows == [] {
      HoldsNothing(t, keys, rows);
    } else {
      var n := |rows| - 1;
      ManifestsHold(t, rows[..n], keys[..n]);
      assert keys == keys[..n] + [keys[n]] && rows == rows[..n] + [rows[n]];
      HoldsMore(t, UpsertManifests(t, rows[..n]), keys[..n], rows[..n], keys[n], rows[n]);
    }
  }

  lemma {:induction false} ArtifactsHold(t: map<string, Artifact>, rows: seq<Artifact>, keys: seq<string>)
    requires |keys| == |rows| && forall i :: 0 <= i < |rows| ==> keys[i] == IdOf(rows[i].key)
    ensures Holds(t, UpsertArtifacts(IdOf, t, rows), keys, rows)
  {
    hide Holds, IdOf;
    if rows == [] {
      HoldsNothing(t, keys, rows);
    } else {
      var n := |rows| - 1;
      ArtifactsHold(t, rows[..n], keys[..n]);
      assert keys == keys[..n] + [keys[n]] && rows == rows[..n] + [rows[n]];
      HoldsMore(t, UpsertArtifacts(IdOf, t, rows[..n]), keys[..n], rows[..n], keys[n], rows[n]);
    }
  }

  lemma {:induction false} SignalsHold(t: map<string, Signal>, rows: seq<Signal>, keys: seq<string>)
    requires |keys| == |rows| && forall i :: 0 <= i < |rows| ==> keys[i] == rows[i].id
    ensures Holds(t, UpsertSignals(t, rows), keys, rows)
  {
    hide Holds;
    if rows == [] {
      HoldsNothing(t, keys, rows);
    } else {
      var n := |rows| - 1;
      SignalsHold(t, rows[..n], keys[..n]);
      assert keys == keys[..n] + [keys[n]] && rows == rows[..n] + [rows[n]];
      HoldsMore(t, UpsertSignals(t, rows[..n]), keys[..n], rows[..n], keys[n], rows[n]);
    }
  }

  function ManifestIds(rows: seq<Manifest>): seq<string> { seq(|rows|, i requires 0 <= i < |rows| => rows[i].runId) }

  function ArtifactIds(rows: seq<Artifact>): seq<string> {
    seq(|rows|, i requires 0 <= i < |rows| => IdOf(rows[i].key))
  }

  function SignalIds(rows: seq<Signal>): seq<string> { seq(|rows|, i requires 0 <= i < |rows| => rows[i].id) }

  /**
   What a call leaves in the store: manifests, then artifacts, then signals, each table holding the last row of every
   id and keeping the others; a table whose upsert was not reached is as it was.
   */
  lemma PersistStores(db: Db, rows: Rows, done: nat)
    ensures var after := Persist(IdOf, db, rows, done);
            && (if done == 0 then after.manifests == db.manifests
                else Holds(db.manifests, after.manifests, ManifestIds(rows.manifests), rows.manifests))
            && (if done <= 1 then after.artifacts == db.artifacts
                else Holds(db.artifacts, after.artifacts, ArtifactIds(rows.artifacts), rows.artifacts))
            && (if done <= 2 then after.signals == db.signals
                else Holds(db.signals, after.signals, SignalIds(rows.signals), rows.signals))
  {
    hide Holds, IdOf;
    ManifestsHold(db.manifests, rows.manifests, ManifestIds(rows.manifests));
    ArtifactsHold(db.artifacts, rows.artifacts, ArtifactIds(rows.artifacts));
    SignalsHold(db.signals, rows.signals, SignalIds(rows.signals));
  }

  /** One call: a receipt, its context, and how many upserts were committed before it ended. */
  datatype Submission = Submission(receipt: Receipt, ctx: Context, done: nat)

  function Submit(db: Db, s: Submission): Db {
    match Normalize(s.receipt, s.ctx)
    case Err(_) => db
    case Ok(rows) => Persist(IdOf, db, rows, s.done)
  }

  function History(submissions: seq<Submission>): Db {
    if submissions == [] then EMPTY
    else Submit(History(submissions[..|submissions| - 1]), submissions[|submissions| - 1])
  }

  ghost predicate Injective(printId: Key -> string) {
    forall k, l :: printId(k) == printId(l) ==> k == l
  }

  lemma IdOfInjective()
    ensures Injective(IdOf)
  {
    forall k, l | IdOf(k) == IdOf(l) ensures k == l {
      IdsAreInjective(k, l);
    }
  }

  /** Every reference of the signal is a stored artifact of the signal's own run, and that run has a manifest. */
  ghost predicate Resolves(printId: Key -> string, db: Db, s: Signal) {
    && s.producer in db.manifests
    && forall k :: k in s.refs ==> printId(k) in db.artifacts && db.artifacts[printId(k)].producer == s.producer
  }

  /** Stored artifacts sit under their own printed key, so an id can never change hands between runs. */
  ghost predicate OwnPlaces(printId: Key -> string, t: map<string, Artifact>) {
    forall id :: id in t ==> printId(t[id].key) == id && OwnKey(t[id])
  }

  ghost predicate DbInv(printId: Key -> string, db: Db) {
    && OwnPlaces(printId, db.artifacts)
    && forall id :: id in db.signals ==> Resolves(printId, db, db.signals[id])
  }

  ghost predicate Own(rows: seq<Artifact>) { forall r :: r in rows ==> OwnKey(r) }

  lemma {:induction false} UpsertArtifactsKeeps(printId: Key -> string, t: map<string, Artifact>, rows: seq<Artifact>)
    requires Injective(printId) && Own(rows) && OwnPlaces(printId, t)
    ensures var u := UpsertArtifacts(printId, t, rows);
            && OwnPlaces(printId, u)
            && (forall id :: id in t ==> id in u && u[id].producer == t[id].producer)
            && (forall r :: r in rows ==> printId(r.key) in u && u[printId(r.key)].producer == r.producer)
  {
    if rows != [] {
      var n := |rows| - 1;
      UpsertArtifactsKeeps(printId, t, rows[..n]);
      assert rows == rows[..n] + [rows[n]];
      assert OwnKey(rows[n]);
    }
  }

  lemma {:induction false} UpsertManifestsKeeps(t: map<string, Manifest>, rows: seq<Manifest>)
    ensures forall id :: id in t ==> id in UpsertManifests(t, rows)
    ensures forall m :: m in rows ==> m.runId in UpsertManifests(t, rows)
  {
    if rows != [] {
      UpsertManifestsKeeps(t, rows[..|rows| - 1]);
      assert rows == rows[..|rows| - 1] + [rows[|rows| - 1]];
    }
  }

  lemma {:induction false} UpsertSignalsComeFrom(t: map<string, Signal>, rows: seq<Signal>)
    ensures var u := UpsertSignals(t, rows);
            forall id :: id in u ==> u[id] in rows || (id in t && u[id] == t[id])
  {
    if rows != [] {
      UpsertSignalsComeFrom(t, rows[..|rows| - 1]);
      assert rows == rows[..|rows| - 1] + [rows[|rows| - 1]];
    }
  }

  /** Rows whose signals name only artifacts of their own run among the rows, and runs with a manifest among them. */
  ghost predicate SelfContained(rows: Rows) {
    && Own(rows.artifacts)
    && forall s :: s in rows.signals ==> SignalContained(rows, s)
  }

  lemma BundleSelfContained(p: Resolved, ctx: Context, k: Key)
    requires k in BundleOf(p, ctx).signal.refs
    ensures exists r :: r in BundleOf(p, ctx).artifacts && r.key == k && r.producer == p.runId
  {
    var rows := ArtifactsOf(p, ctx.receiptUri);
    RunArtifactsKeyed(p, ctx.receiptUri);
    var i :| 0 <= i < |rows| && rows[i].key == k;
    assert rows[i] in rows;
  }

  ghost predicate SignalContained(rows: Rows, s: Signal) {
    && (exists m :: m in rows.manifests && m.runId == s.producer)
    && forall k :: k in s.refs ==> exists r :: r in rows.artifacts && r.key == k && r.producer == s.producer
  }

  lemma {:induction false} RowsSelfContained(ps: seq<Resolved>, ctx: Context)
    ensures SelfContained(RowsOf(ps, ctx))
  {
    RowsFlatten(ps, ctx);
    ListsOwned(ps, ctx.receiptUri);
    FlattenOwned(Lists(ps, ctx.receiptUri), RunIds(ps));
    if ps != [] {
      var n := |ps| - 1;
      var before, rows, b := RowsOf(ps[..n], ctx), RowsOf(ps, ctx), BundleOf(ps[n], ctx);
      RowsSelfContained(ps[..n], ctx);
      forall s | s in rows.signals ensures SignalContained(rows, s) {
        if s in before.signals {
          assert SignalContained(before, s);
        } else {
          assert b.manifest in rows.manifests;
          forall k | k in s.refs ensures exists r :: r in rows.artifacts && r.key == k && r.producer == s.producer {
            BundleSelfContained(ps[n], ctx, k);
          }
        }
      }
    }
  }

  lemma PersistKeepsInv(printId: Key -> string, db: Db, rows: Rows, done: nat)
    requires Injective(printId) && DbInv(printId, db) && SelfContained(rows)
    ensures DbInv(printId, Persist(printId, db, rows, done))
  {
    var after := Persist(printId, db, rows, done);
    UpsertManifestsKeeps(db.manifests, rows.manifests);
    UpsertArtifactsKeeps(printId, db.artifacts, rows.artifacts);
    UpsertSignalsComeFrom(db.signals, rows.signals);
    forall id | id in after.signals ensures Resolves(printId, after, after.signals[id]) {
      var s := after.signals[id];
      if id in db.signals && s == db.signals[id] {
        assert Resolves(printId, db, s);
      } else {
        assert SignalContained(rows, s);
      }
    }
  }

  lemma SubmitKeepsInv(db: Db, s: Submission)
    requires DbInv(IdOf, db)
    ensures DbInv(IdOf, Submit(db, s))
  {
    if Normalize(s.receipt, s.ctx).Ok? {
      var ps := ResolveAll(ReceiptRuns(s.receipt).value, s.ctx);
      RowsSelfContained(ps, s.ctx);
      IdOfInjective();
      PersistKeepsInv(IdOf, db, RowsOf(ps, s.ctx), s.done);
    }
  }

  /** After any submissions, each cut off after any of its upserts, every stored ready signal resolves. */
  lemma {:induction false} EverySignalResolves(submissions: seq<Submission>)
    ensures DbInv(IdOf, History(submissions))
  {
    if submissions != [] {
      var n := |submissions| - 1;
      EverySignalResolves(submissions[..n]);
      SubmitKeepsInv(History(submissions[..n]), submissions[n]);
    }
  }

  // ----- the imperative form -----

  method StepReferenceRows(runId: string, uris: seq<string>, start: set<string>, live: bool)
    returns (rows: seq<Artifact>, known: set<string>)
    ensures rows == StepRows(runId, uris, start, live) && known == start + Uris(rows)
  {
    rows, known := [], start;
    var index := 1;
    for i := 0 to |uris|
      invariant rows == StepRows(runId, uris[..i], start, live) && known == start + Uris(rows) && index == |rows| + 1
    {
      assert uris[..i + 1][..i] == uris[..i];
      if uris[i] == "" || uris[i] in known {
        continue;
      }
      var row := Artifact(StepKey(runId, index), runId, uris[i], StepSchema, live);
      UrisAppend(rows, row);
      rows, known, index := rows + [row], known + {uris[i]}, index + 1;
    }
    assert uris[..|uris|] == uris;
  }

  method OutputArtifactRows(runId: string, uris: seq<string>, live: bool, start: set<string>)
    returns (rows: seq<Artifact>, known: set<string>)
    ensures rows == OutputRows(runId, uris, live) && known == start + Uris(rows)
  {
    rows, known := [], start;
    for i := 0 to |uris|
      invariant rows == OutputRows(runId, uris[..i], live) && known == start + Uris(rows)
    {
      assert uris[..i + 1][..i] == uris[..i];
      if uris[i] != "" {
        var row := Artifact(OutputKey(runId, i + 1), runId, uris[i], OutputSchema, live);
        UrisAppend(rows, row);
        rows, known := rows + [row], known + {uris[i]};
      }
    }
    assert uris[..|uris|] == uris;
  }

  /** The references of the object steps, step by step. */
  method GatherReferences(steps: seq<Step>) returns (refs: seq<Ref>)
    ensures refs == References(steps)
  {
    refs := [];
    for i := 0 to |steps|
      invariant refs == References(steps[..i])
    {
      assert steps[..i + 1][..i] == steps[..i];
      if steps[i].isObject {
        refs := refs + steps[i].references;
      }
    }
    assert steps[..|steps|] == steps;
  }

  method NormalizeRun(p: Resolved, ctx: Context) returns (b: Bundle)
    ensures b == BundleOf(p, ctx)
  {
    var live := Live(p.ready);
    var artifacts := [Artifact(ReceiptKey(p.runId), p.runId, ctx.receiptUri, ReceiptSchema, live)];
    var outputRows, known := OutputArtifactRows(p.runId, p.outputUris, live, {ctx.receiptUri});
    artifacts := artifacts + outputRows;
    var stepRows, _ := StepReferenceRows(p.runId, p.stepUris, known, live);
    artifacts := artifacts + stepRows;
    b := Bundle(Manifest(p.runId, ctx.requestId, ManifestStatus(p.ready)), artifacts,
                Signal("ready_" + p.runId, p.runId, Keys(artifacts), p.ready, p.ready.Partial?));
  }

  method NormalizeResolved(ps: seq<Resolved>, ctx: Context) returns (rows: Rows)
    ensures rows == RowsOf(ps, ctx)
  {
    rows := Rows([], [], []);
    for i := 0 to |ps|
      invariant rows == RowsOf(ps[..i], ctx)
    {
      assert ps[..i + 1][..i] == ps[..i];
      var b := NormalizeRun(ps[i], ctx);
      rows := Extend(rows, b);
    }
    assert ps[..|ps|] == ps;
  }

  /** A run without a start time fails the whole receipt, whatever was built before it. */
  method NormalizeRuns(runs: seq<Run>, ctx: Context) returns (result: Result<Rows, Fault>)
    ensures result == RowsOrFault(runs, ctx)
  {
    UnstartedIsFirst(runs, 0);
    for i := 0 to |runs|
      invariant forall k :: 0 <= k < i ==> runs[k].startedAt != ""
    {
      if runs[i].startedAt == "" {
        return Err(MissingStart(RunIdOf(runs[i], i + 1, ctx)));
      }
    }
    var rows := NormalizeResolved(ResolveAll(runs, ctx), ctx);
    return Ok(rows);
  }

  class Store {
    var db: Db

    constructor ()
      ensures db == EMPTY
    {
      db := EMPTY;
    }

    method PersistCompletionRows(rows: Rows)
      modifies this
      ensures db == Persist(IdOf, old(db), rows, 3)
    {
      for i := 0 to |rows.manifests|
        invariant db == old(db).(manifests := UpsertManifests(old(db).manifests, rows.manifests[..i]))
      {
        assert rows.manifests[..i + 1][..i] == rows.manifests[..i];
        db := db.(manifests := db.manifests[rows.manifests[i].runId := rows.manifests[i]]);
      }
      assert rows.manifests[..|rows.manifests|] == rows.manifests;
      for i := 0 to |rows.artifacts|
        invariant db == Persist(IdOf, old(db), rows, 1)
                        .(artifacts := UpsertArtifacts(IdOf, old(db).artifacts, rows.artifacts[..i]))
      {
        assert rows.artifacts[..i + 1][..i] == rows.artifacts[..i];
        db := db.(artifacts := db.artifacts[IdOf(rows.artifacts[i].key) := rows.artifacts[i]]);
      }
      assert rows.artifacts[..|rows.artifacts|] == rows.artifacts;
      for i := 0 to |rows.signals|
        invariant db == Persist(IdOf, old(db), rows, 2).(signals := UpsertSignals(old(db).signals, rows.signals[..i]))
      {
        assert rows.signals[..i + 1][..i] == rows.signals[..i];
        db := db.(signals := db.signals[rows.signals[i].id := rows.signals[i]]);
      }
      assert rows.signals[..|rows.signals|] == rows.signals;
    }
  }
}
