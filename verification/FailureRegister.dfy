/** The failure register: normalising rows, the upsert keyed by failure id, and marking requests corrected. */
module FailureRegister {
  import opened Text
  import opened Wrappers
  import FoldNaming

  datatype Status =
    | Observed | AutoRepairRequired | AgentReviewRequired | RetryRequired | Corrected | AcceptedSkip | Unresolved

  datatype Evidence = NoEvidence | OneRef(text: string) | RefList(refs: seq<string>) | OtherValue

  /** A row as submitted; None stands for an absent or null field. */
  datatype RawRow = RawRow(id: Option<string>, request: Option<string>, stage: Option<string>,
                           component: Option<string>, start: Option<string>, end: Option<string>,
                           status: Option<string>, kind: Option<string>, review: Option<string>,
                           correction: Option<string>, skip: bool, evidence: Evidence, note: Option<string>)

  datatype Row = Row(id: string, request: string, stage: string, component: string,
                     start: Option<string>, end: Option<string>, status: Status, kind: string,
                     review: Option<string>, correction: Option<string>, skip: bool, evidence: seq<string>,
                     note: Option<string>)

  datatype Fault = MissingRequest | MissingStage | MissingComponent | UnsupportedStatus(text: string) | MissingKind
                 | ReviewRequired(status: Status) | SkipNotAllowed | BadEvidence

  function StatusName(s: Status): string {
    match s
    case Observed => "observed"
    case AutoRepairRequired => "auto_repair_required"
    case AgentReviewRequired => "agent_review_required"
    case RetryRequired => "retry_required"
    case Corrected => "corrected"
    case AcceptedSkip => "accepted_skip"
    case Unresolved => "unresolved"
  }

  function StatusNamed(text: string): Option<Status> {
    if text == "observed" then Some(Observed)
    else if text == "auto_repair_required" then Some(AutoRepairRequired)
    else if text == "agent_review_required" then Some(AgentReviewRequired)
    else if text == "retry_required" then Some(RetryRequired)
    else if text == "corrected" then Some(Corrected)
    else if text == "accepted_skip" then Some(AcceptedSkip)
    else if text == "unresolved" then Some(Unresolved)
    else None
  }

  // ----- validation -----

  /** Python's `value or default` on optional text. */
  function Or(text: Option<string>, default: string): string {
    if text.None? || text.value == "" then default else text.value
  }

  function StableToken(text: string): string {
    var token := FoldNaming.Join(FoldNaming.NonEmpty(FoldNaming.Split(FoldNaming.Clean(text))));
    var short := if |token| > 120 then token[..120] else token;
    if short == "" then "unknown" else short
  }

  function DefaultId(request: string): string { "fail_" + StableToken(request) }

  function EvidenceRefs(e: Evidence): Option<seq<string>> {
    match e
    case NoEvidence => Some([])
    case OneRef(text) => Some(if text == "" then [] else [text])
    case RefList(refs) => Some(refs)
    case OtherValue => None
  }

  predicate NeedsReview(s: Status) { s == AcceptedSkip || s == Corrected }

  function ParseStatus(raw: RawRow): Result<Status, Fault> {
    var text := Lower(Strip(Or(raw.status, "observed")));
    var status := StatusNamed(text);
    if status.None? then Err(UnsupportedStatus(text)) else Ok(status.value)
  }

  function Trimmed(text: Option<string>): Option<string> {
    var s := Strip(Or(text, ""));
    if s == "" then None else Some(s)
  }

  function Validate(raw: RawRow): Result<Row, Fault> {
    var request, stage, component := Trimmed(raw.request), Trimmed(raw.stage), Trimmed(raw.component);
    if request.None? then Err(MissingRequest)
    else if stage.None? then Err(MissingStage)
    else if component.None? then Err(MissingComponent)
    else
      var status := ParseStatus(raw);
      if status.Err? then Err(status.error)
      else
        var kind := Strip(Or(raw.kind, "unclassified_failure"));
        if kind == "" then Err(MissingKind)
        else
          var review := Trimmed(raw.review);
          if NeedsReview(status.value) && review.None? then Err(ReviewRequired(status.value))
          else if raw.skip && status.value != AcceptedSkip then Err(SkipNotAllowed)
          else
            var refs := EvidenceRefs(raw.evidence);
            if refs.None? then Err(BadEvidence)
            else
              Ok(Row(Trimmed(raw.id).GetOr(DefaultId(request.value)), request.value, stage.value, component.value,
                  raw.start, raw.end,
                     status.value, kind, review, raw.correction, raw.skip, refs.value, raw.note))
  }

  predicate Tidy(s: string) { s != "" && Strip(s) == s }

  /** The two review rules. */
  predicate Reviewed(row: Row) {
    && (row.skip ==> row.status == AcceptedSkip)
    && (NeedsReview(row.status) ==> row.review.Some?)
  }

  predicate TidyRow(row: Row) {
    && Tidy(row.id) && Tidy(row.request) && Tidy(row.stage) && Tidy(row.component) && Tidy(row.kind)
    && (row.review.Some? ==> Tidy(row.review.value))
  }

  /** A stored row submitted again. */
  function AsRaw(row: Row): RawRow {
    RawRow(Some(row.id), Some(row.request), Some(row.stage), Some(row.component), row.start, row.end,
        Some(StatusName(row.status)),
           Some(row.kind), row.review, row.correction, row.skip, RefList(row.evidence), row.note)
  }

  lemma {:induction false} StripLeftStarts(s: string)
    ensures StripLeft(s) == "" || !IsSpace(StripLeft(s)[0])
  {
    if s != [] && IsSpace(s[0]) {
      StripLeftStarts(s[1..]);
    }
  }

  lemma {:induction false} StripRightEnds(s: string)
    ensures StripRight(s) == "" || (!IsSpace(StripRight(s)[|StripRight(s)| - 1]) && s != "" && StripRight(s)[0] == s[0])
  {
    if s != [] && IsSpace(s[|s| - 1]) {
      StripRightEnds(s[..|s| - 1]);
    }
  }

  lemma StripTwice(s: string)
    ensures Strip(s) != "" ==> Tidy(Strip(s))
  {
    StripLeftStarts(s);
    StripRightEnds(StripLeft(s));
  }

  lemma TrimmedIsTidy(text: Option<string>)
    ensures Trimmed(text).Some? ==> Tidy(Trimmed(text).value)
  {
    StripTwice(Or(text, ""));
  }

  lemma TidyTrims(s: string)
    requires Tidy(s)
    ensures Trimmed(Some(s)) == Some(s)
  {
  }

  lemma NothingTrims()
    ensures Trimmed(None) == None
  {
  }

  lemma StableTokenIsClean(text: string)
    ensures StableToken(text) != "" && FoldNaming.CleanText(StableToken(text))
  {
    var u := FoldNaming.Clean(text);
    FoldNaming.SplitGivesWords(u);
    FoldNaming.NonEmptyGivesWords(FoldNaming.Split(u));
    var parts := FoldNaming.NonEmpty(FoldNaming.Split(u));
    if parts != [] {
      FoldNaming.JoinIsToken(parts);
    }
  }

  lemma DefaultIdIsTidy(request: string)
    ensures Tidy(DefaultId(request))
  {
    StableTokenIsClean(request);
    var t := StableToken(request);
    var s := DefaultId(request);
    assert s[0] == 'f' && s[|s| - 1] == t[|t| - 1];
  }

  /** Every accepted row is tidy and follows the review rules. */
  lemma ValidatedIsReviewed(raw: RawRow)
    requires Validate(raw).Ok?
    ensures TidyRow(Validate(raw).value) && Reviewed(Validate(raw).value)
  {
    TrimmedIsTidy(raw.request);
    TrimmedIsTidy(raw.stage);
    TrimmedIsTidy(raw.component);
    TrimmedIsTidy(raw.review);
    TrimmedIsTidy(raw.id);
    StripTwice(Or(raw.kind, "unclassified_failure"));
    DefaultIdIsTidy(Trimmed(raw.request).value);
  }

  lemma NameIsToken(s: Status)
    ensures FoldNaming.Token(StatusName(s))
  {
  }

  lemma LowerKeeps(s: string)
    requires FoldNaming.Token(s)
    ensures Lower(Strip(s)) == s
  {
    assert !IsSpace(s[0]) && !IsSpace(s[|s| - 1]);
    assert Strip(s) == s;
  }

  lemma NameReadsBack(s: Status)
    ensures StatusNamed(StatusName(s)) == Some(s)
  {
  }

  lemma StatusReadsBack(row: Row)
    ensures ParseStatus(AsRaw(row)) == Ok(row.status)
  {
    NameIsToken(row.status);
    LowerKeeps(StatusName(row.status));
    NameReadsBack(row.status);
  }

  /** Submitting a stored row again stores the same row. */
  lemma RevalidationFixes(row: Row)
    requires TidyRow(row) && Reviewed(row)
    ensures Validate(AsRaw(row)) == Ok(row)
  {
    hide ParseStatus, Trimmed, StatusName, Strip;
    TidyTrims(row.request);
    TidyTrims(row.stage);
    TidyTrims(row.component);
    TidyTrims(row.id);
    StatusReadsBack(row);
    if row.review.Some? {
      TidyTrims(row.review.value);
    } else {
      NothingTrims();
    }
  }

  /** The tidy reviewed rows are exactly the rows validation can produce. */
  lemma ValidationRange(row: Row)
    ensures TidyRow(row) && Reviewed(row) <==> exists raw :: Validate(raw) == Ok(row)
  {
    if TidyRow(row) && Reviewed(row) {
      RevalidationFixes(row);
    }
    forall raw | Validate(raw) == Ok(row) ensures TidyRow(row) && Reviewed(row) {
      ValidatedIsReviewed(raw);
    }
  }

  // ----- what validation accepts, field by field -----

  /** Absent, empty, or nothing but white space. */
  predicate Blank(text: Option<string>) { text.Some? ==> forall c :: c in text.value ==> IsSpace(c) }

  lemma {:induction false} StripLeftBlank(s: string)
    ensures StripLeft(s) == "" <==> forall c :: c in s ==> IsSpace(c)
    ensures forall c :: c in StripLeft(s) ==> c in s
  {
    if s != [] {
      assert s == [s[0]] + s[1..];
      if IsSpace(s[0]) {
        StripLeftBlank(s[1..]);
      }
    }
  }

  lemma {:induction false} StripRightBlank(s: string)
    ensures StripRight(s) == "" <==> forall c :: c in s ==> IsSpace(c)
  {
    if s != [] {
      assert s == s[..|s| - 1] + [s[|s| - 1]];
      if IsSpace(s[|s| - 1]) {
        StripRightBlank(s[..|s| - 1]);
      }
    }
  }

  lemma TrimmedIff(text: Option<string>)
    ensures Trimmed(text).None? <==> Blank(text)
    ensures Trimmed(text).Some? ==> text.Some? && Trimmed(text).value == Strip(text.value)
  {
    var s := Or(text, "");
    StripLeftBlank(s);
    StripLeftStarts(s);
    StripRightBlank(StripLeft(s));
    if StripLeft(s) != "" {
      assert StripLeft(s)[0] in StripLeft(s);
    }
  }

  /** The status text, where an absent or empty one reads "observed". */
  function StatusText(raw: RawRow): string {
    if raw.status.None? || raw.status.value == "" then "observed" else Lower(Strip(raw.status.value))
  }

  predicate KindMissing(raw: RawRow) { raw.kind.Some? && raw.kind.value != "" && Blank(raw.kind) }

  predicate Reviewable(text: string) { text in ["accepted_skip", "corrected"] }

  predicate Known(text: string) {
    text in ["observed", "auto_repair_required", "agent_review_required", "retry_required", "corrected",
              "accepted_skip", "unresolved"]
  }

  lemma StatusTextReads(raw: RawRow)
    ensures ParseStatus(raw).Ok? <==> Known(StatusText(raw))
    ensures ParseStatus(raw).Ok? ==> StatusName(ParseStatus(raw).value) == StatusText(raw)
    ensures ParseStatus(raw).Ok? ==> (NeedsReview(ParseStatus(raw).value) <==> Reviewable(StatusText(raw)))
    ensures ParseStatus(raw).Err? ==> ParseStatus(raw).error == UnsupportedStatus(StatusText(raw))
  {
    NameIsToken(Observed);
    LowerKeeps("observed");
    hide Lower, Strip;
    assert Lower(Strip("observed")) == "observed";
    var text := StatusText(raw);
    assert text == Lower(Strip(Or(raw.status, "observed")));
    NamesApart(text);
  }

  lemma NamesApart(text: string)
    ensures StatusNamed(text).Some? <==> Known(text)
    ensures StatusNamed(text).Some? ==> StatusName(StatusNamed(text).value) == text
    ensures StatusNamed(text).Some? ==> (NeedsReview(StatusNamed(text).value) <==> Reviewable(text))
  {
  }

  lemma KindReads(raw: RawRow)
    ensures Strip(Or(raw.kind, "unclassified_failure")) == "" <==> KindMissing(raw)
    ensures raw.kind.None? || raw.kind.value == "" ==>
        Strip(Or(raw.kind, "unclassified_failure")) == "unclassified_failure"
  {
    TrimmedIff(raw.kind);
    var kind := "unclassified_failure";
    assert kind[0] == 'u' && kind[|kind| - 1] == 'e';
  }

  /** The fault of a submitted row: the first rule it breaks, in the order the rules are read. */
  lemma FaultIff(raw: RawRow)
    ensures Validate(raw).Ok? <==>
        && !Blank(raw.request) && !Blank(raw.stage) && !Blank(raw.component) && Known(StatusText(raw))
        && !KindMissing(raw) && (Reviewable(StatusText(raw)) ==> !Blank(raw.review))
        && (raw.skip ==> StatusText(raw) == "accepted_skip") && !raw.evidence.OtherValue?
    ensures Validate(raw).Err? ==>
        match Validate(raw).error
        case MissingRequest => Blank(raw.request)
        case MissingStage => !Blank(raw.request) && Blank(raw.stage)
        case MissingComponent => !Blank(raw.stage) && Blank(raw.component)
        case UnsupportedStatus(text) => !Blank(raw.component) && text == StatusText(raw) && !Known(text)
        case MissingKind => Known(StatusText(raw)) && KindMissing(raw)
        case ReviewRequired(s) =>
          !KindMissing(raw) && StatusName(s) == StatusText(raw) && Reviewable(StatusText(raw)) && Blank(raw.review)
        case SkipNotAllowed => raw.skip && StatusText(raw) != "accepted_skip"
        case BadEvidence => raw.evidence.OtherValue?
  {
    hide Trimmed, ParseStatus, Strip, Or, StatusText, Blank;
    TrimmedIff(raw.request);
    TrimmedIff(raw.stage);
    TrimmedIff(raw.component);
    TrimmedIff(raw.review);
    StatusTextReads(raw);
    KindReads(raw);
  }

  /**
   The stored row in terms of the submitted one: keys and review stripped, "observed" and "unclassified_failure" for a
   missing status and kind, one evidence text as a list of one, the default id for a blank one, the rest unchanged.
   */
  lemma AcceptedFields(raw: RawRow)
    requires Validate(raw).Ok?
    ensures var row := Validate(raw).value;
            && raw.request.Some? && row.request == Strip(raw.request.value)
            && raw.stage.Some? && row.stage == Strip(raw.stage.value)
            && raw.component.Some? && row.component == Strip(raw.component.value)
            && (if Blank(raw.id) then row.id == DefaultId(row.request) else row.id == Strip(raw.id.value))
            && (raw.status.None? || raw.status.value == "" ==> row.status == Observed)
            && StatusName(row.status) == StatusText(raw)
            && (raw.kind.None? || raw.kind.value == "" ==> row.kind == "unclassified_failure")
            && (raw.kind.Some? && raw.kind.value != "" ==> row.kind == Strip(raw.kind.value))
            && (if Blank(raw.review) then row.review.None? else row.review == Some(Strip(raw.review.value)))
            && row.evidence == (match raw.evidence
                                case NoEvidence => []
                                case OneRef(text) => if text == "" then [] else [text]
                                case RefList(refs) => refs
                                case OtherValue => row.evidence)
            && row.start == raw.start && row.end == raw.end && row.correction == raw.correction
            && row.skip == raw.skip && row.note == raw.note
  {
    FaultIff(raw);
    TrimmedIff(raw.request);
    TrimmedIff(raw.stage);
    TrimmedIff(raw.component);
    TrimmedIff(raw.review);
    TrimmedIff(raw.id);
    StatusTextReads(raw);
    KindReads(raw);
    NameReadsBack(Validate(raw).value.status);
    NameReadsBack(Observed);
    hide Trimmed, ParseStatus, Strip, Blank, StatusNamed;
  }

  // ----- default ids -----

  lemma {:induction false} JoinSplit(s: string)
    ensures FoldNaming.Join(FoldNaming.Split(s)) == s
  {
    if s != [] {
      JoinSplit(s[1..]);
      var rest := FoldNaming.Split(s[1..]);
      assert s == [s[0]] + s[1..];
      if s[0] == '_' {
        assert ([""] + rest)[1..] == rest;
      } else if |rest| > 1 {
        var parts := [[s[0]] + rest[0]] + rest[1..];
        assert parts[1..] == rest[1..];
      }
    }
  }

  lemma CleanFixes(s: string)
    requires FoldNaming.CleanText(s)
    ensures FoldNaming.Clean(s) == s
  {
  }

  /** A request id of lower-case words joined by single underscores, at most 120 characters long, is its own token. */
  lemma DefaultIdOfToken(request: string)
    requires FoldNaming.Words(FoldNaming.Split(request)) && |request| <= 120
    ensures DefaultId(request) == "fail_" + request
  {
    hide FoldNaming.Split, FoldNaming.Words;
    var parts := FoldNaming.Split(request);
    JoinSplit(request);
    FoldNaming.JoinIsToken(parts);
    CleanFixes(request);
    FoldNaming.NonEmptyKeepsWords(parts);
  }

  /** The words of a request id; an id with none counts as "unknown". */
  function KeyWords(request: string): seq<string> {
    var parts := FoldNaming.NonEmpty(FoldNaming.Split(FoldNaming.Clean(request)));
    if parts == [] then ["unknown"] else parts
  }

  function First120(s: string): string { if |s| > 120 then s[..120] else s }

  lemma KeyWordsAreWords(request: string)
    ensures KeyWords(request) != [] && FoldNaming.Words(KeyWords(request))
  {
    var u := FoldNaming.Clean(request);
    FoldNaming.SplitGivesWords(u);
    FoldNaming.NonEmptyGivesWords(FoldNaming.Split(u));
    assert FoldNaming.Word("unknown");
  }

  lemma TokenFromWords(request: string)
    ensures StableToken(request) == First120(FoldNaming.Join(KeyWords(request)))
  {
    hide FoldNaming.Split, FoldNaming.Clean, FoldNaming.NonEmpty;
    var parts := FoldNaming.NonEmpty(FoldNaming.Split(FoldNaming.Clean(request)));
    if parts != [] {
      KeyWordsAreWords(request);
      FoldNaming.JoinIsToken(parts);
    }
  }

  /** Joined words determine the words. */
  lemma JoinDetermines(a: seq<string>, b: seq<string>)
    requires a != [] && b != [] && FoldNaming.Words(a) && FoldNaming.Words(b)
              && FoldNaming.Join(a) == FoldNaming.Join(b)
    ensures a == b
  {
    FoldNaming.SplitJoin(a);
    FoldNaming.SplitJoin(b);
  }

  /**
   Two request ids share a default failure id exactly when their joined words agree on the first 120 characters;
   while neither is longer than that, exactly when they are made of the same words.
   */
  lemma DefaultIdsMeetIff(a: string, b: string)
    ensures DefaultId(a) == DefaultId(b)
       <==> First120(FoldNaming.Join(KeyWords(a))) == First120(FoldNaming.Join(KeyWords(b)))
    ensures |FoldNaming.Join(KeyWords(a))| <= 120 && |FoldNaming.Join(KeyWords(b))| <= 120
        ==> (DefaultId(a) == DefaultId(b) <==> KeyWords(a) == KeyWords(b))
  {
    hide FoldNaming.Join, KeyWords, StableToken;
    TokenFromWords(a);
    TokenFromWords(b);
    SamePrefix("fail_", StableToken(a), StableToken(b));
    KeyWordsAreWords(a);
    KeyWordsAreWords(b);
    if FoldNaming.Join(KeyWords(a)) == FoldNaming.Join(KeyWords(b)) {
      JoinDetermines(KeyWords(a), KeyWords(b));
    }
  }

  lemma SamePrefix(p: string, a: string, b: string)
    ensures p + a == p + b <==> a == b
  {
    assert (p + a)[|p|..] == a && (p + b)[|p|..] == b;
  }

  /** Request ids that differ only in a separator share a default id. */
  lemma DefaultIdsMeet()
    ensures DefaultId("a-b") == DefaultId("a_b")
  {
    assert FoldNaming.Clean("a-b") == "a_b";
    assert FoldNaming.Clean("a_b") == "a_b";
  }

  // ----- the keyed upsert -----

  type Table = map<string, Row>

  function ValidateAll(raws: seq<RawRow>): Result<seq<Row>, Fault> {
    if raws == [] then Ok([])
    else
      var first := Validate(raws[0]);
      if first.Err? then Err(first.error)
      else
        After([first.value], ValidateAll(raws[1..]))
  }

  function After(done: seq<Row>, rest: Result<seq<Row>, Fault>): Result<seq<Row>, Fault> {
    match rest
    case Ok(rows) => Ok(done + rows)
    case Err(_) => rest
  }

  function UpsertAll(table: Table, rows: seq<Row>): Table {
    if rows == [] then table
    else
      var last := rows[|rows| - 1];
      UpsertAll(table, rows[..|rows| - 1])[last.id := last]
  }

  ghost predicate RegisterInv(table: Table) {
    forall id :: id in table ==> table[id].id == id && TidyRow(table[id]) && Reviewed(table[id])
  }

  predicate AllReviewed(rows: seq<Row>) { forall i :: 0 <= i < |rows| ==> TidyRow(rows[i]) && Reviewed(rows[i]) }

  lemma {:induction false} ValidatedAreReviewed(raws: seq<RawRow>)
    requires ValidateAll(raws).Ok?
    ensures AllReviewed(ValidateAll(raws).value)
  {
    if raws != [] {
      ValidatedIsReviewed(raws[0]);
      ValidatedAreReviewed(raws[1..]);
    }
  }

  lemma {:induction false} UpsertKeepsInv(table: Table, rows: seq<Row>)
    requires RegisterInv(table) && AllReviewed(rows)
    ensures RegisterInv(UpsertAll(table, rows))
  {
    if rows != [] {
      UpsertKeepsInv(table, rows[..|rows| - 1]);
    }
  }

  lemma {:induction false} UnwrittenStays(table: Table, rows: seq<Row>, id: string)
    requires forall i :: 0 <= i < |rows| ==> rows[i].id != id
    ensures id in UpsertAll(table, rows) <==> id in table
    ensures id in table ==> UpsertAll(table, rows)[id] == table[id]
  {
    if rows != [] {
      UnwrittenStays(table, rows[..|rows| - 1], id);
    }
  }

  /** The last row written under an id is the one stored. */
  lemma {:induction false} LastWriteWins(table: Table, rows: seq<Row>, k: nat)
    requires k < |rows| && forall i :: k < i < |rows| ==> rows[i].id != rows[k].id
    ensures rows[k].id in UpsertAll(table, rows) && UpsertAll(table, rows)[rows[k].id] == rows[k]
  {
    if k < |rows| - 1 {
      LastWriteWins(table, rows[..|rows| - 1], k);
    }
  }

  function Persisted(table: Table, raws: seq<RawRow>): Result<Table, Fault> {
    var rows := ValidateAll(raws);
    if rows.Err? then Err(rows.error) else Ok(UpsertAll(table, rows.value))
  }

  // ----- marking requests corrected -----

  /** The fetch filter; an empty text does not filter. */
  datatype Query = Query(stage: string, start: string, end: string)

  predicate Selects(q: Query, row: Row) {
    && (q.stage == "" || row.stage == q.stage)
    && (q.start == "" || row.start == Some(q.start))
    && (q.end == "" || row.end == Some(q.end))
  }

  predicate Mutable(s: Status) { s != Corrected && s != AcceptedSkip }

  predicate Eligible(row: Row, refs: map<string, string>) {
    row.request in refs && refs[row.request] != "" && Mutable(row.status)
  }

  const AUTO_ACTOR := "manager_provider_stage_reconcile:"
  const AUTO_FACT := "latest_receipt_succeeded"
  const AUTO_REVIEW := AUTO_ACTOR + AUTO_FACT
  const AUTO_NOTE := "Latest provider completion receipt succeeded; previous failure is retained as corrected "
                     + "and no longer blocks current stage progress."

  function Correct(row: Row, reference: string): Row {
    row.(status := Corrected, review := Some(AUTO_REVIEW), correction := Some(reference),
        evidence := row.evidence + [reference],
         note := Some(AUTO_NOTE))
  }

  function CorrectIf(row: Row, q: Query, refs: map<string, string>): Row {
    if Selects(q, row) && Eligible(row, refs) then Correct(row, refs[row.request]) else row
  }

  function Marked(table: Table, q: Query, refs: map<string, string>): Table {
    map id | id in table :: CorrectIf(table[id], q, refs)
  }

  /** The rows marking submits, in fetch order. */
  function Corrections(rows: seq<Row>, refs: map<string, string>): seq<Row> {
    if rows == [] then []
    else
      var last := rows[|rows| - 1];
      Corrections(rows[..|rows| - 1], refs) + if Eligible(last, refs) then [Correct(last, refs[last.request])] else []
  }

  function CorrectedAmong(row: Row, rows: seq<Row>, refs: map<string, string>): Row {
    if row in rows && Eligible(row, refs) then Correct(row, refs[row.request]) else row
  }

  /** The five statuses a mark may change, by their names. */
  predicate MutableName(text: string) {
    text in ["observed", "auto_repair_required", "agent_review_required", "retry_required", "unresolved"]
  }

  lemma MutableIff(s: Status)
    ensures Mutable(s) <==> MutableName(StatusName(s))
  {
  }

  /** The mark names a correction for the row: its query selects the row, which has a mutable status. */
  ghost predicate MarkReaches(row: Row, q: Query, refs: map<string, string>) {
    && (q.stage != "" ==> row.stage == q.stage)
    && (q.start != "" ==> row.start == Some(q.start))
    && (q.end != "" ==> row.end == Some(q.end))
    && row.request in refs && refs[row.request] != "" && MutableName(StatusName(row.status))
  }

  /** What a mark writes, row by row: the correction, its review and note, one more evidence entry, and nothing else. */
  lemma MarkWrites(table: Table, q: Query, refs: map<string, string>, id: string)
    ensures Marked(table, q, refs).Keys == table.Keys
    ensures id in table ==>
        var row, after := table[id], Marked(table, q, refs)[id];
        if MarkReaches(row, q, refs) then
          && after.status == Corrected && after.correction == Some(refs[row.request])
          && after.evidence == row.evidence + [refs[row.request]]
          && after.review == Some("manager_provider_stage_reconcile:latest_receipt_succeeded")
          && after.id == row.id && after.request == row.request && after.stage == row.stage
          && after.component == row.component && after.start == row.start && after.end == row.end
          && after.kind == row.kind && after.skip == row.skip
        else after == row
  {
    if id in table {
      MutableIff(table[id].status);
      hide StatusName, Mutable, MutableName;
      assert AUTO_REVIEW == "manager_provider_stage_reconcile:latest_receipt_succeeded";
    }
  }

  ghost predicate Keyed(table: Table) { forall id :: id in table ==> table[id].id == id }

  ghost predicate Listed(rows: seq<Row>, table: Table) {
    forall i :: 0 <= i < |rows| ==> rows[i].id in table && table[rows[i].id] == rows[i]
  }

  ghost predicate Distinct(rows: seq<Row>) { forall i, j :: 0 <= i < j < |rows| ==> rows[i] != rows[j] }

  /** `rows` lists, in some order and once each, the rows the query selects. */
  ghost predicate Fetched(rows: seq<Row>, table: Table, q: Query) {
    && Listed(rows, table) && Distinct(rows)
    && forall id :: id in table ==> (table[id] in rows <==> Selects(q, table[id]))
  }

  lemma AutoReviewIsTidy()
    ensures Tidy(AUTO_REVIEW)
  {
    var a, b := AUTO_ACTOR, AUTO_FACT;
    assert a[0] == 'm' && b[|b| - 1] == 'd';
    assert AUTO_REVIEW[0] == a[0] && AUTO_REVIEW[|AUTO_REVIEW| - 1] == b[|b| - 1];
  }

  lemma CorrectionIsReviewed(row: Row, reference: string)
    requires TidyRow(row) && Reviewed(row) && Mutable(row.status)
    ensures TidyRow(Correct(row, reference)) && Reviewed(Correct(row, reference))
  {
    AutoReviewIsTidy();
  }

  lemma {:induction false} CorrectionsAreReviewed(rows: seq<Row>, refs: map<string, string>)
    requires AllReviewed(rows)
    ensures AllReviewed(Corrections(rows, refs))
  {
    if rows != [] {
      CorrectionsAreReviewed(rows[..|rows| - 1], refs);
      var last := rows[|rows| - 1];
      if Eligible(last, refs) {
        CorrectionIsReviewed(last, refs[last.request]);
      }
    }
  }

  /** After upserting the corrections of some rows, exactly those rows are corrected. */
  lemma {:induction false} UpsertCorrections(table: Table, rows: seq<Row>, refs: map<string, string>, id: string)
    requires Keyed(table) && Listed(rows, table)
    ensures var after := UpsertAll(table, Corrections(rows, refs));
            && (id in after <==> id in table)
            && (id in table ==> after[id] == CorrectedAmong(table[id], rows, refs))
  {
    hide Eligible, Correct;
    if rows != [] {
      var front, last := rows[..|rows| - 1], rows[|rows| - 1];
      ListedFront(rows, table);
      UpsertCorrections(table, front, refs, id);
      assert rows == front + [last];
      assert last.id in table && table[last.id] == last;
      if Eligible(last, refs) {
        EligibleHasReference(last, refs);
        CorrectKeepsId(last, refs[last.request]);
        UpsertOneMore(table, Corrections(front, refs), Correct(last, refs[last.request]));
      } else {
        assert Corrections(front, refs) + [] == Corrections(front, refs);
      }
    }
  }

  lemma EligibleHasReference(row: Row, refs: map<string, string>)
    requires Eligible(row, refs)
    ensures row.request in refs
  {
  }

  lemma CorrectKeepsId(row: Row, reference: string)
    ensures Correct(row, reference).id == row.id
  {
  }

  lemma UpsertOneMore(table: Table, rows: seq<Row>, row: Row)
    ensures UpsertAll(table, rows + [row]) == UpsertAll(table, rows)[row.id := row]
  {
    assert (rows + [row])[..|rows|] == rows;
  }

  /** Marking, whatever the fetch order, corrects exactly the selected eligible rows. */
  lemma MarkingIsOrderFree(table: Table, rows: seq<Row>, q: Query, refs: map<string, string>)
    requires Keyed(table) && Fetched(rows, table, q)
    ensures UpsertAll(table, Corrections(rows, refs)) == Marked(table, q, refs)
  {
    var after := UpsertAll(table, Corrections(rows, refs));
    forall id ensures id in after <==> id in table {
      UpsertCorrections(table, rows, refs, id);
    }
    forall id | id in table ensures after[id] == Marked(table, q, refs)[id] {
      UpsertCorrections(table, rows, refs, id);
    }
  }

  function EligibleIds(table: Table, q: Query, refs: map<string, string>): set<string> {
    set id | id in table && Selects(q, table[id]) && Eligible(table[id], refs)
  }

  function CorrectedIds(rows: seq<Row>, refs: map<string, string>): set<string> {
    set row | row in rows && Eligible(row, refs) :: row.id
  }

  lemma CorrectedIdsGrow(front: seq<Row>, last: Row, refs: map<string, string>)
    ensures CorrectedIds(front + [last], refs)
         == CorrectedIds(front, refs) + if Eligible(last, refs) then {last.id} else {}
  {
    hide Eligible;
  }

  lemma NewId(rows: seq<Row>, table: Table, refs: map<string, string>)
    requires rows != [] && Listed(rows, table) && Distinct(rows)
    ensures rows[|rows| - 1].id !in CorrectedIds(rows[..|rows| - 1], refs)
  {
    hide Eligible;
    var front, last := rows[..|rows| - 1], rows[|rows| - 1];
    forall i | 0 <= i < |front| ensures front[i].id != last.id {
      assert front[i] == rows[i] && table[rows[i].id] == rows[i] && table[last.id] == last;
    }
  }

  lemma {:induction false} CorrectionsCount(rows: seq<Row>, table: Table, refs: map<string, string>)
    requires Listed(rows, table) && Distinct(rows)
    ensures |Corrections(rows, refs)| == |CorrectedIds(rows, refs)|
  {
    hide Eligible, Correct, CorrectedIds;
    if rows == [] {
      NoCorrectedIds(refs);
    } else {
      var front, last := rows[..|rows| - 1], rows[|rows| - 1];
      ListedFront(rows, table);
      CorrectionsCount(front, table, refs);
      assert rows == front + [last];
      CorrectedIdsGrow(front, last, refs);
      NewId(rows, table, refs);
    }
  }

  lemma NoCorrectedIds(refs: map<string, string>)
    ensures CorrectedIds([], refs) == {}
  {
  }

  lemma ListedFront(rows: seq<Row>, table: Table)
    requires rows != [] && Listed(rows, table)
    ensures Listed(rows[..|rows| - 1], table)
    ensures Distinct(rows) ==> Distinct(rows[..|rows| - 1])
  {
    var front := rows[..|rows| - 1];
    forall i | 0 <= i < |front| ensures front[i].id in table && table[front[i].id] == front[i] {
      assert front[i] == rows[i];
    }
  }

  /** Marking submits one row for each selected eligible row. */
  lemma MarkCountsEligible(table: Table, rows: seq<Row>, q: Query, refs: map<string, string>)
    requires Keyed(table) && Fetched(rows, table, q)
    ensures |Corrections(rows, refs)| == |EligibleIds(table, q, refs)|
  {
    CorrectionsCount(rows, table, refs);
    forall id ensures id in CorrectedIds(rows, refs) <==> id in EligibleIds(table, q, refs) {
      if id in CorrectedIds(rows, refs) {
        var row :| row in rows && Eligible(row, refs) && row.id == id;
      }
      if id in EligibleIds(table, q, refs) {
        assert table[id] in rows;
      }
    }
    assert CorrectedIds(rows, refs) == EligibleIds(table, q, refs);
  }

  /** Marking keeps the review rules, so it can never be refused by validation. */
  lemma MarkKeepsInv(table: Table, q: Query, refs: map<string, string>)
    requires RegisterInv(table)
    ensures RegisterInv(Marked(table, q, refs))
  {
    forall id | id in table
      ensures var row := Marked(table, q, refs)[id]; row.id == id && TidyRow(row) && Reviewed(row)
    {
      if Eligible(table[id], refs) {
        CorrectionIsReviewed(table[id], refs[table[id].request]);
      }
    }
  }

  /**
   A mark changes a row only into a corrected one: its keys and skip flag stay, its evidence only grows, and the
   evidence ends with the correction the caller named for its request.
   */
  lemma MarkKeepsFacts(table: Table, q: Query, refs: map<string, string>, id: string)
    requires id in table
    ensures id in Marked(table, q, refs)
    ensures var before, after := table[id], Marked(table, q, refs)[id];
            && after.id == before.id && after.request == before.request && after.stage == before.stage
            && after.component == before.component && after.kind == before.kind && after.skip == before.skip
            && before.evidence <= after.evidence
            && (after != before ==>
                  && after.status == Corrected && after.request in refs
                  && after.correction == Some(refs[after.request])
                  && after.evidence == before.evidence + [refs[after.request]])
  {
  }

  /** The accepted skips a query selects, as (request, review reference) pairs. */
  function AcceptedSkips(table: Table, q: Query): set<(string, Option<string>)> {
    set id | id in table && Selects(q, table[id]) && table[id].status == AcceptedSkip && table[id].skip ::
      (table[id].request, table[id].review)
  }

  /** Marking never changes what any query sees as accepted skips, nor any row already corrected or accepted. */
  lemma MarkKeepsAcceptedSkips(table: Table, q: Query, refs: map<string, string>, other: Query)
    ensures AcceptedSkips(Marked(table, q, refs), other) == AcceptedSkips(table, other)
    ensures forall id :: id in table && !Mutable(table[id].status) ==> Marked(table, q, refs)[id] == table[id]
  {
    var after := Marked(table, q, refs);
    assert forall id :: id in table ==> Selects(other, after[id]) == Selects(other, table[id]);
    forall p | p in AcceptedSkips(table, other) ensures p in AcceptedSkips(after, other) {
      var id :| id in table && Selects(other, table[id]) && table[id].status == AcceptedSkip && table[id].skip
                && p == (table[id].request, table[id].review);
      assert after[id] == table[id];
    }
  }

  /**
   Marking again, with any query and references, finds no row it corrected before; with the same ones it changes
   nothing.
   */
  lemma MarkTwice(table: Table, q: Query, refs: map<string, string>)
    ensures Marked(Marked(table, q, refs), q, refs) == Marked(table, q, refs)
    ensures forall id :: id in table && Selects(q, table[id]) ==> !Eligible(Marked(table, q, refs)[id], refs)
  {
  }

  // ----- whole runs -----

  datatype Op = Persist(raws: seq<RawRow>) | Mark(q: Query, refs: map<string, string>)

  function Step(table: Table, op: Op): Table {
    match op
    case Persist(raws) => (match Persisted(table, raws) case Ok(after) => after case Err(_) => table)
    case Mark(q, refs) => Marked(table, q, refs)
  }

  function Run(table: Table, ops: seq<Op>): Table {
    if ops == [] then table else Step(Run(table, ops[..|ops| - 1]), ops[|ops| - 1])
  }

  /** Every sequence of upserts and marks keeps the review rules. */
  lemma {:induction false} RegisterHolds(ops: seq<Op>)
    ensures RegisterInv(Run(map[], ops))
  {
    if ops != [] {
      RegisterHolds(ops[..|ops| - 1]);
      var table, op := Run(map[], ops[..|ops| - 1]), ops[|ops| - 1];
      match op
      case Persist(raws) =>
        if ValidateAll(raws).Ok? {
          ValidatedAreReviewed(raws);
          UpsertKeepsInv(table, ValidateAll(raws).value);
        }
      case Mark(q, refs) =>
        MarkKeepsInv(table, q, refs);
    }
  }

  // ----- who keeps an accepted skip -----

  /** The failure id a submitted row is stored under: its own, or the default of its request. */
  function EffectiveId(raw: RawRow): string { Trimmed(raw.id).GetOr(DefaultId(Trimmed(raw.request).GetOr(""))) }

  lemma {:induction false} ValidatedIds(raws: seq<RawRow>)
    requires ValidateAll(raws).Ok?
    ensures |ValidateAll(raws).value| == |raws|
    ensures forall i :: 0 <= i < |raws| ==> Validate(raws[i]) == Ok(ValidateAll(raws).value[i])
    ensures forall i :: 0 <= i < |raws| ==> ValidateAll(raws).value[i].id == EffectiveId(raws[i])
  {
    if raws != [] {
      ValidatedIds(raws[1..]);
      ValidatedId(raws[0]);
      assert forall i :: 0 < i < |raws| ==> raws[i] == raws[1..][i - 1];
    }
  }

  lemma ValidatedId(raw: RawRow)
    requires Validate(raw).Ok?
    ensures Validate(raw).value.id == EffectiveId(raw)
    ensures Trimmed(raw.request) == Some(Validate(raw).value.request)
  {
    hide Trimmed, DefaultId, ParseStatus, Strip;
  }

  /** The last of the rows written under the id. */
  function LastRow(rows: seq<Row>, id: string): Option<Row> {
    if rows == [] then None
    else if rows[|rows| - 1].id == id then Some(rows[|rows| - 1])
    else LastRow(rows[..|rows| - 1], id)
  }

  /** The last row the run writes under the id, counting only the batches that validate. */
  function LastWritten(ops: seq<Op>, id: string): Option<Row> {
    if ops == [] then None
    else
      var op, earlier := ops[|ops| - 1], LastWritten(ops[..|ops| - 1], id);
      match op
      case Mark(_, _) => earlier
      case Persist(raws) =>
        var rows := ValidateAll(raws);
        if rows.Err? || LastRow(rows.value, id).None? then earlier else LastRow(rows.value, id)
  }

  predicate IsAcceptedSkip(row: Row, request: string) {
    row.status == AcceptedSkip && row.skip && row.request == request
  }

  /** The register holds, under the id, an accepted skip of the request. */
  predicate HoldsSkip(table: Table, id: string, request: string) { id in table && IsAcceptedSkip(table[id], request) }

  lemma {:induction false} UpsertAt(table: Table, rows: seq<Row>, id: string)
    ensures var after, last := UpsertAll(table, rows), LastRow(rows, id);
            if last.Some? then id in after && after[id] == last.value
            else (id in after <==> id in table) && (id in table ==> after[id] == table[id])
  {
    if rows != [] {
      UpsertAt(table, rows[..|rows| - 1], id);
    }
  }

  lemma MarkKeepsSkips(table: Table, q: Query, refs: map<string, string>, id: string, request: string)
    ensures HoldsSkip(Marked(table, q, refs), id, request) <==> HoldsSkip(table, id, request)
  {
  }

  /**
   After any run, the register holds an accepted skip of the request under the id exactly when the last row the run
   wrote under that id is one, or it wrote none there and the register held one before.
   */
  lemma {:induction false} SkipSurvivesIff(table: Table, ops: seq<Op>, id: string, request: string)
    ensures HoldsSkip(Run(table, ops), id, request) <==>
            match LastWritten(ops, id)
            case Some(row) => IsAcceptedSkip(row, request)
            case None => HoldsSkip(table, id, request)
  {
    hide Marked, ValidateAll;
    if ops != [] {
      var n := |ops| - 1;
      SkipSurvivesIff(table, ops[..n], id, request);
      var before := Run(table, ops[..n]);
      match ops[n]
      case Persist(raws) =>
        if ValidateAll(raws).Ok? {
          UpsertAt(before, ValidateAll(raws).value, id);
        }
      case Mark(q, refs) =>
        MarkKeepsSkips(before, q, refs, id, request);
    }
  }

  /**
   No other request writes under the id, explicitly or by default, and the request itself submits only accepted skips
   there.
   */
  ghost predicate LeavesAlone(ops: seq<Op>, id: string, request: string) {
    forall i :: 0 <= i < |ops| && ops[i].Persist? ==> BatchLeavesAlone(ops[i].raws, id, request)
  }

  ghost predicate BatchLeavesAlone(raws: seq<RawRow>, id: string, request: string) {
    forall raw :: raw in raws && EffectiveId(raw) == id && Validate(raw).Ok?
        ==> IsAcceptedSkip(Validate(raw).value, request)
  }

  lemma {:induction false} LastRowIsOne(rows: seq<Row>, id: string)
    ensures LastRow(rows, id).Some? ==> LastRow(rows, id).value in rows && LastRow(rows, id).value.id == id
  {
    if rows != [] {
      LastRowIsOne(rows[..|rows| - 1], id);
    }
  }

  lemma BatchWritesSkips(raws: seq<RawRow>, id: string, request: string)
    requires ValidateAll(raws).Ok? && BatchLeavesAlone(raws, id, request)
    ensures var last := LastRow(ValidateAll(raws).value, id); last.Some? ==> IsAcceptedSkip(last.value, request)
  {
    hide Validate, ValidateAll, EffectiveId, IsAcceptedSkip;
    var rows := ValidateAll(raws).value;
    ValidatedIds(raws);
    LastRowIsOne(rows, id);
    if LastRow(rows, id).Some? {
      var i :| 0 <= i < |rows| && rows[i] == LastRow(rows, id).value;
      assert raws[i] in raws;
    }
  }

  /** An accepted skip survives every run that leaves its failure id to accepted skips of its own request. */
  lemma {:induction false} SkipSurvivesRun(table: Table, ops: seq<Op>, id: string, request: string)
    requires HoldsSkip(table, id, request) && LeavesAlone(ops, id, request)
    ensures HoldsSkip(Run(table, ops), id, request)
  {
    hide ValidateAll, IsAcceptedSkip, BatchLeavesAlone, Marked;
    if ops != [] {
      var n := |ops| - 1;
      SkipSurvivesRun(table, ops[..n], id, request);
      var before := Run(table, ops[..n]);
      match ops[n]
      case Persist(raws) =>
        if ValidateAll(raws).Ok? {
          BatchWritesSkips(raws, id, request);
          UpsertAt(before, ValidateAll(raws).value, id);
        }
      case Mark(q, refs) =>
        MarkKeepsSkips(before, q, refs, id, request);
    }
  }

  /** The row of a request, submitted without a failure id. */
  function Anonymous(row: Row): RawRow { AsRaw(row).(id := None) }

  lemma AnonymousTakesDefault(row: Row)
    requires TidyRow(row) && Reviewed(row)
    ensures Validate(Anonymous(row)) == Ok(row.(id := DefaultId(row.request)))
  {
    hide ParseStatus, Trimmed, StatusName, Strip, DefaultId;
    RevalidationFixes(row);
    TidyTrims(row.request);
    NothingTrims();
    SameStatus(row);
  }

  lemma SameStatus(row: Row)
    ensures ParseStatus(Anonymous(row)) == ParseStatus(AsRaw(row))
  {
    hide Strip, Lower;
  }

  /**
   An observed failure of one request, stored under its default id, removes the accepted skip of any request that
   shares it.
   */
  lemma SharedIdRemovesSkip(skip: Row, observed: Row)
    requires TidyRow(skip) && Reviewed(skip) && IsAcceptedSkip(skip, skip.request)
    requires TidyRow(observed) && Reviewed(observed) && observed.status == Observed
    requires DefaultId(skip.request) == DefaultId(observed.request)
    ensures var id, first := DefaultId(skip.request), Persist([Anonymous(skip)]);
            && HoldsSkip(Run(map[], [first]), id, skip.request)
            && !HoldsSkip(Run(map[], [first, Persist([Anonymous(observed)])]), id, skip.request)
  {
    hide Validate, DefaultId, TidyRow, Reviewed, Anonymous;
    var id := DefaultId(skip.request);
    var first, second := Persist([Anonymous(skip)]), Persist([Anonymous(observed)]);
    AnonymousTakesDefault(skip);
    AnonymousTakesDefault(observed);
    LoneBatch(Anonymous(skip), skip.(id := id));
    LoneBatch(Anonymous(observed), observed.(id := id));
    SkipSurvivesIff(map[], [first], id, skip.request);
    SkipSurvivesIff(map[], [first, second], id, skip.request);
    assert [first, second][..1] == [first] && [first][..0] == [];
  }

  lemma LoneBatch(raw: RawRow, row: Row)
    requires Validate(raw) == Ok(row)
    ensures ValidateAll([raw]) == Ok([row]) && LastRow([row], row.id) == Some(row)
  {
    hide Validate;
    assert [raw][1..] == [] && ValidateAll([]) == Ok([]);
    assert [row] + [] == [row];
  }

  /** A failure of the request: observed, or accepted for skipping after a review. */
  function FailureOf(request: string, accepted: bool): Row {
    Row("x", request, "s", "c", None, None, if accepted then AcceptedSkip else Observed, "k",
        if accepted then Some("r") else None, None, accepted, [], None)
  }

  /** Recording a failure of "a-b" removes the accepted skip of "a_b". */
  lemma DashRemovesUnderscoreSkip()
    ensures var id, first := DefaultId("a_b"), Persist([Anonymous(FailureOf("a_b", true))]);
            && HoldsSkip(Run(map[], [first]), id, "a_b")
            && !HoldsSkip(Run(map[], [first, Persist([Anonymous(FailureOf("a-b", false))])]), id, "a_b")
  {
    DefaultIdsMeet();
    TidyExamples();
    SharedIdRemovesSkip(FailureOf("a_b", true), FailureOf("a-b", false));
  }

  lemma TidyExamples()
    ensures TidyRow(FailureOf("a_b", true)) && TidyRow(FailureOf("a-b", false))
  {
  }

  // ----- the register -----

  lemma {:induction false} RevalidationFixesAll(rows: seq<Row>)
    requires AllReviewed(rows)
    ensures ValidateAll(AsRawAll(rows)) == Ok(rows)
  {
    hide Validate, AsRaw, TidyRow, Reviewed;
    if rows != [] {
      RevalidationFixes(rows[0]);
      assert AsRawAll(rows)[1..] == AsRawAll(rows[1..]);
      RevalidationFixesAll(rows[1..]);
      assert rows == [rows[0]] + rows[1..];
    }
  }

  function AsRawAll(rows: seq<Row>): seq<RawRow> { seq(|rows|, i requires 0 <= i < |rows| => AsRaw(rows[i])) }

  lemma AfterNothing(rest: Result<seq<Row>, Fault>)
    ensures After([], rest) == rest
  {
    if rest.Ok? {
      assert [] + rest.value == rest.value;
    }
  }

  lemma AfterOne(done: seq<Row>, row: Row, rest: Result<seq<Row>, Fault>)
    ensures After(done, After([row], rest)) == After(done + [row], rest)
  {
    if rest.Ok? {
      assert done + ([row] + rest.value) == done + [row] + rest.value;
    }
  }

  method Normalize(raws: seq<RawRow>) returns (result: Result<seq<Row>, Fault>)
    ensures result == ValidateAll(raws)
  {
    hide Validate;
    var normalized: seq<Row> := [];
    assert raws[0..] == raws;
    AfterNothing(ValidateAll(raws));
    for i := 0 to |raws|
      invariant ValidateAll(raws) == After(normalized, ValidateAll(raws[i..]))
    {
      assert raws[i..][0] == raws[i] && raws[i..][1..] == raws[i + 1..];
      var row := Validate(raws[i]);
      if row.Err? {
        return Err(row.error);
      }
      AfterOne(normalized, row.value, ValidateAll(raws[i + 1..]));
      normalized := normalized + [row.value];
    }
    assert raws[|raws|..] == [] && normalized + [] == normalized;
    return Ok(normalized);
  }

  class Register {
    var table: Table

    constructor ()
      ensures table == map[]
    {
      table := map[];
    }

    method PersistRows(raws: seq<RawRow>) returns (fault: Option<Fault>)
      modifies this
      ensures match Persisted(old(table), raws)
              case Ok(after) => fault == None && table == after
              case Err(error) => fault == Some(error) && table == old(table)
    {
      var normalized := Normalize(raws);
      if normalized.Err? {
        return Some(normalized.error);
      }
      var rows := normalized.value;
      assert rows[..0] == [];
      for i := 0 to |rows|
        invariant table == UpsertAll(old(table), rows[..i])
      {
        assert rows[..i + 1][..i] == rows[..i];
        table := table[rows[i].id := rows[i]];
      }
      assert rows[..|rows|] == rows;
      return None;
    }

    /** `rows` is what the fetch returned. */
    method MarkCorrected(q: Query, refs: map<string, string>, rows: seq<Row>) returns (count: nat, fault: Option<Fault>)
      requires RegisterInv(table) && Fetched(rows, table, q)
      modifies this
      ensures fault == None && table == Marked(old(table), q, refs) && count == |EligibleIds(old(table), q, refs)|
    {
      hide AsRaw, Correct, TidyRow, Reviewed;
      MarkCountsEligible(table, rows, q, refs);
      if refs == map[] {
        assert Marked(table, q, refs) == table && EligibleIds(table, q, refs) == {};
        return 0, None;
      }
      hide Marked, EligibleIds, Fetched, RegisterInv, Selects;
      var corrected: seq<RawRow> := [];
      for i := 0 to |rows|
        invariant corrected == AsRawAll(Corrections(rows[..i], refs))
      {
        assert rows[..i + 1][..i] == rows[..i];
        var row := rows[i];
        if row.request !in refs || refs[row.request] == "" || !Mutable(row.status) {
          continue;
        }
        corrected := corrected + [AsRaw(Correct(row, refs[row.request]))];
      }
      assert rows[..|rows|] == rows;
      CorrectionsAreReviewed(rows, refs);
      RevalidationFixesAll(Corrections(rows, refs));
      MarkingIsOrderFree(table, rows, q, refs);
      count := |corrected|;
      fault := PersistRows(corrected);
    }
  }
}
