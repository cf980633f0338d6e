/**
 The limited event-feed dispatcher: which planned requests a pass runs, and how repeated passes drain the plan. A
 process outcome is an oracle answer; a process writes no receipt but the one at its own request's path.
 */
module EventFeedDispatch {
  import opened Text
  import opened Wrappers

  datatype Key = MissingKey | NotObject | ForFeed(feed: string)
  datatype Request = Request(id: string, feed: string, path: string, key: Key)

  datatype RunRow = RunRow(id: string, status: string)
  datatype Receipt = Unreadable | Runs(rows: seq<RunRow>)

  /** What a process did: the clock stamp in its run id, its exit code, and the receipt it wrote, if any. */
  datatype Outcome = Outcome(stamp: string, code: int, receipt: Option<Receipt>)
  type Oracle = (nat, Request) -> Outcome

  datatype Options = Options(limit: Option<int>, execute: bool, continueOnError: bool)
  datatype Call = Call(id: string, run: string)
  datatype World = World(receipts: map<string, Receipt>, keys: set<string>, log: seq<Call>)

  datatype ItemStatus = AlreadySucceeded | Validated | DispatchedSucceeded | DispatchedFailed
  datatype Item = Item(id: string, status: ItemStatus, code: Option<int>, attempts: nat, keyRetained: bool)

  datatype Fault = UnknownFeeds(feeds: set<string>) | NotPlanned(ids: set<string>) | BadLimit | NothingSelected
                 | KeyMissing(id: string) | KeyMalformed(id: string) | FeedMismatch(id: string)
                 | DispatchFailed(id: string)

  // ----- receipts -----

  const FEED_RUN := "_event_feed_"

  function RunId(id: string, stamp: string): string { id + FEED_RUN + stamp }

  predicate Credits(row: RunRow, id: string) { row.status == "succeeded" && id + FEED_RUN <= row.id }

  predicate Credited(receipt: Option<Receipt>, id: string) {
    receipt.Some? && receipt.value.Runs? && exists row :: row in receipt.value.rows && Credits(row, id)
  }

  function At(receipts: map<string, Receipt>, path: string): Option<Receipt> {
    if path in receipts then Some(receipts[path]) else None
  }

  predicate Done(receipts: map<string, Receipt>, r: Request) { Credited(At(receipts, r.path), r.id) }

  /** The id a successful process records is the id the next pass recognises. */
  lemma OwnRunCredits(id: string, stamp: string, rows: seq<RunRow>)
    requires RunRow(RunId(id, stamp), "succeeded") in rows
    ensures Credited(Some(Runs(rows)), id)
  {
    var row := RunRow(RunId(id, stamp), "succeeded");
    assert row.id[..|id + FEED_RUN|] == id + FEED_RUN;
    assert Credits(row, id);
  }

  /** A receipt credits a request only by a row that says succeeded under a run id of that request, never unread. */
  lemma CreditedIff(receipt: Option<Receipt>, id: string)
    ensures Credited(receipt, id) <==>
        receipt.Some? && receipt.value.Runs?
        && exists stamp :: RunRow(id + "_event_feed_" + stamp, "succeeded") in receipt.value.rows
  {
    if Credited(receipt, id) {
      var row :| row in receipt.value.rows && Credits(row, id);
      var stamp := row.id[|id + FEED_RUN|..];
      assert row.id == id + FEED_RUN + stamp;
      assert row == RunRow(id + "_event_feed_" + stamp, "succeeded");
    }
    if receipt.Some? && receipt.value.Runs?
        && exists stamp :: RunRow(id + "_event_feed_" + stamp, "succeeded") in receipt.value.rows {
      var stamp :| RunRow(id + "_event_feed_" + stamp, "succeeded") in receipt.value.rows;
      assert RunRow(RunId(id, stamp), "succeeded") in receipt.value.rows;
      OwnRunCredits(id, stamp, receipt.value.rows);
    }
  }

  // ----- one pass -----

  function RowFault(r: Request): Option<Fault> {
    match r.key
    case MissingKey => Some(KeyMissing(r.id))
    case NotObject => Some(KeyMalformed(r.id))
    case ForFeed(feed) => if feed == r.feed then None else Some(FeedMismatch(r.id))
  }

  predicate AtLimit(o: Options, taken: int) { o.limit.Some? && taken >= o.limit.value }

  /** The world after running r: its receipt, its runtime key (kept when the run failed) and the call log. */
  function Ran(w: World, r: Request, out: Outcome): World {
    World(if out.receipt.Some? then w.receipts[r.path := out.receipt.value] else w.receipts,
          if out.code == 0 then w.keys - {r.id} else w.keys + {r.id},
          w.log + [Call(r.id, RunId(r.id, out.stamp))])
  }

  function AlreadyItem(r: Request): Item { Item(r.id, AlreadySucceeded, Some(0), 0, false) }
  function ValidatedItem(r: Request): Item { Item(r.id, Validated, None, 0, false) }
  function RanItem(r: Request, code: int): Item {
    Item(r.id, if code == 0 then DispatchedSucceeded else DispatchedFailed, Some(code), 1, code != 0)
  }

  datatype Pass = Pass(world: World, result: Result<seq<Item>, Fault>)

  function Prepend(items: seq<Item>, p: Pass): Pass {
    match p.result
    case Ok(more) => Pass(p.world, Ok(items + more))
    case Err(_) => p
  }

  /** What remains of a pass at request list `rest` when `taken` pending requests were taken already. */
  function PassFrom(w: World, rest: seq<Request>, taken: nat, o: Options, run: Oracle): Pass
    decreases |rest|
  {
    if rest == [] then Pass(w, Ok([]))
    else
      var r := rest[0];
      if RowFault(r).Some? then Pass(w, Err(RowFault(r).value))
      else if Done(w.receipts, r) then Prepend([AlreadyItem(r)], PassFrom(w, rest[1..], taken, o, run))
      else if AtLimit(o, taken) then PassFrom(w, rest[1..], taken, o, run)
      else if !o.execute then Prepend([ValidatedItem(r)], PassFrom(w, rest[1..], taken + 1, o, run))
      else
        var out := run(|w.log|, r);
        if out.code != 0 && !o.continueOnError then Pass(Ran(w, r, out), Err(DispatchFailed(r.id)))
        else Prepend([RanItem(r, out.code)], PassFrom(Ran(w, r, out), rest[1..], taken + 1, o, run))
  }

  function Pending(receipts: map<string, Receipt>, rest: seq<Request>): seq<Request> {
    if rest == [] then []
    else (if Done(receipts, rest[0]) then [] else [rest[0]]) + Pending(receipts, rest[1..])
  }

  function IdsOf(rs: seq<Request>): seq<string> { seq(|rs|, i requires 0 <= i < |rs| => rs[i].id) }

  function Called(log: seq<Call>): seq<string> { seq(|log|, i requires 0 <= i < |log| => log[i].id) }

  /** How many of n pending requests a pass still takes. */
  function Room(o: Options, taken: nat, n: nat): nat {
    if o.limit.None? then n
    else if o.limit.value <= taken then 0
    else if o.limit.value - taken < n then o.limit.value - taken
    else n
  }

  ghost predicate DistinctPaths(rs: seq<Request>) { forall i, j :: 0 <= i < j < |rs| ==> rs[i].path != rs[j].path }

  ghost predicate DistinctIds(rs: seq<Request>) { forall i, j :: 0 <= i < j < |rs| ==> rs[i].id != rs[j].id }

  ghost predicate Apart(r: Request, rs: seq<Request>) { forall i :: 0 <= i < |rs| ==> rs[i].path != r.path }

  lemma {:induction false} PendingIgnoresOthers(w: World, r: Request, out: Outcome, rest: seq<Request>)
    requires Apart(r, rest)
    ensures Pending(Ran(w, r, out).receipts, rest) == Pending(w.receipts, rest)
  {
    if rest != [] {
      assert Apart(r, rest[1..]) by {
        forall i | 0 <= i < |rest[1..]| ensures rest[1..][i].path != r.path {
          assert rest[1..][i] == rest[i + 1];
        }
      }
      PendingIgnoresOthers(w, r, out, rest[1..]);
      assert At(Ran(w, r, out).receipts, rest[0].path) == At(w.receipts, rest[0].path);
    }
  }

  lemma TailDistinct(rs: seq<Request>)
    requires DistinctPaths(rs) && rs != []
    ensures DistinctPaths(rs[1..]) && Apart(rs[0], rs[1..])
  {
    forall i | 0 <= i < |rs[1..]| ensures rs[1..][i] == rs[i + 1] {
    }
  }

  /** The number of calls the pass made. */
  function CallsOf(before: World, after: World): int { |after.log| - |before.log| }

  ghost predicate CallsArePrefix(before: World, after: World, pending: seq<Request>) {
    && 0 <= CallsOf(before, after) <= |pending|
    && Called(after.log) == Called(before.log) + IdsOf(pending[..CallsOf(before, after)])
  }

  lemma OneCallFirst(w: World, mid: World, after: World, r: Request, out: Outcome, more: seq<Request>)
    requires mid == Ran(w, r, out) && CallsArePrefix(mid, after, more)
    ensures CallsArePrefix(w, after, [r] + more)
  {
    var c := CallsOf(mid, after);
    assert ([r] + more)[..c + 1] == [r] + more[..c];
    assert Called(mid.log) == Called(w.log) + [r.id];
    assert IdsOf([r] + more[..c]) == [r.id] + IdsOf(more[..c]);
  }

  /**
   For every oracle and every option: the calls of a pass are a prefix of the pending requests in planned order and
   never exceed the room left; finished requests are never called and use no room.
   */
  lemma {:induction false} PassCallsPrefix(w: World, rest: seq<Request>, taken: nat, o: Options, run: Oracle)
    requires DistinctPaths(rest)
    ensures var after, pending := PassFrom(w, rest, taken, o, run).world, Pending(w.receipts, rest);
            CallsArePrefix(w, after, pending) && CallsOf(w, after) <= Room(o, taken, |pending|)
    decreases |rest|
  {
    var after, pending := PassFrom(w, rest, taken, o, run).world, Pending(w.receipts, rest);
    if rest == [] || RowFault(rest[0]).Some? {
      assert Called(w.log) + IdsOf(pending[..0]) == Called(w.log);
      return;
    }
    TailDistinct(rest);
    var r := rest[0];
    if Done(w.receipts, r) {
      PassCallsPrefix(w, rest[1..], taken, o, run);
    } else if AtLimit(o, taken) {
      PassCallsPrefix(w, rest[1..], taken, o, run);
      assert Called(w.log) + IdsOf(pending[..0]) == Called(w.log);
    } else if !o.execute {
      ValidationCallsNothing(w, rest, taken, o, run);
      assert Called(w.log) + IdsOf(pending[..0]) == Called(w.log);
    } else {
      var out := run(|w.log|, r);
      var mid := Ran(w, r, out);
      var more := Pending(w.receipts, rest[1..]);
      PendingIgnoresOthers(w, r, out, rest[1..]);
      if out.code != 0 && !o.continueOnError {
        assert Called(mid.log) + IdsOf(more[..0]) == Called(mid.log);
      } else {
        PassCallsPrefix(mid, rest[1..], taken + 1, o, run);
      }
      OneCallFirst(w, mid, after, r, out, more);
    }
  }

  /** Validation changes nothing at all. */
  lemma {:induction false} ValidationCallsNothing(w: World, rest: seq<Request>, taken: nat, o: Options, run: Oracle)
    requires !o.execute
    ensures PassFrom(w, rest, taken, o, run).world == w
    decreases |rest|
  {
    if rest != [] {
      ValidationCallsNothing(w, rest[1..], taken, o, run);
      ValidationCallsNothing(w, rest[1..], taken + 1, o, run);
    }
  }

  /** What is wrong with a planned row: no task key, one that is no object, or one of another feed. */
  predicate FaultOf(r: Request, f: Fault) {
    match r.key
    case MissingKey => f == KeyMissing(r.id)
    case NotObject => f == KeyMalformed(r.id)
    case ForFeed(feed) => feed != r.feed && f == FeedMismatch(r.id)
  }

  ghost predicate FirstFaultAt(rest: seq<Request>, i: nat, f: Fault) {
    i < |rest| && FaultOf(rest[i], f) && forall j :: 0 <= j < i ==> rest[j].key == ForFeed(rest[j].feed)
  }

  /** The last call of the pass was r's and failed. */
  ghost predicate LastCallFailed(before: World, after: World, rest: seq<Request>, run: Oracle, id: string) {
    && |after.log| > |before.log| && after.log[|after.log| - 1].id == id
    && exists r :: r in rest && r.id == id && run(|after.log| - 1, r).code != 0
  }

  ghost predicate Ended(w: World, p: Pass, rest: seq<Request>, o: Options, run: Oracle) {
    && |p.world.log| >= |w.log|
    && match p.result
       case Ok(_) => forall i :: 0 <= i < |rest| ==> rest[i].key == ForFeed(rest[i].feed)
       case Err(DispatchFailed(id)) => o.execute && !o.continueOnError && LastCallFailed(w, p.world, rest, run, id)
       case Err(f) => exists i: nat :: FirstFaultAt(rest, i, f)
  }

  lemma EndsAfterRow(w: World, mid: World, p: Pass, items: seq<Item>, r: Request, tail: seq<Request>, o: Options,
        run: Oracle)
    requires r.key == ForFeed(r.feed) && Ended(mid, p, tail, o, run) && |mid.log| >= |w.log|
    ensures Ended(w, p, [r] + tail, o, run) && Ended(w, Prepend(items, p), [r] + tail, o, run)
  {
    hide FaultOf;
    var rest := [r] + tail;
    forall i | 0 < i < |rest| ensures rest[i] == tail[i - 1] {
    }
    forall i: nat, f | FirstFaultAt(tail, i, f) ensures FirstFaultAt(rest, i + 1, f) {
      assert rest[i + 1] == tail[i];
    }
    if p.result.Err? && p.result.error.DispatchFailed? {
      var x :| x in tail && x.id == p.result.error.id && run(|p.world.log| - 1, x).code != 0;
      assert x in rest;
    }
  }

  lemma EndsAtRow(w: World, p: Pass, rest: seq<Request>, o: Options, run: Oracle)
    requires rest != [] && RowFault(rest[0]).Some? && p == Pass(w, Err(RowFault(rest[0]).value))
    ensures Ended(w, p, rest, o, run)
  {
    assert FirstFaultAt(rest, 0, RowFault(rest[0]).value);
  }

  lemma EndsAtFailure(w: World, rest: seq<Request>, o: Options, run: Oracle)
    requires rest != [] && o.execute && !o.continueOnError && run(|w.log|, rest[0]).code != 0
    ensures Ended(w, Pass(Ran(w, rest[0], run(|w.log|, rest[0])), Err(DispatchFailed(rest[0].id))), rest, o, run)
  {
    var r := rest[0];
    var mid := Ran(w, r, run(|w.log|, r));
    assert |mid.log| == |w.log| + 1 && mid.log[|w.log|].id == r.id && r in rest;
  }

  /**
   How a pass ends: with a failed dispatch only in the executing mode that stops at errors and right after the call
   that failed, with any other fault at the first row whose task key is unusable, and without a fault only when every
   row's key is usable.
   */
  lemma {:induction false} PassEnds(w: World, rest: seq<Request>, taken: nat, o: Options, run: Oracle)
    ensures Ended(w, PassFrom(w, rest, taken, o, run), rest, o, run)
    decreases |rest|
  {
    hide Done, Ended, Prepend, Ran;
    if rest == [] {
      NothingEnds(w, o, run);
    } else if RowFault(rest[0]).Some? {
      EndsAtRow(w, PassFrom(w, rest, taken, o, run), rest, o, run);
    } else {
      var r, tail := rest[0], rest[1..];
      assert rest == [r] + tail;
      var mid := Ran(w, r, run(|w.log|, r));
      LogGrowsByOne(w, r, run(|w.log|, r));
      if Done(w.receipts, r) || AtLimit(o, taken) {
        PassEnds(w, tail, taken, o, run);
        EndsAfterRow(w, w, PassFrom(w, tail, taken, o, run), [AlreadyItem(r)], r, tail, o, run);
      } else if !o.execute {
        PassEnds(w, tail, taken + 1, o, run);
        EndsAfterRow(w, w, PassFrom(w, tail, taken + 1, o, run), [ValidatedItem(r)], r, tail, o, run);
      } else if run(|w.log|, r).code != 0 && !o.continueOnError {
        EndsAtFailure(w, rest, o, run);
      } else {
        PassEnds(mid, tail, taken + 1, o, run);
        EndsAfterRow(w, mid, PassFrom(mid, tail, taken + 1, o, run), [RanItem(r, run(|w.log|, r).code)], r, tail, o,
            run);
      }
    }
  }

  lemma NothingEnds(w: World, o: Options, run: Oracle)
    ensures Ended(w, Pass(w, Ok([])), [], o, run)
  {
  }

  /** What the calls of a pass leave: call by call the log entry, the runtime key kept on failure, and the receipt. */
  ghost predicate CallLeaves(before: World, after: World, n: nat, r: Request, out: Outcome) {
    && n < |after.log| && after.log[n] == Call(r.id, RunId(r.id, out.stamp))
    && (r.id in after.keys <==> out.code != 0)
    && At(after.receipts, r.path) == if out.receipt.Some? then out.receipt else At(before.receipts, r.path)
  }

  ghost predicate PassLeaves(before: World, after: World, pending: seq<Request>, run: Oracle) {
    && 0 <= CallsOf(before, after) <= |pending| && before.log <= after.log
    && CallsLeave(before, after, pending, run)
    && OthersStay(before, after, pending[..CallsOf(before, after)])
  }

  ghost predicate CallsLeave(before: World, after: World, pending: seq<Request>, run: Oracle)
    requires CallsOf(before, after) <= |pending|
  {
    forall k :: 0 <= k < CallsOf(before, after) ==>
      CallLeaves(before, after, |before.log| + k, pending[k], run(|before.log| + k, pending[k]))
  }

  ghost predicate OthersStay(before: World, after: World, called: seq<Request>) {
    && (forall id :: (forall r :: r in called ==> r.id != id) ==> (id in after.keys <==> id in before.keys))
    && (forall path :: (forall r :: r in called ==> r.path != path)
          ==> At(after.receipts, path) == At(before.receipts, path))
  }

  lemma OthersStayThen(w: World, mid: World, after: World, r: Request, called: seq<Request>)
    requires exists out :: mid == Ran(w, r, out)
    requires OthersStay(mid, after, called)
    ensures OthersStay(w, after, [r] + called)
  {
    var all := [r] + called;
    forall id | forall x :: x in all ==> x.id != id ensures id in after.keys <==> id in w.keys {
      assert r in all && forall x :: x in called ==> x in all;
    }
    forall path | forall x :: x in all ==> x.path != path ensures At(after.receipts, path) == At(w.receipts, path) {
      assert r in all && forall x :: x in called ==> x in all;
    }
  }

  lemma FirstCallLeaves(w: World, after: World, r: Request, called: seq<Request>, out: Outcome)
    requires Ran(w, r, out).log <= after.log && OthersStay(Ran(w, r, out), after, called)
    requires forall x :: x in called ==> x.id != r.id && x.path != r.path
    ensures CallLeaves(w, after, |w.log|, r, out)
  {
    var mid := Ran(w, r, out);
    assert after.log[|w.log|] == mid.log[|w.log|];
  }

  lemma LaterCallLeaves(w: World, after: World, r: Request, out: Outcome, n: nat, x: Request, got: Outcome)
    requires CallLeaves(Ran(w, r, out), after, n, x, got) && x.path != r.path
    ensures CallLeaves(w, after, n, x, got)
  {
  }

  lemma LeavesOneMore(w: World, after: World, r: Request, pending: seq<Request>, run: Oracle)
    requires PassLeaves(Ran(w, r, run(|w.log|, r)), after, pending, run)
    requires forall k :: 0 <= k < |pending| ==> pending[k].id != r.id && pending[k].path != r.path
    ensures PassLeaves(w, after, [r] + pending, run)
  {
    hide OthersStay, CallLeaves;
    var out := run(|w.log|, r);
    var mid, all := Ran(w, r, out), [r] + pending;
    var c := CallsOf(mid, after);
    assert |mid.log| == |w.log| + 1;
    assert all[..c + 1] == [r] + pending[..c];
    OthersStayThen(w, mid, after, r, pending[..c]);
    FirstCallLeaves(w, after, r, pending[..c], out);
    forall k | 0 < k < c + 1 ensures CallLeaves(w, after, |w.log| + k, all[k], run(|w.log| + k, all[k])) {
      assert all[k] == pending[k - 1];
      assert CallLeaves(mid, after, |mid.log| + (k - 1), pending[k - 1], run(|mid.log| + (k - 1), pending[k - 1]));
      assert |mid.log| + (k - 1) == |w.log| + k;
      LaterCallLeaves(w, after, r, out, |w.log| + k, all[k], run(|w.log| + k, all[k]));
    }
  }

  lemma LeavesNothing(w: World, pending: seq<Request>, run: Oracle)
    ensures PassLeaves(w, w, pending, run)
  {
  }

  /** A pass leaves exactly what its calls leave: nothing of a request it did not call is touched. */
  lemma {:induction false} PassLeavesCalls(w: World, rest: seq<Request>, taken: nat, o: Options, run: Oracle)
    requires DistinctPaths(rest) && DistinctIds(rest)
    ensures PassLeaves(w, PassFrom(w, rest, taken, o, run).world, Pending(w.receipts, rest), run)
    ensures AtLimit(o, taken) || !o.execute ==> PassFrom(w, rest, taken, o, run).world == w
    decreases |rest|
  {
    hide PassLeaves, Done, Ran;
    var after, pending := PassFrom(w, rest, taken, o, run).world, Pending(w.receipts, rest);
    if rest == [] || RowFault(rest[0]).Some? {
      LeavesNothing(w, pending, run);
      return;
    }
    var r, tail := rest[0], rest[1..];
    TailDistinct(rest);
    TailOfDistinctIds(rest);
    var more := Pending(w.receipts, tail);
    if Done(w.receipts, r) {
      PassLeavesCalls(w, tail, taken, o, run);
      assert pending == more;
    } else if AtLimit(o, taken) || !o.execute {
      PassLeavesCalls(w, tail, taken, o, run);
      PassLeavesCalls(w, tail, taken + 1, o, run);
      LeavesNothing(w, pending, run);
    } else {
      var mid := Ran(w, r, run(|w.log|, r));
      PendingIgnoresOthers(w, r, run(|w.log|, r), tail);
      PassLeavesCalls(mid, tail, taken + 1, o, run);
      LeavesNothing(mid, more, run);
      PendingApart(w.receipts, tail, r);
      LeavesOneMore(w, after, r, more, run);
    }
  }

  lemma TailOfDistinctIds(rs: seq<Request>)
    requires DistinctIds(rs) && rs != []
    ensures DistinctIds(rs[1..]) && forall i :: 0 <= i < |rs[1..]| ==> rs[1..][i].id != rs[0].id
  {
    forall i | 0 <= i < |rs[1..]| ensures rs[1..][i] == rs[i + 1] {
    }
  }

  lemma {:induction false} PendingApart(receipts: map<string, Receipt>, rest: seq<Request>, r: Request)
    requires Apart(r, rest) && forall i :: 0 <= i < |rest| ==> rest[i].id != r.id
    ensures forall k :: 0 <= k < |Pending(receipts, rest)| ==>
              Pending(receipts, rest)[k].id != r.id && Pending(receipts, rest)[k].path != r.path
  {
    hide Done;
    if rest != [] {
      forall i | 0 <= i < |rest[1..]| ensures rest[1..][i] == rest[i + 1] {
      }
      PendingApart(receipts, rest[1..], r);
    }
  }

  // ----- the summary -----

  datatype Summary = Summary(requests: int, validations: int, dispatches: int, providerCalls: int)

  const NOTHING := Summary(0, 0, 0, 0)

  predicate IsDispatch(s: ItemStatus) { s.DispatchedSucceeded? || s.DispatchedFailed? }

  function CountOf(item: Item): Summary {
    Summary(1, if item.status.Validated? then 1 else 0, if IsDispatch(item.status) then 1 else 0, item.attempts)
  }

  function Plus(a: Summary, b: Summary): Summary {
    Summary(a.requests + b.requests, a.validations + b.validations, a.dispatches + b.dispatches,
        a.providerCalls + b.providerCalls)
  }

  function SummaryOf(items: seq<Item>): Summary {
    if items == [] then NOTHING else Plus(CountOf(items[0]), SummaryOf(items[1..]))
  }

  lemma SummaryCons(item: Item, more: seq<Item>)
    ensures SummaryOf([item] + more) == Plus(CountOf(item), SummaryOf(more))
  {
    assert ([item] + more)[1..] == more;
  }

  lemma {:induction false} SummarySnoc(items: seq<Item>, item: Item)
    ensures SummaryOf(items + [item]) == Plus(SummaryOf(items), CountOf(item))
  {
    hide CountOf;
    if items == [] {
      SummaryCons(item, []);
      assert [item] + [] == [item] && items + [item] == [item];
    } else {
      SummarySnoc(items[1..], item);
      assert (items + [item])[1..] == items[1..] + [item];
    }
  }

  /** What a pass over `size` rows, n of them pending and q taken, reports. */
  predicate Reports(w: World, p: Pass, size: int, n: int, q: int, execute: bool) {
    && p.result.Ok?
    && CallsOf(w, p.world) == (if execute then q else 0)
    && SummaryOf(p.result.value) == if execute then Summary(size - n + q, 0, q, q) else Summary(size - n + q, q, 0, 0)
  }

  /** What one item adds to the summary, when it was taken and when not. */
  function Share(execute: bool, took: bool): Summary {
    if !took then Summary(1, 0, 0, 0) else if execute then Summary(1, 0, 1, 1) else Summary(1, 1, 0, 0)
  }

  lemma ReportsOneMore(w: World, mid: World, item: Item, rest: Pass, size: int, n: int, q: int, execute: bool,
        took: bool)
    requires Reports(mid, rest, size, n, q, execute)
    requires CountOf(item) == Share(execute, took) && CallsOf(w, mid) == (if took && execute then 1 else 0)
    ensures var one := if took then 1 else 0; Reports(w, Prepend([item], rest), size + 1, n + one, q + one, execute)
  {
    hide CountOf, SummaryOf;
    SummaryCons(item, rest.result.value);
  }

  /**
   A pass without a fault takes as many pending requests as there is room for. Its summary has one request per
   finished or taken row; when executing, dispatches and provider calls are both the calls the pass made and nothing
   was merely validated; when validating, it is the other way round.
   */
  lemma {:induction false} SummaryAddsUp(w: World, rest: seq<Request>, taken: nat, o: Options, run: Oracle)
    requires DistinctPaths(rest) && PassFrom(w, rest, taken, o, run).result.Ok?
    ensures var n := |Pending(w.receipts, rest)|;
            Reports(w, PassFrom(w, rest, taken, o, run), |rest|, n, Room(o, taken, n), o.execute)
    decreases |rest|
  {
    hide Reports;
    if rest == [] {
      NothingReported(w, o.execute);
      return;
    }
    TailDistinct(rest);
    var r, tail := rest[0], rest[1..];
    var n := |Pending(w.receipts, tail)|;
    if Done(w.receipts, r) {
      SummaryAddsUp(w, tail, taken, o, run);
      ReportsOneMore(w, w, AlreadyItem(r), PassFrom(w, tail, taken, o, run), |tail|, n, Room(o, taken, n), o.execute,
          false);
    } else if AtLimit(o, taken) {
      SummaryAddsUp(w, tail, taken, o, run);
      ReportsSkipped(w, PassFrom(w, tail, taken, o, run), |tail|, n, 0, o.execute);
    } else if !o.execute {
      SummaryAddsUp(w, tail, taken + 1, o, run);
      ReportsOneMore(w, w, ValidatedItem(r), PassFrom(w, tail, taken + 1, o, run), |tail|, n, Room(o, taken + 1, n),
          o.execute, true);
    } else {
      var out := run(|w.log|, r);
      var mid := Ran(w, r, out);
      PendingIgnoresOthers(w, r, out, tail);
      SummaryAddsUp(mid, tail, taken + 1, o, run);
      ReportsOneMore(w, mid, RanItem(r, out.code), PassFrom(mid, tail, taken + 1, o, run), |tail|, n,
          Room(o, taken + 1, n), o.execute, true);
    }
  }

  /** The items of the requests that were run. */
  function Dispatched(items: seq<Item>): seq<Item> {
    if items == [] then []
    else (if IsDispatch(items[0].status) then [items[0]] else []) + Dispatched(items[1..])
  }

  lemma DispatchedCons(item: Item, more: seq<Item>)
    ensures Dispatched([item] + more) == (if IsDispatch(item.status) then [item] else []) + Dispatched(more)
  {
    assert ([item] + more)[1..] == more;
  }

  /** The item tells how the request's one process ended, and its runtime key is kept exactly when it failed. */
  predicate Tells(item: Item, r: Request, code: int) {
    && item.id == r.id && item.code == Some(code) && item.attempts == 1
    && (item.status.DispatchedSucceeded? <==> code == 0) && (item.status.DispatchedFailed? <==> code != 0)
    && (item.keyRetained <==> code != 0)
  }

  /** Item by item, what a pass without a fault says about the pending requests it ran, in order of their calls. */
  ghost predicate TellsAll(items: seq<Item>, pending: seq<Request>, run: Oracle, calls: nat) {
    && |Dispatched(items)| <= |pending|
    && forall k :: 0 <= k < |Dispatched(items)| ==>
         Tells(Dispatched(items)[k], pending[k], run(calls + k, pending[k]).code)
  }

  lemma TellsOneMore(item: Item, more: seq<Item>, r: Request, pending: seq<Request>, run: Oracle, calls: nat)
    requires Tells(item, r, run(calls, r).code) && TellsAll(more, pending, run, calls + 1)
    ensures TellsAll([item] + more, [r] + pending, run, calls)
  {
    hide Dispatched;
    DispatchedCons(item, more);
    var all, items := [r] + pending, Dispatched([item] + more);
    assert items == [item] + Dispatched(more);
    forall k | 0 <= k < |items| ensures Tells(items[k], all[k], run(calls + k, all[k]).code) {
      if k > 0 {
        assert items[k] == Dispatched(more)[k - 1] && all[k] == pending[k - 1];
        assert calls + 1 + (k - 1) == calls + k;
      }
    }
  }

  lemma TellsNothing(items: seq<Item>, pending: seq<Request>, run: Oracle, calls: nat)
    requires Dispatched(items) == []
    ensures TellsAll(items, pending, run, calls)
  {
  }

  /** Every request a faultless pass ran has an item that says succeeded exactly when its process returned 0. */
  lemma {:induction false} ItemsTell(w: World, rest: seq<Request>, taken: nat, o: Options, run: Oracle)
    requires DistinctPaths(rest) && PassFrom(w, rest, taken, o, run).result.Ok?
    ensures TellsAll(PassFrom(w, rest, taken, o, run).result.value, Pending(w.receipts, rest), run, |w.log|)
    ensures (o.limit.Some? && taken >= o.limit.value) || !o.execute ==>
        Dispatched(PassFrom(w, rest, taken, o, run).result.value) == []
    decreases |rest|
  {
    hide TellsAll, Done, Dispatched, Tells;
    if rest == [] {
      NoneDispatched();
      TellsNothing([], [], run, |w.log|);
      return;
    }
    TailDistinct(rest);
    var r, tail := rest[0], rest[1..];
    if Done(w.receipts, r) {
      ItemsTell(w, tail, taken, o, run);
      SkipsUndispatched(AlreadyItem(r), PassFrom(w, tail, taken, o, run).result.value,
                        Pending(w.receipts, tail), run, |w.log|);
      assert Pending(w.receipts, rest) == Pending(w.receipts, tail);
    } else if AtLimit(o, taken) {
      ItemsTell(w, tail, taken, o, run);
      TellsNothing(PassFrom(w, tail, taken, o, run).result.value, Pending(w.receipts, rest), run, |w.log|);
    } else if !o.execute {
      ItemsTell(w, tail, taken + 1, o, run);
      var more := PassFrom(w, tail, taken + 1, o, run).result.value;
      SkipsUndispatched(ValidatedItem(r), more, Pending(w.receipts, tail), run, |w.log|);
      TellsNothing([ValidatedItem(r)] + more, Pending(w.receipts, rest), run, |w.log|);
    } else {
      var out := run(|w.log|, r);
      var mid := Ran(w, r, out);
      PendingIgnoresOthers(w, r, out, tail);
      ItemsTell(mid, tail, taken + 1, o, run);
      RanItemTells(r, out.code);
      TellsOneMore(RanItem(r, out.code), PassFrom(mid, tail, taken + 1, o, run).result.value, r,
                   Pending(w.receipts, tail), run, |w.log|);
    }
  }

  /** What an item says of a row that was not run: it had succeeded before, or it was only validated. */
  ghost predicate TellsIdle(item: Item, w: World, rest: seq<Request>, o: Options) {
    && item.attempts == 0 && !item.keyRetained
    && exists r :: r in rest && item.id == r.id
         && if item.status.AlreadySucceeded? then Done(w.receipts, r) && item.code == Some(0)
            else item.status.Validated? && !Done(w.receipts, r) && !o.execute && item.code == None
  }

  lemma {:induction false} IdleItemsTell(w: World, rest: seq<Request>, taken: nat, o: Options, run: Oracle)
    requires DistinctPaths(rest) && PassFrom(w, rest, taken, o, run).result.Ok?
    ensures forall item :: item in PassFrom(w, rest, taken, o, run).result.value && !IsDispatch(item.status)
              ==> TellsIdle(item, w, rest, o)
    decreases |rest|
  {
    hide Done;
    if rest != [] {
      TailDistinct(rest);
      var r, tail := rest[0], rest[1..];
      var items := PassFrom(w, rest, taken, o, run).result.value;
      assert rest == [r] + tail;
      if Done(w.receipts, r) || AtLimit(o, taken) {
        IdleItemsTell(w, tail, taken, o, run);
      } else if !o.execute {
        IdleItemsTell(w, tail, taken + 1, o, run);
      } else {
        var mid := Ran(w, r, run(|w.log|, r));
        IdleItemsTell(mid, tail, taken + 1, o, run);
        forall item | item in PassFrom(mid, tail, taken + 1, o, run).result.value && !IsDispatch(item.status)
          ensures TellsIdle(item, w, tail, o)
        {
          StillIdle(item, w, mid, r, run(|w.log|, r), tail, o);
        }
      }
      forall item | TellsIdle(item, w, tail, o) ensures TellsIdle(item, w, rest, o) {
      }
    }
  }

  lemma StillIdle(item: Item, w: World, mid: World, r: Request, out: Outcome, tail: seq<Request>, o: Options)
    requires mid == Ran(w, r, out) && Apart(r, tail) && TellsIdle(item, mid, tail, o)
    ensures TellsIdle(item, w, tail, o)
  {
    forall x | x in tail ensures At(mid.receipts, x.path) == At(w.receipts, x.path) {
      var i :| 0 <= i < |tail| && tail[i] == x;
    }
  }

  lemma NoneDispatched()
    ensures Dispatched([]) == []
  {
  }

  lemma RanItemTells(r: Request, code: int)
    ensures Tells(RanItem(r, code), r, code)
  {
  }

  lemma SkipsUndispatched(item: Item, more: seq<Item>, pending: seq<Request>, run: Oracle, calls: nat)
    requires !IsDispatch(item.status) && TellsAll(more, pending, run, calls)
    ensures TellsAll([item] + more, pending, run, calls)
    ensures Dispatched([item] + more) == Dispatched(more)
  {
    DispatchedCons(item, more);
  }

  lemma NothingReported(w: World, execute: bool)
    ensures Reports(w, Pass(w, Ok([])), 0, 0, 0, execute)
  {
  }

  lemma ReportsSkipped(w: World, p: Pass, size: int, n: int, q: int, execute: bool)
    requires Reports(w, p, size, n, q, execute)
    ensures Reports(w, p, size + 1, n + 1, q, execute)
  {
  }

  method Summarize(items: seq<Item>) returns (s: Summary)
    ensures s == SummaryOf(items)
  {
    var validations, dispatches, calls := 0, 0, 0;
    for i := 0 to |items|
      invariant SummaryOf(items[..i]) == Summary(i, validations, dispatches, calls)
    {
      assert items[..i + 1] == items[..i] + [items[i]];
      SummarySnoc(items[..i], items[i]);
      if items[i].status.Validated? {
        validations := validations + 1;
      }
      if IsDispatch(items[i].status) {
        dispatches := dispatches + 1;
      }
      calls := calls + items[i].attempts;
    }
    assert items[..|items|] == items;
    s := Summary(|items|, validations, dispatches, calls);
  }

  // ----- draining -----

  /** Every run succeeds and leaves a receipt that names it. */
  ghost predicate Reliable(run: Oracle) { forall n: nat, r: Request :: ReliableFor(run(n, r), r) }

  predicate ReliableFor(out: Outcome, r: Request) {
    && out.code == 0 && out.receipt.Some? && out.receipt.value.Runs?
    && RunRow(RunId(r.id, out.stamp), "succeeded") in out.receipt.value.rows
  }

  predicate Sound(rs: seq<Request>) { forall i :: 0 <= i < |rs| ==> RowFault(rs[i]).None? }

  lemma {:induction false} PassTouchesOwnPaths(w: World, rest: seq<Request>, taken: nat, o: Options, run: Oracle,
        r: Request)
    requires Apart(r, rest)
    ensures At(PassFrom(w, rest, taken, o, run).world.receipts, r.path) == At(w.receipts, r.path)
    decreases |rest|
  {
    if rest != [] {
      assert Apart(r, rest[1..]) by {
        forall i | 0 <= i < |rest[1..]| ensures rest[1..][i].path != r.path {
          assert rest[1..][i] == rest[i + 1];
        }
      }
      PassTouchesOwnPaths(w, rest[1..], taken, o, run, r);
      PassTouchesOwnPaths(w, rest[1..], taken + 1, o, run, r);
      PassTouchesOwnPaths(Ran(w, rest[0], run(|w.log|, rest[0])), rest[1..], taken + 1, o, run, r);
    }
  }

  lemma TailSound(rs: seq<Request>)
    requires rs != [] && Sound(rs)
    ensures RowFault(rs[0]).None? && Sound(rs[1..])
  {
  }

  lemma ReliableRunFinishes(w: World, r: Request, out: Outcome)
    requires ReliableFor(out, r)
    ensures out.code == 0 && Done(Ran(w, r, out).receipts, r)
  {
    OwnRunCredits(r.id, out.stamp, out.receipt.value.rows);
  }

  /** A reliable pass takes the first pending requests, as many as there is room for, off the pending list. */
  lemma {:induction false} PassShortensPending(w: World, rest: seq<Request>, taken: nat, o: Options, run: Oracle)
    requires DistinctPaths(rest) && Sound(rest) && o.execute && Reliable(run)
    ensures var p, pending := PassFrom(w, rest, taken, o, run), Pending(w.receipts, rest);
            p.result.Ok? && Pending(p.world.receipts, rest) == pending[Room(o, taken, |pending|)..]
    decreases |rest|
  {
    hide Ran, Credited, Apart, DistinctPaths, ReliableFor;
    if rest != [] {
      TailDistinct(rest);
      TailSound(rest);
      var r, tail := rest[0], rest[1..];
      var after := PassFrom(w, rest, taken, o, run).world;
      if Done(w.receipts, r) || AtLimit(o, taken) {
        PassTouchesOwnPaths(w, tail, taken, o, run, r);
        PassShortensPending(w, tail, taken, o, run);
      } else {
        var out := run(|w.log|, r);
        assert ReliableFor(out, r);
        var mid := Ran(w, r, out);
        PassTouchesOwnPaths(mid, tail, taken + 1, o, run, r);
        ReliableRunFinishes(w, r, out);
        PendingIgnoresOthers(w, r, out, tail);
        PassShortensPending(mid, tail, taken + 1, o, run);
      }
    }
  }

  /** The world after m passes over the same plan. */
  function Passes(w: World, plan: seq<Request>, o: Options, run: Oracle, m: nat): World {
    if m == 0 then w else PassFrom(Passes(w, plan, o, run, m - 1), plan, 0, o, run).world
  }

  function Least(a: nat, b: nat): nat { if a < b then a else b }

  /** after has called exactly the first c of the pending requests, and they are off the pending list. */
  ghost predicate Drained(w: World, after: World, plan: seq<Request>, pending: seq<Request>, c: nat) {
    && c <= |pending|
    && Called(after.log) == Called(w.log) + IdsOf(pending[..c])
    && Pending(after.receipts, plan) == pending[c..]
  }

  lemma DrainOnce(w: World, plan: seq<Request>, o: Options, run: Oracle)
    requires DistinctPaths(plan) && Sound(plan) && o.execute && Reliable(run)
    ensures var pending := Pending(w.receipts, plan);
            Drained(w, PassFrom(w, plan, 0, o, run).world, plan, pending, Room(o, 0, |pending|))
  {
    PassShortensPending(w, plan, 0, o, run);
    PassCallsPrefix(w, plan, 0, o, run);
    SummaryAddsUp(w, plan, 0, o, run);
  }

  lemma DrainedTwice(w: World, mid: World, after: World, plan: seq<Request>, pending: seq<Request>, c: nat, d: nat)
    requires Drained(w, mid, plan, pending, c) && Drained(mid, after, plan, pending[c..], d)
    ensures Drained(w, after, plan, pending, c + d)
  {
    TakeTwice(pending, c, d);
    assert Called(w.log) + IdsOf(pending[..c]) + IdsOf(pending[c..][..d])
           == Called(w.log) + (IdsOf(pending[..c]) + IdsOf(pending[c..][..d]));
  }

  lemma TakeTwice(rs: seq<Request>, c: nat, d: nat)
    requires c + d <= |rs|
    ensures IdsOf(rs[..c + d]) == IdsOf(rs[..c]) + IdsOf(rs[c..][..d])
    ensures rs[c..][d..] == rs[c + d..]
  {
    assert rs[..c + d] == rs[..c] + rs[c..][..d];
  }

  /**
   With limit k and reliable runs, m passes have called exactly the first min(m*k, n) pending requests, in planned
   order.
   */
  lemma {:induction false} DrainSchedule(w: World, plan: seq<Request>, o: Options, run: Oracle, m: nat)
    requires DistinctPaths(plan) && Sound(plan) && o.execute && Reliable(run)
    requires o.limit.Some? && o.limit.value > 0
    ensures var pending := Pending(w.receipts, plan);
            Drained(w, Passes(w, plan, o, run, m), plan, pending, Least(m * o.limit.value, |pending|))
  {
    hide Drained, Pending, PassFrom, Reliable, DistinctPaths, Sound;
    var k := o.limit.value;
    var pending := Pending(w.receipts, plan);
    if m == 0 {
      DrainedNone(w, plan);
    } else {
      DrainSchedule(w, plan, o, run, m - 1);
      var mid := Passes(w, plan, o, run, m - 1);
      var c := Least((m - 1) * k, |pending|);
      var d := Room(o, 0, |pending| - c);
      DrainOnce(mid, plan, o, run);
      DrainedLeaves(w, mid, plan, pending, c);
      DrainedTwice(w, mid, Passes(w, plan, o, run, m), plan, pending, c, d);
      OneMorePass(m, k, |pending|);
    }
  }

  lemma DrainedNone(w: World, plan: seq<Request>)
    ensures Drained(w, w, plan, Pending(w.receipts, plan), 0)
  {
    var pending := Pending(w.receipts, plan);
    assert Called(w.log) + IdsOf(pending[..0]) == Called(w.log);
  }

  lemma DrainedLeaves(w: World, after: World, plan: seq<Request>, pending: seq<Request>, c: nat)
    requires Drained(w, after, plan, pending, c)
    ensures c <= |pending| && Pending(after.receipts, plan) == pending[c..]
  {
  }

  lemma OneMorePass(m: nat, k: nat, n: nat)
    requires m > 0 && k > 0
    ensures var c := Least((m - 1) * k, n); c + Least(k, n - c) == Least(m * k, n)
  {
    assert m * k == (m - 1) * k + k;
  }

  lemma CeilingReached(m: nat, k: nat, n: nat)
    requires k > 0
    ensures m * k >= n <==> m >= (n + k - 1) / k
  {
    var q := (n + k - 1) / k;
    assert q * k <= n + k - 1 < q * k + k;
    if m >= q {
      assert m * k >= q * k by { Scale(q, m, k); }
    } else {
      assert (m + 1) * k <= q * k by { Scale(m + 1, q, k); }
    }
  }

  lemma {:induction false} Scale(a: nat, b: nat, k: nat)
    requires a <= b
    ensures a * k <= b * k
  {
    if a < b {
      Scale(a, b - 1, k);
    }
  }

  /**
   The plan is drained after ceil(n/k) passes and no earlier; from then on a pass makes no call and changes nothing.
   */
  lemma DrainFinishesExactly(w: World, plan: seq<Request>, o: Options, run: Oracle, m: nat)
    requires DistinctPaths(plan) && Sound(plan) && o.execute && Reliable(run)
    requires o.limit.Some? && o.limit.value > 0
    ensures var n := |Pending(w.receipts, plan)|;
            Pending(Passes(w, plan, o, run, m).receipts, plan) == [] <==> m >= (n + o.limit.value - 1) / o.limit.value
    ensures Pending(Passes(w, plan, o, run, m).receipts, plan) == []
        ==> Passes(w, plan, o, run, m + 1) == Passes(w, plan, o, run, m)
  {
    DrainSchedule(w, plan, o, run, m);
    CeilingReached(m, o.limit.value, |Pending(w.receipts, plan)|);
    var after := Passes(w, plan, o, run, m);
    if Pending(after.receipts, plan) == [] {
      IdlePass(after, plan, 0, o, run);
    }
  }

  lemma {:induction false} IdlePass(w: World, rest: seq<Request>, taken: nat, o: Options, run: Oracle)
    requires Pending(w.receipts, rest) == []
    ensures PassFrom(w, rest, taken, o, run).world == w
    decreases |rest|
  {
    if rest != [] {
      IdlePass(w, rest[1..], taken, o, run);
    }
  }

  lemma {:induction false} PendingIsPlanned(receipts: map<string, Receipt>, rest: seq<Request>)
    requires DistinctIds(rest)
    ensures DistinctIds(Pending(receipts, rest))
    ensures forall r :: r in Pending(receipts, rest) ==> r in rest && !Done(receipts, r)
  {
    if rest != [] {
      forall i | 0 <= i < |rest[1..]| ensures rest[1..][i] == rest[i + 1] {
      }
      PendingIsPlanned(receipts, rest[1..]);
      forall r | r in Pending(receipts, rest[1..]) ensures r.id != rest[0].id {
        var i :| 0 <= i < |rest[1..]| && rest[1..][i] == r;
        assert rest[i + 1] == r;
      }
    }
  }

  /** No request is called twice while the plan is drained, however many passes are made. */
  lemma NoneCalledTwice(w: World, plan: seq<Request>, o: Options, run: Oracle, m: nat)
    requires DistinctPaths(plan) && DistinctIds(plan) && Sound(plan) && o.execute && Reliable(run)
    requires o.limit.Some? && o.limit.value > 0
    ensures var ids := Called(Passes(w, plan, o, run, m).log);
            |w.log| <= |ids| && forall i, j :: |w.log| <= i < j < |ids| ==> ids[i] != ids[j]
  {
    DrainSchedule(w, plan, o, run, m);
    PendingIsPlanned(w.receipts, plan);
    var pending := Pending(w.receipts, plan);
    var ids := Called(Passes(w, plan, o, run, m).log);
    forall i, j | |w.log| <= i < j < |ids| ensures ids[i] != ids[j] {
      assert ids[i] == pending[i - |w.log|].id && ids[j] == pending[j - |w.log|].id;
    }
  }

  // ----- failing requests under a limit -----

  /** r never gets done: no run of it, whatever its exit code, leaves a receipt that credits it. */
  ghost predicate Hopeless(run: Oracle, r: Request) { forall n: nat :: HopelessRun(run(n, r), r) }

  predicate HopelessRun(out: Outcome, r: Request) { out.receipt.Some? ==> !Credited(out.receipt, r.id) }

  lemma HopelessStays(w: World, r: Request, out: Outcome)
    requires HopelessRun(out, r) && !Done(w.receipts, r)
    ensures !Done(Ran(w, r, out).receipts, r)
  {
  }

  /** A pass whose room is filled by hopeless requests leaves the pending list as it was. */
  lemma {:induction false} HopelessPass(w: World, rest: seq<Request>, taken: nat, o: Options, run: Oracle)
    requires DistinctPaths(rest) && o.execute
    requires forall r :: r in Pending(w.receipts, rest)[..Room(o, taken, |Pending(w.receipts, rest)|)]
              ==> Hopeless(run, r)
    ensures Pending(PassFrom(w, rest, taken, o, run).world.receipts, rest) == Pending(w.receipts, rest)
    decreases |rest|
  {
    if rest != [] && RowFault(rest[0]).None? {
      TailDistinct(rest);
      var r, tail := rest[0], rest[1..];
      var pending, more := Pending(w.receipts, rest), Pending(w.receipts, tail);
      if Done(w.receipts, r) {
        PassTouchesOwnPaths(w, tail, taken, o, run, r);
        assert pending == more;
        HopelessPass(w, tail, taken, o, run);
      } else if AtLimit(o, taken) {
        PassTouchesOwnPaths(w, tail, taken, o, run, r);
        assert Room(o, taken, |more|) == 0 && more[..0] == [];
        HopelessPass(w, tail, taken, o, run);
      } else {
        var out := run(|w.log|, r);
        var mid := Ran(w, r, out);
        var c := Room(o, taken + 1, |more|);
        assert pending[..Room(o, taken, |pending|)] == [r] + more[..c];
        assert Hopeless(run, r) && HopelessRun(out, r);
        PendingIgnoresOthers(w, r, out, tail);
        HopelessStays(w, r, out);
        if out.code == 0 || o.continueOnError {
          PassTouchesOwnPaths(mid, tail, taken + 1, o, run, r);
          HopelessPass(mid, tail, taken + 1, o, run);
        }
      }
    }
  }

  /**
   Head-of-line blocking: with limit k, when the first k pending requests never get done, no number of passes, in
   either mode, calls any other request, so the rest of the plan is never drained.
   */
  lemma {:induction false} HopelessHeadStarvesRest(w: World, plan: seq<Request>, o: Options, run: Oracle, m: nat)
    requires DistinctPaths(plan) && o.execute
    requires forall r :: r in Pending(w.receipts, plan)[..Room(o, 0, |Pending(w.receipts, plan)|)] ==> Hopeless(run, r)
    ensures var after, pending := Passes(w, plan, o, run, m), Pending(w.receipts, plan);
            && Pending(after.receipts, plan) == pending && |w.log| <= |after.log|
            && forall i :: |w.log| <= i < |after.log| ==>
                 Called(after.log)[i] in IdsOf(pending[..Room(o, 0, |pending|)])
  {
    if m > 0 {
      HopelessHeadStarvesRest(w, plan, o, run, m - 1);
      var mid, after := Passes(w, plan, o, run, m - 1), Passes(w, plan, o, run, m);
      var pending := Pending(w.receipts, plan);
      HopelessPass(mid, plan, 0, o, run);
      PassCallsPrefix(mid, plan, 0, o, run);
      var c := CallsOf(mid, after);
      var head := IdsOf(pending[..Room(o, 0, |pending|)]);
      forall i | |w.log| <= i < |after.log| ensures Called(after.log)[i] in head {
        if i < |mid.log| {
          assert Called(after.log)[i] == Called(mid.log)[i];
        } else {
          assert Called(after.log)[i] == IdsOf(pending[..c])[i - |mid.log|] == head[i - |mid.log|];
        }
      }
    }
  }

  // ----- plans with requests of every kind -----

  /** Every run of r succeeds and leaves a receipt that names it. */
  ghost predicate Dependable(run: Oracle, r: Request) { forall n: nat :: ReliableFor(run(n, r), r) }

  /** r never gets done and every run of it fails. */
  ghost predicate Failing(run: Oracle, r: Request) { Hopeless(run, r) && forall n: nat :: run(n, r).code != 0 }

  /** r never gets done although every run of it exits with zero. */
  ghost predicate Silent(run: Oracle, r: Request) { Hopeless(run, r) && forall n: nat :: run(n, r).code == 0 }

  /**
   Each request always gets done or never does; in the mode that stops at an error, one that never does also always
   fails or never fails.
   */
  ghost predicate Sorts(o: Options, run: Oracle, rs: seq<Request>) {
    forall r :: r in rs ==> SortedRequest(o, run, r)
  }

  ghost predicate SortedRequest(o: Options, run: Oracle, r: Request) {
    Dependable(run, r) || if o.continueOnError then Hopeless(run, r) else Failing(run, r) || Silent(run, r)
  }

  /** The request ends the pass that runs it. */
  ghost predicate Stops(o: Options, run: Oracle, r: Request) { !o.continueOnError && Failing(run, r) }

  ghost predicate SomeStops(o: Options, run: Oracle, rs: seq<Request>) { exists r :: r in rs && Stops(o, run, r) }

  /** How many of the pending requests a pass with room for q runs: up to and including the first that stops it. */
  ghost function Calls(o: Options, run: Oracle, pending: seq<Request>, q: nat): (c: nat)
    ensures c <= q && c <= |pending|
  {
    if q == 0 || pending == [] then 0
    else if Stops(o, run, pending[0]) then 1
    else 1 + Calls(o, run, pending[1..], q - 1)
  }

  ghost function HopelessOf(run: Oracle, rs: seq<Request>): seq<Request> {
    if rs == [] then [] else (if Hopeless(run, rs[0]) then [rs[0]] else []) + HopelessOf(run, rs[1..])
  }

  lemma HopelessOfCons(run: Oracle, r: Request, more: seq<Request>)
    ensures HopelessOf(run, [r] + more) == (if Hopeless(run, r) then [r] else []) + HopelessOf(run, more)
  {
    hide Hopeless;
    assert ([r] + more)[1..] == more;
  }

  lemma JoinThree(a: seq<Request>, b: seq<Request>, c: seq<Request>)
    ensures a + (b + c) == a + b + c
  {
  }

  lemma {:induction false} HopelessOfSplits(run: Oracle, a: seq<Request>, b: seq<Request>)
    ensures HopelessOf(run, a + b) == HopelessOf(run, a) + HopelessOf(run, b)
  {
    hide Hopeless;
    if a == [] {
      assert a + b == b;
    } else {
      HopelessOfSplits(run, a[1..], b);
      assert a + b == [a[0]] + (a[1..] + b);
      HopelessOfCons(run, a[0], a[1..] + b);
      JoinThree(if Hopeless(run, a[0]) then [a[0]] else [], HopelessOf(run, a[1..]), HopelessOf(run, b));
    }
  }

  lemma {:induction false} HopelessOfTwice(run: Oracle, rs: seq<Request>)
    ensures HopelessOf(run, HopelessOf(run, rs)) == HopelessOf(run, rs) && |HopelessOf(run, rs)| <= |rs|
  {
    hide Hopeless;
    if rs != [] {
      HopelessOfTwice(run, rs[1..]);
      var more := HopelessOf(run, rs[1..]);
      if Hopeless(run, rs[0]) {
        assert ([rs[0]] + more)[1..] == more;
      } else {
        assert HopelessOf(run, rs) == more;
      }
    }
  }

  /** What stays pending when the first q requests are run once each. */
  ghost function Rest(run: Oracle, pending: seq<Request>, q: nat): seq<Request>
    requires q <= |pending|
  {
    HopelessOf(run, pending[..q]) + pending[q..]
  }

  lemma RestCons(run: Oracle, r: Request, more: seq<Request>, q: nat)
    requires q <= |more|
    ensures Rest(run, [r] + more, q + 1) == (if Hopeless(run, r) then [r] else []) + Rest(run, more, q)
  {
    hide Hopeless;
    assert ([r] + more)[..q + 1] == [r] + more[..q];
    assert ([r] + more)[q + 1..] == more[q..];
    assert ([r] + more[..q])[1..] == more[..q];
  }

  lemma RestNone(run: Oracle, pending: seq<Request>)
    ensures Rest(run, pending, 0) == pending
  {
    assert pending[..0] == [] && pending[0..] == pending;
  }

  /** After one run a request is still pending exactly when it is hopeless, and it stops the pass as it should. */
  lemma RunLeaves(w: World, r: Request, out: Outcome, o: Options, run: Oracle, n: nat)
    requires !Done(w.receipts, r) && out == run(n, r) && SortedRequest(o, run, r)
    ensures Done(Ran(w, r, out).receipts, r) <==> !Hopeless(run, r)
    ensures out.code != 0 && !o.continueOnError <==> Stops(o, run, r)
    ensures Stops(o, run, r) ==> Hopeless(run, r)
  {
    if Dependable(run, r) {
      assert ReliableFor(out, r);
      ReliableRunFinishes(w, r, out);
      if Hopeless(run, r) {
        assert HopelessRun(out, r);
        HopelessStays(w, r, out);
      }
    } else {
      assert Hopeless(run, r) && HopelessRun(out, r);
      HopelessStays(w, r, out);
    }
  }

  lemma CallsCons(o: Options, run: Oracle, r: Request, more: seq<Request>, q: nat)
    ensures Calls(o, run, [r] + more, q + 1) == if Stops(o, run, r) then 1 else 1 + Calls(o, run, more, q)
  {
    hide Stops;
    assert ([r] + more)[1..] == more;
  }

  lemma RestOne(run: Oracle, r: Request, more: seq<Request>)
    requires Hopeless(run, r)
    ensures Rest(run, [r] + more, 1) == [r] + more
  {
    hide Hopeless;
    RestCons(run, r, more, 0);
    RestNone(run, more);
  }

  /** A pass calls as many pending requests as it should, and takes the dependable ones among them off the list. */
  lemma {:induction false} MixedPass(w: World, rest: seq<Request>, taken: nat, o: Options, run: Oracle)
    requires DistinctPaths(rest) && Sound(rest) && o.execute && Sorts(o, run, rest)
    ensures var after, pending := PassFrom(w, rest, taken, o, run).world, Pending(w.receipts, rest);
            var c := Calls(o, run, pending, Room(o, taken, |pending|));
            CallsOf(w, after) == c && Pending(after.receipts, rest) == Rest(run, pending, c)
    decreases |rest|
  {
    hide Ran, Credited, Apart, DistinctPaths, Hopeless, Stops, SortedRequest, Rest, Calls;
    if rest == [] {
      RestNone(run, []);
      NoCalls(o, run, [], 0);
    } else {
      TailDistinct(rest);
      TailSound(rest);
      var r, tail := rest[0], rest[1..];
      var pending, more := Pending(w.receipts, rest), Pending(w.receipts, tail);
      if Done(w.receipts, r) {
        PassTouchesOwnPaths(w, tail, taken, o, run, r);
        MixedPass(w, tail, taken, o, run);
        assert pending == more;
      } else if AtLimit(o, taken) {
        PassTouchesOwnPaths(w, tail, taken, o, run, r);
        MixedPass(w, tail, taken, o, run);
        NoCalls(o, run, more, |more|);
        NoCalls(o, run, pending, |pending|);
        RestNone(run, more);
        RestNone(run, pending);
      } else {
        MixedRun(w, rest, taken, o, run);
      }
    }
  }

  lemma NoCalls(o: Options, run: Oracle, pending: seq<Request>, q: nat)
    ensures Calls(o, run, pending, 0) == 0 && Calls(o, run, [], q) == 0
  {
  }

  lemma LogGrowsByOne(w: World, r: Request, out: Outcome)
    ensures CallsOf(w, Ran(w, r, out)) == 1
  {
  }

  lemma {:induction false} MixedRun(w: World, rest: seq<Request>, taken: nat, o: Options, run: Oracle)
    requires DistinctPaths(rest) && Sound(rest) && o.execute && Sorts(o, run, rest)
    requires rest != [] && !Done(w.receipts, rest[0]) && !AtLimit(o, taken)
    ensures var after, pending := PassFrom(w, rest, taken, o, run).world, Pending(w.receipts, rest);
            var c := Calls(o, run, pending, Room(o, taken, |pending|));
            CallsOf(w, after) == c && Pending(after.receipts, rest) == Rest(run, pending, c)
    decreases |rest|, 0
  {
    hide Ran, Credited, Apart, DistinctPaths, Hopeless, Stops, SortedRequest, Rest, Calls;
    TailDistinct(rest);
    TailSound(rest);
    var r, tail := rest[0], rest[1..];
    var more := Pending(w.receipts, tail);
    var out := run(|w.log|, r);
    var mid := Ran(w, r, out);
    assert r in rest;
    RunLeaves(w, r, out, o, run, |w.log|);
    PendingIgnoresOthers(w, r, out, tail);
    LogGrowsByOne(w, r, out);
    var q := Room(o, taken + 1, |more|);
    CallsCons(o, run, r, more, q);
    if Stops(o, run, r) {
      RestOne(run, r, more);
    } else {
      PassTouchesOwnPaths(mid, tail, taken + 1, o, run, r);
      MixedPass(mid, tail, taken + 1, o, run);
      RestCons(run, r, more, Calls(o, run, more, q));
    }
  }

  /** The calls of such a pass are exactly the first pending requests. */
  lemma MixedCalls(w: World, plan: seq<Request>, o: Options, run: Oracle)
    requires DistinctPaths(plan) && Sound(plan) && o.execute && Sorts(o, run, plan)
    ensures var pending := Pending(w.receipts, plan);
            var after, c := PassFrom(w, plan, 0, o, run).world, Calls(o, run, pending, Room(o, 0, |pending|));
            && Called(after.log) == Called(w.log) + IdsOf(pending[..c])
            && Pending(after.receipts, plan) == Rest(run, pending, c)
  {
    MixedPass(w, plan, 0, o, run);
    PassCallsPrefix(w, plan, 0, o, run);
  }

  /** Nothing ahead of place j stops the pass: it calls place j exactly when it has room for it. */
  lemma {:induction false} CallsReach(o: Options, run: Oracle, pending: seq<Request>, q: nat, j: nat)
    requires j < |pending|
    ensures SomeStops(o, run, pending[..j]) ==> Calls(o, run, pending, q) <= j
    ensures !SomeStops(o, run, pending[..j]) ==>
              (q <= j ==> Calls(o, run, pending, q) == q) && (q > j ==> Calls(o, run, pending, q) > j)
  {
    hide Stops;
    if j > 0 && q > 0 {
      assert pending[..j] == [pending[0]] + pending[1..][..j - 1];
      CallsReach(o, run, pending[1..], q - 1, j - 1);
    }
  }

  /** What stops a pass is hopeless, so it is among the hopeless requests ahead. */
  lemma {:induction false} StopsAmongHopeless(o: Options, run: Oracle, rs: seq<Request>)
    ensures SomeStops(o, run, rs) <==> SomeStops(o, run, HopelessOf(run, rs))
  {
    if rs != [] {
      StopsAmongHopeless(o, run, rs[1..]);
      hide Failing;
      assert rs == [rs[0]] + rs[1..];
      assert Stops(o, run, rs[0]) ==> Hopeless(run, rs[0]) by {
        StopsIsHopeless(o, run, rs[0]);
      }
    }
  }

  lemma StopsIsHopeless(o: Options, run: Oracle, r: Request)
    ensures Stops(o, run, r) ==> Hopeless(run, r)
  {
  }

  /** The calls made after w, in order. */
  function CallsSince(w: World, after: World): seq<string>
    requires |w.log| <= |after.log|
  {
    Called(after.log)[|w.log|..]
  }

  /** Some number of passes calls the request. */
  ghost predicate EverCalled(w: World, plan: seq<Request>, o: Options, run: Oracle, id: string) {
    exists m: nat :: |w.log| <= |Passes(w, plan, o, run, m).log| && id in CallsSince(w, Passes(w, plan, o, run, m))
  }

  lemma {:induction false} PassesShift(w: World, plan: seq<Request>, o: Options, run: Oracle, m: nat)
    ensures Passes(w, plan, o, run, m + 1) == Passes(PassFrom(w, plan, 0, o, run).world, plan, o, run, m)
  {
    if m > 0 {
      PassesShift(w, plan, o, run, m - 1);
    }
  }

  /** Where the request at place j of the pending list stands after a pass that does not take it. */
  lemma PlaceAfter(run: Oracle, pending: seq<Request>, q: nat, j: nat)
    requires q <= j < |pending|
    ensures var i := |HopelessOf(run, pending[..q])| + j - q;
            && i < |Rest(run, pending, q)| && Rest(run, pending, q)[i] == pending[j] && i <= j
            && HopelessOf(run, Rest(run, pending, q)[..i]) == HopelessOf(run, pending[..j])
    ensures |HopelessOf(run, pending[..q])| <= |HopelessOf(run, pending[..j])|
  {
    hide Hopeless;
    var kept := HopelessOf(run, pending[..q]);
    var i := |kept| + j - q;
    HopelessOfTwice(run, pending[..q]);
    assert pending[..j] == pending[..q] + pending[q..j];
    HopelessOfSplits(run, pending[..q], pending[q..j]);
    assert Rest(run, pending, q)[..i] == kept + pending[q..j];
    HopelessOfSplits(run, kept, pending[q..j]);
  }

  /** Some pass can get to a request behind these: none of them stops it, and they do not fill the limit. */
  ghost predicate LetsThrough(o: Options, run: Oracle, hopeless: seq<Request>) {
    !SomeStops(o, run, hopeless) && (o.limit.Some? ==> |hopeless| < o.limit.value)
  }

  /** The pass calls place j, or leaves its request a place of its own with the same hopeless ones ahead. */
  lemma OnePass(w: World, plan: seq<Request>, o: Options, run: Oracle, j: nat) returns (c: nat, i: nat)
    requires DistinctPaths(plan) && Sound(plan) && o.execute && Sorts(o, run, plan)
    requires (o.limit.Some? ==> o.limit.value > 0) && j < |Pending(w.receipts, plan)|
    ensures var pending, after := Pending(w.receipts, plan), PassFrom(w, plan, 0, o, run).world;
            var hopeless := HopelessOf(run, pending[..j]);
            && c <= |pending| && Called(after.log) == Called(w.log) + IdsOf(pending[..c])
            && (c <= j ==> i <= j && i < |Pending(after.receipts, plan)|
                           && Pending(after.receipts, plan)[i] == pending[j]
                           && HopelessOf(run, Pending(after.receipts, plan)[..i]) == hopeless)
            && (LetsThrough(o, run, hopeless) ==> c > j || i < j)
            && (c > j ==> LetsThrough(o, run, hopeless))
  {
    hide Hopeless, Stops, SortedRequest, DistinctPaths, Sound, HopelessOf, Rest, Pending, PassFrom;
    var pending := Pending(w.receipts, plan);
    var q := Room(o, 0, |pending|);
    c := Calls(o, run, pending, q);
    MixedCalls(w, plan, o, run);
    CallsReach(o, run, pending, q, j);
    StopsAmongHopeless(o, run, pending[..j]);
    HopelessOfTwice(run, pending[..j]);
    i := 0;
    if c <= j {
      i := |HopelessOf(run, pending[..c])| + j - c;
      PlaceAfter(run, pending, c, j);
    }
  }

  /** If the hopeless requests ahead let it through, a number of passes after which the request has been called. */
  lemma {:induction false} CalledWithin(w: World, plan: seq<Request>, o: Options, run: Oracle, j: nat) returns (m: nat)
    requires DistinctPaths(plan) && Sound(plan) && o.execute && Sorts(o, run, plan)
    requires (o.limit.Some? ==> o.limit.value > 0) && j < |Pending(w.receipts, plan)|
    requires LetsThrough(o, run, HopelessOf(run, Pending(w.receipts, plan)[..j]))
    ensures m <= j + 1 && |w.log| <= |Passes(w, plan, o, run, m).log|
    ensures Pending(w.receipts, plan)[j].id in CallsSince(w, Passes(w, plan, o, run, m))
    decreases j
  {
    hide Pending, PassFrom, DistinctPaths, Sound, Sorts, HopelessOf, LetsThrough;
    var pending := Pending(w.receipts, plan);
    var after := PassFrom(w, plan, 0, o, run).world;
    var c, i := OnePass(w, plan, o, run, j);
    assert Passes(w, plan, o, run, 0) == w;
    if c > j {
      m := 1;
      assert Called(after.log)[|w.log| + j] == IdsOf(pending[..c])[j] == pending[j].id;
      assert CallsSince(w, after)[j] == pending[j].id;
    } else {
      var n := CalledWithin(after, plan, o, run, i);
      PassesShift(w, plan, o, run, n);
      m := n + 1;
      LaterCallsCount(w, after, Passes(w, plan, o, run, m), pending[j].id);
    }
  }

  lemma LaterCallsCount(w: World, mid: World, after: World, id: string)
    requires |w.log| <= |mid.log| <= |after.log| && id in CallsSince(mid, after)
    ensures id in CallsSince(w, after)
  {
    var i :| 0 <= i < |CallsSince(mid, after)| && CallsSince(mid, after)[i] == id;
    assert CallsSince(w, after)[|mid.log| - |w.log| + i] == id;
  }

  /** If they do not, the request keeps its place behind them and is never called. */
  lemma {:induction false} NeverCalled(w: World, plan: seq<Request>, o: Options, run: Oracle, j: nat, m: nat)
    requires DistinctPaths(plan) && DistinctIds(plan) && Sound(plan) && o.execute && Sorts(o, run, plan)
    requires (o.limit.Some? ==> o.limit.value > 0) && j < |Pending(w.receipts, plan)|
    requires !LetsThrough(o, run, HopelessOf(run, Pending(w.receipts, plan)[..j]))
    ensures |w.log| <= |Passes(w, plan, o, run, m).log| && Called(w.log) <= Called(Passes(w, plan, o, run, m).log)
    ensures Pending(w.receipts, plan)[j].id !in CallsSince(w, Passes(w, plan, o, run, m))
    decreases m
  {
    hide Pending, PassFrom, DistinctPaths, Sound, Sorts, HopelessOf, LetsThrough;
    if m > 0 {
      var pending := Pending(w.receipts, plan);
      var after := PassFrom(w, plan, 0, o, run).world;
      PendingIsPlanned(w.receipts, plan);
      var c, i := OnePass(w, plan, o, run, j);
      NeverCalled(after, plan, o, run, i, m - 1);
      PassesShift(w, plan, o, run, m - 1);
      NotAmongFirst(w, after, pending, c, j);
      NoneJoined(w, after, Passes(w, plan, o, run, m), pending[j].id);
    }
  }

  lemma NotAmongFirst(w: World, after: World, pending: seq<Request>, k: nat, j: nat)
    requires k <= j < |pending| && DistinctIds(pending) && Called(after.log) == Called(w.log) + IdsOf(pending[..k])
    ensures |w.log| <= |after.log| && pending[j].id !in CallsSince(w, after)
  {
    assert CallsSince(w, after) == IdsOf(pending[..k]);
    forall i | 0 <= i < k ensures IdsOf(pending[..k])[i] != pending[j].id {
    }
  }

  lemma NoneJoined(w: World, mid: World, after: World, id: string)
    requires |w.log| <= |mid.log| <= |after.log| && Called(mid.log) <= Called(after.log)
    requires id !in CallsSince(w, mid) && id !in CallsSince(mid, after)
    ensures id !in CallsSince(w, after)
  {
    forall i | 0 <= i < |CallsSince(w, after)| ensures CallsSince(w, after)[i] != id {
      if i < |mid.log| - |w.log| {
        assert CallsSince(w, after)[i] == CallsSince(w, mid)[i];
      } else {
        assert CallsSince(w, after)[i] == CallsSince(mid, after)[i - (|mid.log| - |w.log|)];
      }
    }
  }

  /**
   In either mode and with any positive limit or none: a pending request is ever called exactly when none of the
   pending requests ahead stops the pass and fewer of those that never get done are ahead than the limit allows calls.
   */
  lemma EverCalledIff(w: World, plan: seq<Request>, o: Options, run: Oracle, j: nat)
    requires DistinctPaths(plan) && DistinctIds(plan) && Sound(plan) && o.execute && Sorts(o, run, plan)
    requires (o.limit.Some? ==> o.limit.value > 0) && j < |Pending(w.receipts, plan)|
    ensures var ahead := Pending(w.receipts, plan)[..j];
            EverCalled(w, plan, o, run, Pending(w.receipts, plan)[j].id)
            <==> !SomeStops(o, run, ahead) && (o.limit.Some? ==> |HopelessOf(run, ahead)| < o.limit.value)
  {
    StopsAmongHopeless(o, run, Pending(w.receipts, plan)[..j]);
    var hopeless := HopelessOf(run, Pending(w.receipts, plan)[..j]);
    assert LetsThrough(o, run, hopeless)
      <==> !SomeStops(o, run, hopeless) && (o.limit.Some? ==> |hopeless| < o.limit.value);
    hide Pending, PassFrom, DistinctPaths, Sound, Sorts, HopelessOf, DistinctIds, LetsThrough, SomeStops;
    if LetsThrough(o, run, hopeless) {
      var m := CalledWithin(w, plan, o, run, j);
    } else {
      forall m: nat
        ensures |w.log| <= |Passes(w, plan, o, run, m).log|
        ensures Pending(w.receipts, plan)[j].id !in CallsSince(w, Passes(w, plan, o, run, m)) {
        NeverCalled(w, plan, o, run, j, m);
      }
    }
  }

  /**
   The mode that stops at an error, which is the default, on a plan of requests that always get done or always fail: a
   pending request is ever called exactly when no failing one is pending ahead of it, whatever the limit.
   */
  lemma DefaultModeCallsIff(w: World, plan: seq<Request>, o: Options, run: Oracle, j: nat)
    requires DistinctPaths(plan) && DistinctIds(plan) && Sound(plan) && o.execute && !o.continueOnError
    requires forall r :: r in plan ==> Dependable(run, r) || Failing(run, r)
    requires (o.limit.Some? ==> o.limit.value > 0) && j < |Pending(w.receipts, plan)|
    ensures EverCalled(w, plan, o, run, Pending(w.receipts, plan)[j].id)
       <==> forall r :: r in Pending(w.receipts, plan)[..j] ==> !Failing(run, r)
  {
    EverCalledIff(w, plan, o, run, j);
    PendingIsPlanned(w.receipts, plan);
    var ahead := Pending(w.receipts, plan)[..j];
    if forall r :: r in ahead ==> !Failing(run, r) {
      forall r | r in ahead ensures !Hopeless(run, r) {
        assert Dependable(run, r);
        DependableIsNotHopeless(run, r);
      }
      NoneHopeless(run, ahead);
    }
  }

  lemma DependableIsNotHopeless(run: Oracle, r: Request)
    requires Dependable(run, r)
    ensures !Hopeless(run, r)
  {
    var out := run(0, r);
    assert ReliableFor(out, r);
    OwnRunCredits(r.id, out.stamp, out.receipt.value.rows);
    assert !HopelessRun(out, r);
  }

  lemma {:induction false} NoneHopeless(run: Oracle, rs: seq<Request>)
    requires forall r :: r in rs ==> !Hopeless(run, r)
    ensures HopelessOf(run, rs) == []
  {
    hide Hopeless;
    if rs != [] {
      NoneHopeless(run, rs[1..]);
    }
  }

  /** A planned request with an unusable task key ends every pass: the plan counts only up to it. */
  lemma {:induction false} BadKeyCutsPlan(w: World, good: seq<Request>, bad: Request, more: seq<Request>, taken: nat,
                                          o: Options, run: Oracle)
    requires RowFault(bad).Some?
    ensures PassFrom(w, good + [bad] + more, taken, o, run).world == PassFrom(w, good, taken, o, run).world
    decreases |good|
  {
    var plan := good + [bad] + more;
    if good != [] {
      assert plan[0] == good[0] && plan[1..] == good[1..] + [bad] + more;
      BadKeyCutsPlan(w, good[1..], bad, more, taken, o, run);
      BadKeyCutsPlan(w, good[1..], bad, more, taken + 1, o, run);
      BadKeyCutsPlan(Ran(w, good[0], run(|w.log|, good[0])), good[1..], bad, more, taken + 1, o, run);
    }
  }

  lemma {:induction false} BadKeyCutsPasses(w: World, good: seq<Request>, bad: Request, more: seq<Request>, o: Options,
                                            run: Oracle, m: nat)
    requires RowFault(bad).Some?
    ensures Passes(w, good + [bad] + more, o, run, m) == Passes(w, good, o, run, m)
  {
    if m > 0 {
      BadKeyCutsPasses(w, good, bad, more, o, run, m - 1);
      BadKeyCutsPlan(Passes(w, good, o, run, m - 1), good, bad, more, 0, o, run);
    }
  }

  /** Every run of "stuck" fails without a receipt; every other run succeeds and leaves one. */
  function Stuck(r: Request): Outcome {
    if r.id == "stuck" then Outcome("t", 1, None)
    else Outcome("t", 0, Some(Runs([RunRow(RunId(r.id, "t"), "succeeded")])))
  }

  /**
   A request that always fails keeps the one after it, which would succeed, from ever being called: with limit 1 when
   passes continue on errors, and with no limit at all when they do not.
   */
  lemma StuckRequestStarves(stuck: Request, other: Request)
    requires stuck.id == "stuck" && other.id != "stuck" && stuck.path != other.path
    requires RowFault(stuck).None? && RowFault(other).None?
    ensures var run: Oracle := (n, r) => Stuck(r);
            var w, plan := World(map[], {}, []), [stuck, other];
            && Dependable(run, other)
            && !EverCalled(w, plan, Options(Some(1), true, true), run, other.id)
            && !EverCalled(w, plan, Options(None, true, false), run, other.id)
  {
    var run: Oracle := (n, r) => Stuck(r);
    var w, plan := World(map[], {}, []), [stuck, other];
    forall n: nat ensures HopelessRun(run(n, stuck), stuck) && ReliableFor(run(n, other), other) {
    }
    assert Hopeless(run, stuck) && Failing(run, stuck) && Dependable(run, other);
    OnlyStuckAhead(w, run, stuck, other);
    hide Hopeless, Failing, Dependable, Pending, HopelessOf;
    EverCalledIff(w, plan, Options(Some(1), true, true), run, 1);
    EverCalledIff(w, plan, Options(None, true, false), run, 1);
    assert stuck in [stuck];
  }

  lemma OnlyStuckAhead(w: World, run: Oracle, stuck: Request, other: Request)
    requires w == World(map[], {}, []) && Hopeless(run, stuck)
    ensures var pending := Pending(w.receipts, [stuck, other]);
            pending == [stuck, other] && pending[..1] == [stuck] && HopelessOf(run, [stuck]) == [stuck]
  {
    assert [stuck, other][1..] == [other] && [other][1..] == [] && [stuck][1..] == [];
    assert Pending(w.receipts, [other]) == [other];
    assert HopelessOf(run, []) == [];
  }

  // ----- selecting requests -----

  /** The non-blank entries of a filter, stripped. */
  function Tokens(items: seq<string>): set<string> {
    set i | 0 <= i < |items| && Strip(items[i]) != "" :: Strip(items[i])
  }

  /** A filter names exactly the stripped texts of its entries that are not blank. */
  lemma TokensSay(items: seq<string>, t: string)
    ensures t in Tokens(items) <==> t != "" && exists item :: item in items && Strip(item) == t
  {
    if item :| item in items && Strip(item) == t {
      var i :| 0 <= i < |items| && items[i] == item;
      assert t != "" ==> Strip(items[i]) in Tokens(items);
    }
  }

  predicate Matches(r: Request, feeds: set<string>, ids: set<string>) {
    (feeds == {} || r.feed in feeds) && (ids == {} || r.id in ids)
  }

  function Selected(planned: seq<Request>, feeds: set<string>, ids: set<string>): seq<Request> {
    if planned == [] then []
    else
      var last := planned[|planned| - 1];
      Selected(planned[..|planned| - 1], feeds, ids) + if Matches(last, feeds, ids) then [last] else []
  }

  function FoundIds(rs: seq<Request>): set<string> { set r | r in rs :: r.id }

  /** The selection cut to its own limit, when one is given. */
  function Cut(selected: seq<Request>, limit: Option<int>): seq<Request> {
    if limit.Some? && 0 <= limit.value <= |selected| then selected[..limit.value] else selected
  }

  function Filtered(planned: seq<Request>, feeds: set<string>, ids: set<string>, supported: set<string>,
        limit: Option<int>)
      : Result<seq<Request>, Fault> {
    var selected := Selected(planned, feeds, ids);
    if !(feeds <= supported) then Err(UnknownFeeds(feeds - supported))
    else if !(ids <= FoundIds(selected)) then Err(NotPlanned(ids - FoundIds(selected)))
    else if limit.Some? && limit.value <= 0 then Err(BadLimit)
    else if Cut(selected, limit) == [] then Err(NothingSelected)
    else Ok(Cut(selected, limit))
  }

  lemma {:induction false} SelectedIsExact(planned: seq<Request>, feeds: set<string>, ids: set<string>)
    ensures forall r :: r in Selected(planned, feeds, ids) <==> r in planned && Matches(r, feeds, ids)
  {
    if planned != [] {
      SelectedIsExact(planned[..|planned| - 1], feeds, ids);
      assert planned == planned[..|planned| - 1] + [planned[|planned| - 1]];
    }
  }

  /** The selection keeps the planned order: it is taken part by part. */
  lemma {:induction false} SelectedInOrder(a: seq<Request>, b: seq<Request>, feeds: set<string>, ids: set<string>)
    ensures Selected(a + b, feeds, ids) == Selected(a, feeds, ids) + Selected(b, feeds, ids)
  {
    if b == [] {
      assert a + b == a;
    } else {
      SelectedInOrder(a, b[..|b| - 1], feeds, ids);
      assert (a + b)[..|a + b| - 1] == a + b[..|b| - 1];
    }
  }

  /** No request of the id is planned under a named feed. */
  ghost predicate NotPlannedUnder(planned: seq<Request>, feeds: set<string>, id: string) {
    forall r :: r in planned && r.id == id ==> feeds != {} && r.feed !in feeds
  }

  /** Why the filter refuses: unsupported feeds first, then requests not planned under a named feed, then the limit. */
  lemma FilterRefuses(planned: seq<Request>, feeds: set<string>, ids: set<string>, supported: set<string>,
        limit: Option<int>)
    requires Filtered(planned, feeds, ids, supported, limit).Err?
    ensures match Filtered(planned, feeds, ids, supported, limit).error
            case UnknownFeeds(unknown) => unknown != {} && forall f :: f in unknown <==> f in feeds && f !in supported
            case NotPlanned(missing) =>
              && missing != {} && feeds <= supported
              && forall id :: id in missing <==> id in ids && NotPlannedUnder(planned, feeds, id)
            case BadLimit => feeds <= supported && limit.Some? && limit.value <= 0
            case NothingSelected => feeds <= supported && ids == {} && forall r :: r in planned ==> r.feed !in feeds
            case _ => false
  {
    var selected := Selected(planned, feeds, ids);
    SelectedIsExact(planned, feeds, ids);
    FilterAnswersIff(planned, feeds, ids, supported, limit);
    forall id | id in ids ensures id in FoundIds(selected) <==> !NotPlannedUnder(planned, feeds, id) {
      if !NotPlannedUnder(planned, feeds, id) {
        var r :| r in planned && r.id == id && !(feeds != {} && r.feed !in feeds);
        assert r in selected;
      }
      if id in FoundIds(selected) {
        var r :| r in selected && r.id == id;
        assert r in planned && Matches(r, feeds, ids);
      }
    }
    if !(feeds <= supported) {
      var f :| f in feeds && f !in supported;
      assert f in feeds - supported;
    } else if !(ids <= FoundIds(selected)) {
      var id :| id in ids && id !in FoundIds(selected);
      assert id in ids - FoundIds(selected);
    }
  }

  /**
   The filter answers exactly when every named feed is supported, every named request is planned under a named feed,
   the limit is positive if given, and something matches; naming a request that answers makes the last condition
   redundant. The answer then is the first of the matching requests, as many as the limit allows, and never empty.
   */
  lemma FilterAnswersIff(planned: seq<Request>, feeds: set<string>, ids: set<string>, supported: set<string>,
        limit: Option<int>)
    ensures var r := Filtered(planned, feeds, ids, supported, limit);
            r.Ok? ==> r.value <= Selected(planned, feeds, ids) && r.value != []
                      && (limit.Some? ==> |r.value| <= limit.value)
                      && (|r.value| < |Selected(planned, feeds, ids)| ==> limit == Some(|r.value|))
    ensures Filtered(planned, feeds, ids, supported, limit).Ok? <==>
            && feeds <= supported && (limit.Some? ==> limit.value > 0)
            && (forall id :: id in ids ==> exists r :: r in planned && r.id == id && (feeds == {} || r.feed in feeds))
            && (ids == {} ==> exists r :: r in planned && (feeds == {} || r.feed in feeds))
  {
    SelectedIsExact(planned, feeds, ids);
    var selected := Selected(planned, feeds, ids);
    if ids <= FoundIds(selected) {
      forall id | id in ids ensures exists r :: r in planned && r.id == id && (feeds == {} || r.feed in feeds) {
        var r :| r in selected && r.id == id;
      }
    }
    if ids == {} && selected != [] {
      assert selected[0] in selected;
    }
    if ids != {} && ids <= FoundIds(selected) {
      var id :| id in ids;
      assert id in FoundIds(selected);
    }
  }

  // ----- the dispatcher -----

  class Dispatcher {
    var receipts: map<string, Receipt>
    var keys: set<string>
    var log: seq<Call>

    constructor (receipts: map<string, Receipt>, keys: set<string>)
      ensures State() == World(receipts, keys, [])
    {
      this.receipts := receipts;
      this.keys := keys;
      log := [];
    }

    function State(): World
      reads this
    {
      World(receipts, keys, log)
    }

    method AlreadySucceededAt(r: Request) returns (done: bool)
      ensures done == Done(receipts, r)
    {
      if r.path !in receipts || receipts[r.path].Unreadable? {
        return false;
      }
      var rows := receipts[r.path].rows;
      for i := 0 to |rows|
        invariant forall j :: 0 <= j < i ==> !Credits(rows[j], r.id)
      {
        if Credits(rows[i], r.id) {
          return true;
        }
      }
      return false;
    }

    method Execute(r: Request, out: Outcome)
      modifies this
      ensures State() == Ran(old(State()), r, out)
    {
      keys := keys + {r.id};
      log := log + [Call(r.id, RunId(r.id, out.stamp))];
      if out.receipt.Some? {
        receipts := receipts[r.path := out.receipt.value];
      }
      if out.code == 0 {
        keys := keys - {r.id};
      }
    }

    method Dispatch(selected: seq<Request>, o: Options, run: Oracle) returns (result: Result<seq<Item>, Fault>)
      modifies this
      ensures Pass(State(), result) == PassFrom(old(State()), selected, 0, o, run)
    {
      var items: seq<Item> := [];
      var pendingCount := 0;
      assert selected[0..] == selected;
      PrependNothing(PassFrom(State(), selected, 0, o, run));
      for i := 0 to |selected|
        invariant PassFrom(old(State()), selected, 0, o, run)
                  == Prepend(items, PassFrom(State(), selected[i..], pendingCount, o, run))
      {
        var r := selected[i];
        assert selected[i..][0] == r && selected[i..][1..] == selected[i + 1..];
        ghost var more := items;
        if RowFault(r).Some? {
          return Err(RowFault(r).value);
        }
        var done := AlreadySucceededAt(r);
        if done {
          items := items + [AlreadyItem(r)];
          PrependTwice(more, AlreadyItem(r), PassFrom(State(), selected[i + 1..], pendingCount, o, run));
          continue;
        }
        if AtLimit(o, pendingCount) {
          continue;
        }
        pendingCount := pendingCount + 1;
        if o.execute {
          var out := run(|log|, r);
          Execute(r, out);
          if out.code != 0 && !o.continueOnError {
            return Err(DispatchFailed(r.id));
          }
          items := items + [RanItem(r, out.code)];
          PrependTwice(more, RanItem(r, out.code), PassFrom(State(), selected[i + 1..], pendingCount, o, run));
        } else {
          items := items + [ValidatedItem(r)];
          PrependTwice(more, ValidatedItem(r), PassFrom(State(), selected[i + 1..], pendingCount, o, run));
        }
      }
      assert selected[|selected|..] == [] && items + [] == items;
      result := Ok(items);
    }
  }

  lemma PrependNothing(p: Pass)
    ensures Prepend([], p) == p
  {
    if p.result.Ok? {
      assert [] + p.result.value == p.result.value;
    }
  }

  lemma PrependTwice(items: seq<Item>, item: Item, p: Pass)
    ensures Prepend(items, Prepend([item], p)) == Prepend(items + [item], p)
  {
    if p.result.Ok? {
      assert items + ([item] + p.result.value) == items + [item] + p.result.value;
    }
  }

  method StripTokens(items: seq<string>) returns (tokens: set<string>)
    ensures tokens == Tokens(items)
  {
    tokens := {};
    for i := 0 to |items|
      invariant tokens == set j | 0 <= j < i && Strip(items[j]) != "" :: Strip(items[j])
    {
      if Strip(items[i]) != "" {
        tokens := tokens + {Strip(items[i])};
      }
    }
  }

  method FilterRequests(planned: seq<Request>, feedIds: seq<string>, requestIds: seq<string>, supported: set<string>,
                        limit: Option<int>)
      returns (result: Result<seq<Request>, Fault>)
    ensures result == Filtered(planned, Tokens(feedIds), Tokens(requestIds), supported, limit)
  {
    var feeds := StripTokens(feedIds);
    var ids := StripTokens(requestIds);
    if !(feeds <= supported) {
      return Err(UnknownFeeds(feeds - supported));
    }
    var selected: seq<Request> := [];
    for i := 0 to |planned|
      invariant selected == Selected(planned[..i], feeds, ids)
    {
      assert planned[..i + 1][..i] == planned[..i];
      if Matches(planned[i], feeds, ids) {
        selected := selected + [planned[i]];
      }
    }
    assert planned[..|planned|] == planned;
    if !(ids <= FoundIds(selected)) {
      return Err(NotPlanned(ids - FoundIds(selected)));
    }
    if limit.Some? {
      if limit.value <= 0 {
        return Err(BadLimit);
      }
      selected := if limit.value <= |selected| then selected[..limit.value] else selected;
    }
    if selected == [] {
      return Err(NothingSelected);
    }
    return Ok(selected);
  }
}
