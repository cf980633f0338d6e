/**
 Closing agent repairs. A request has no receipt, a blocked one or a closed one; passes over the request directories
 run again and again while diagnoses and evidence change between them. `Close` is the decision for one request;
 `Pass` is one run over the directory listing. A command that overruns its time limit raises: the visit then writes
 no receipt and the pass ends there.
 */
module RepairClosure {
  import opened Wrappers

  type Id = string

  datatype ActionStatus = Completed | Failed | Refused | Skipped | NotNeeded | Planned

  datatype Action =
    | GitPush(repo: string, status: ActionStatus)
    | RestartScheduler(status: ActionStatus)
    | StartDashboardRefresh(status: ActionStatus)
    | RetryReceiptObserved
    | SourceReceiptsObserved(count: nat)
    | ReplayRunObserved
    | SchedulerProgressObserved
    | RegisterResolved
    | NoActionNeeded
    | BlockedRecheck

  datatype Blocker = DiagnosisIncomplete | UnparseablePayload | NotRepaired | RetryForbidden | ForbiddenScope
                   | NeedsNewEvidence | Recorded(text: string)

  datatype Closure = Closed | Blocked | Pending | Unrecognised

  /** `actions` and `blockers` are None when the stored JSON field is not a list. */
  datatype Receipt = Receipt(status: Closure, actions: Option<seq<Action>>, blockers: Option<seq<Blocker>>)

  /** What a command reports; one that overruns its time limit raises. */
  datatype Reply = Yes | No | Raises

  /** The commands for one repaired repository, each asked only when the one before it leaves the push open. */
  datatype Repo = Repo(name: string, onBranch: Reply, dirty: Reply, ahead: Reply, push: Reply)

  /** A parsed diagnosis payload, classified by the text predicates over request and payload. */
  datatype Payload = Payload(lockConflict: bool, repaired: bool, retryForbidden: bool, forbiddenScope: bool,
                             repos: seq<Repo>, needsRestart: bool)

  /** Everything one pass reads for one request besides its own receipt. */
  datatype Observation = Observation(retryReceipt: bool, sourceReceipts: nat, replayRun: bool, schedulerProgress: bool,
                                     diagnosisCompleted: bool, registerResolved: bool, payload: Option<Payload>,
                                     restart: Reply, refresh: Reply)

  /** `acted` says that the git push and systemctl branch ran for real; a decision that raised was acting too. */
  datatype Decision = Decision(receipt: Receipt, acted: bool) | Raised

  // ----- one request -----

  function Outcome(reply: Reply): ActionStatus { if reply.Yes? then Completed else Failed }

  function PushAction(r: Repo): Action {
    GitPush(r.name, if r.onBranch.No? then Skipped
                    else if r.dirty.Yes? then Refused
                    else if r.ahead.No? then NotNeeded
                    else Outcome(r.push))
  }

  predicate PushRaises(r: Repo) {
    || r.onBranch.Raises?
    || (r.onBranch.Yes? && (r.dirty.Raises? || (r.dirty.No? && (r.ahead.Raises? || (r.ahead.Yes? && r.push.Raises?)))))
  }

  /** Some command of the repair raises: a push, the restart when one is needed, or the dashboard refresh. */
  predicate RepairRaises(o: Observation, p: Payload) {
    (exists r :: r in p.repos && PushRaises(r)) || (p.needsRestart && o.restart.Raises?) || o.refresh.Raises?
  }

  function PushActions(repos: seq<Repo>, execute: bool): seq<Action> {
    seq(|repos|, i requires 0 <= i < |repos| =>
      if execute then PushAction(repos[i]) else GitPush(repos[i].name, Planned))
  }

  function RepairActions(o: Observation, p: Payload, execute: bool): seq<Action> {
    PushActions(p.repos, execute)
    + (if p.needsRestart then [RestartScheduler(if execute then Outcome(o.restart) else Planned)] else [])
    + [StartDashboardRefresh(if execute then Outcome(o.refresh) else Planned)]
  }

  predicate Stops(a: Action) {
    match a
    case GitPush(_, s) => s.Failed? || s.Refused?
    case RestartScheduler(s) => s.Failed?
    case StartDashboardRefresh(s) => s.Failed?
    case _ => false
  }

  function Sealed(actions: seq<Action>): Receipt { Receipt(Closed, Some(actions), Some([])) }

  function Held(b: Blocker): Receipt { Receipt(Blocked, Some([]), Some([b])) }

  function Rechecked(r: Receipt): Receipt {
    var actions := r.actions.GetOr([]);
    var blockers := r.blockers.GetOr([]);
    Receipt(Blocked, Some(if BlockedRecheck in actions then actions else actions + [BlockedRecheck]),
            Some(if blockers == [] then [NeedsNewEvidence] else blockers))
  }

  function Close(o: Observation, existing: Option<Receipt>, execute: bool): Decision {
    if o.retryReceipt then Decision(Sealed([RetryReceiptObserved]), false)
    else if o.sourceReceipts > 0 then Decision(Sealed([SourceReceiptsObserved(o.sourceReceipts)]), false)
    else if o.replayRun then Decision(Sealed([ReplayRunObserved]), false)
    else if o.schedulerProgress then Decision(Sealed([SchedulerProgressObserved]), false)
    else if !o.diagnosisCompleted then
      Decision(if o.registerResolved then Sealed([RegisterResolved])
               else Receipt(Pending, Some([]), Some([DiagnosisIncomplete])), false)
    else if o.payload.None? then Decision(Held(UnparseablePayload), false)
    else
      var p := o.payload.value;
      if p.lockConflict then Decision(Sealed([NoActionNeeded]), false)
      else if existing.Some? && existing.value.status.Blocked? then Decision(Rechecked(existing.value), false)
      else if !p.repaired then Decision(Held(NotRepaired), false)
      else if p.retryForbidden then Decision(Held(RetryForbidden), false)
      else if p.forbiddenScope then Decision(Held(ForbiddenScope), false)
      else if execute && RepairRaises(o, p) then Raised
      else
        var actions := RepairActions(o, p, execute);
        var status := if exists a :: a in actions && Stops(a) then Blocked else Closed;
        Decision(Receipt(status, Some(actions), Some([])), execute)
  }

  /** Observed evidence, a resolved failure register behind an unfinished diagnosis, or a scheduler lock conflict. */
  predicate JustifiesClosing(o: Observation) {
    || o.retryReceipt || o.sourceReceipts > 0 || o.replayRun || o.schedulerProgress
    || (!o.diagnosisCompleted && o.registerResolved)
    || (o.diagnosisCompleted && o.payload.Some? && o.payload.value.lockConflict)
  }

  /** A completed, repaired, retryable diagnosis outside the forbidden scope, with nothing else to observe. */
  predicate RepairMayAct(o: Observation) {
    && !JustifiesClosing(o) && o.diagnosisCompleted && o.payload.Some?
    && o.payload.value.repaired && !o.payload.value.retryForbidden && !o.payload.value.forbiddenScope
  }

  predicate Acts(d: Decision) { d.Raised? || d.acted }

  predicate Closes(d: Decision) { d.Decision? && d.receipt.status.Closed? }

  /** A blocked request closes exactly on justification, and never acts. */
  lemma BlockedClosesIff(o: Observation, r: Receipt, execute: bool)
    requires r.status.Blocked?
    ensures Closes(Close(o, Some(r), execute)) <==> JustifiesClosing(o)
    ensures !Acts(Close(o, Some(r), execute))
  {
  }

  /** Actions run exactly on an executing pass over a request without a blocked receipt whose repair may act. */
  lemma ActsIff(o: Observation, existing: Option<Receipt>, execute: bool)
    ensures var d := Close(o, existing, execute);
            && (Acts(d) <==> execute && RepairMayAct(o) && !(existing.Some? && existing.value.status.Blocked?))
            && (d.Raised? <==> Acts(d) && RepairRaises(o, o.payload.value))
            && (d.Decision? ==> (d.acted ==> !d.receipt.status.Pending?) && !d.receipt.status.Unrecognised?)
  {
  }

  predicate CommandsSucceed(r: Repo) {
    r.onBranch.No? || (r.onBranch.Yes? && r.dirty.No? && (r.ahead.No? || (r.ahead.Yes? && r.push.Yes?)))
  }

  predicate EveryCommandSucceeds(o: Observation, p: Payload) {
    (forall r :: r in p.repos ==> CommandsSucceed(r)) && (p.needsRestart ==> o.restart.Yes?) && o.refresh.Yes?
  }

  /**
   A repair that acts closes exactly when no command raised, no push was refused or failed and no service command
   failed.
   */
  lemma ActedClosesIff(o: Observation, existing: Option<Receipt>)
    requires Acts(Close(o, existing, true))
    ensures Closes(Close(o, existing, true)) <==> EveryCommandSucceeds(o, o.payload.value)
  {
    if !RepairRaises(o, o.payload.value) {
      StopsIff(o, o.payload.value);
    }
  }

  lemma StopsIff(o: Observation, p: Payload)
    requires !RepairRaises(o, p)
    ensures (exists a :: a in RepairActions(o, p, true) && Stops(a)) <==> !EveryCommandSucceeds(o, p)
  {
    var actions := RepairActions(o, p, true);
    var pushes := PushActions(p.repos, true);
    var refresh := StartDashboardRefresh(Outcome(o.refresh));
    var restart := RestartScheduler(Outcome(o.restart));
    assert actions[|actions| - 1] == refresh;
    assert p.needsRestart ==> actions[|pushes|] == restart;
    forall r | r in p.repos ensures PushAction(r) in actions && (Stops(PushAction(r)) <==> !CommandsSucceed(r)) {
      var i :| 0 <= i < |p.repos| && p.repos[i] == r;
      assert actions[i] == PushAction(r);
      assert !PushRaises(r);
    }
    if a :| a in actions && Stops(a) {
      var i :| 0 <= i < |actions| && actions[i] == a;
      if i < |pushes| {
        assert a == PushAction(p.repos[i]) && p.repos[i] in p.repos;
      } else {
        assert a == refresh || (p.needsRestart && a == restart);
      }
    }
    if !EveryCommandSucceeds(o, p) {
      if r :| r in p.repos && !CommandsSucceed(r) {
        assert Stops(PushAction(r));
      } else if !o.refresh.Yes? {
        assert Stops(refresh);
      } else {
        assert Stops(restart);
      }
    }
  }

  /** The receipt file after a pass has visited the request. */
  function Visit(file: Option<Receipt>, o: Observation): Option<Receipt> {
    if file.Some? && !file.value.status.Blocked? then file
    else
      var d := Close(o, file, true);
      if d.Raised? || d.receipt.status.Pending? then file else Some(d.receipt)
  }

  /** With the observation unchanged a blocked receipt settles after one visit, and any file after two. */
  lemma VisitsSettle(file: Option<Receipt>, o: Observation)
    ensures Visit(Visit(Visit(file, o), o), o) == Visit(Visit(file, o), o)
    ensures file.Some? && file.value.status.Blocked? ==> Visit(Visit(file, o), o) == Visit(file, o)
  {
    if file.Some? && file.value.status.Blocked? {
      BlockedVisitSettles(file.value, o);
    } else if Visit(file, o).Some? && Visit(file, o).value.status.Blocked? {
      BlockedVisitSettles(Visit(file, o).value, o);
    }
  }

  lemma BlockedVisitSettles(r: Receipt, o: Observation)
    requires r.status.Blocked?
    ensures Visit(Visit(Some(r), o), o) == Visit(Some(r), o)
  {
    assert Rechecked(Rechecked(r)) == Rechecked(r);
  }

  // ----- what a receipt says -----

  /** The outcome of one push by the answers of its commands. */
  lemma PushSays(r: Repo)
    requires !PushRaises(r)
    ensures PushAction(r).GitPush? && PushAction(r).repo == r.name
    ensures var status := PushAction(r).status;
            && (status.Skipped? <==> r.onBranch.No?)
            && (status.Refused? <==> r.onBranch.Yes? && r.dirty.Yes?)
            && (status.NotNeeded? <==> r.onBranch.Yes? && r.dirty.No? && r.ahead.No?)
            && (status.Completed? <==> r.onBranch.Yes? && r.dirty.No? && r.ahead.Yes? && r.push.Yes?)
            && (status.Failed? <==> r.onBranch.Yes? && r.dirty.No? && r.ahead.Yes? && r.push.No?)
  {
  }

  /**
   The actions of a repair: one push per repository in order, then the scheduler restart if one is needed, and last the
   dashboard refresh; when nothing is executed all of them are only planned.
   */
  lemma RepairActionsListed(o: Observation, p: Payload, execute: bool)
    requires execute ==> !RepairRaises(o, p)
    ensures var actions, n := RepairActions(o, p, execute), |p.repos|;
            && |actions| == (if p.needsRestart then n + 2 else n + 1)
            && (forall i :: 0 <= i < n ==>
                  actions[i].GitPush? && actions[i].repo == p.repos[i].name
                  && if execute then actions[i] == PushAction(p.repos[i]) else actions[i].status.Planned?)
            && (p.needsRestart ==>
                  && actions[n].RestartScheduler?
                  && (actions[n].status.Planned? <==> !execute)
                  && (actions[n].status.Completed? <==> execute && o.restart.Yes?)
                  && (actions[n].status.Failed? <==> execute && o.restart.No?))
            && actions[|actions| - 1].StartDashboardRefresh?
            && (actions[|actions| - 1].status.Planned? <==> !execute)
            && (actions[|actions| - 1].status.Completed? <==> execute && o.refresh.Yes?)
            && (actions[|actions| - 1].status.Failed? <==> execute && o.refresh.No?)
  {
  }

  /** A receipt that closes without acting names the first evidence there is, and no blocker. */
  lemma ClosingSaysWhy(o: Observation, existing: Option<Receipt>, execute: bool)
    requires JustifiesClosing(o)
    ensures var d := Close(o, existing, execute);
            && d.Decision? && d.receipt.status.Closed? && !d.acted && d.receipt.blockers == Some([])
            && d.receipt.actions.Some? && |d.receipt.actions.value| == 1
            && var why := d.receipt.actions.value[0];
               && (why.RetryReceiptObserved? <==> o.retryReceipt)
               && (why.SourceReceiptsObserved? <==> !o.retryReceipt && o.sourceReceipts > 0)
               && (why.SourceReceiptsObserved? ==> why.count == o.sourceReceipts)
               && (why.ReplayRunObserved? <==> !o.retryReceipt && o.sourceReceipts == 0 && o.replayRun)
               && (why.SchedulerProgressObserved? <==>
                     !o.retryReceipt && o.sourceReceipts == 0 && !o.replayRun && o.schedulerProgress)
               && (why.RegisterResolved? ==> !o.diagnosisCompleted && o.registerResolved)
               && (why.NoActionNeeded? ==> o.diagnosisCompleted && o.payload.Some? && o.payload.value.lockConflict)
  {
  }

  /** Without evidence and without an earlier blocked receipt, the blockers name the first thing in the way. */
  lemma BlockersSayWhy(o: Observation, existing: Option<Receipt>, execute: bool)
    requires !JustifiesClosing(o) && (existing.Some? ==> !existing.value.status.Blocked?)
    requires Close(o, existing, execute).Decision?
    ensures var r, completed := Close(o, existing, execute).receipt, o.diagnosisCompleted && o.payload.Some?;
            && (r.status.Pending? <==> !o.diagnosisCompleted)
            && (r.blockers == Some([DiagnosisIncomplete]) <==> !o.diagnosisCompleted)
            && (r.blockers == Some([UnparseablePayload]) <==> o.diagnosisCompleted && o.payload.None?)
            && (r.blockers == Some([NotRepaired]) <==> completed && !o.payload.value.repaired)
            && (r.blockers == Some([RetryForbidden]) <==>
                  completed && o.payload.value.repaired && o.payload.value.retryForbidden)
            && (r.blockers == Some([ForbiddenScope]) <==>
                  completed && o.payload.value.repaired && !o.payload.value.retryForbidden
                  && o.payload.value.forbiddenScope)
            && (r.blockers == Some([]) <==> RepairMayAct(o))
            && (!RepairMayAct(o) ==> r.actions == Some([]) && (r.status.Blocked? || r.status.Pending?))
            && (RepairMayAct(o) ==> r.actions == Some(RepairActions(o, o.payload.value, execute)))
  {
  }

  // ----- passes over the directory -----

  /** One visit whose repair branch ran for real. */
  datatype Act = Act(id: Id, raised: bool)

  /** `acted` lists, in order, the visits whose repair actions ran. */
  datatype World = World(receipts: map<Id, Receipt>, acted: seq<Act>)

  /** One run: the sorted listing, what it observes per request with both files, its mode and its limit. */
  datatype PassInput = PassInput(listing: seq<Id>, seen: map<Id, Observation>, execute: bool, limit: Option<int>)

  function FileOf(w: World, id: Id): Option<Receipt> {
    if id in w.receipts then Some(w.receipts[id]) else None
  }

  predicate IsCandidate(w: World, seen: map<Id, Observation>, id: Id) {
    id in seen && (id !in w.receipts || w.receipts[id].status.Blocked?)
  }

  function Candidates(w: World, seen: map<Id, Observation>, listing: seq<Id>): seq<Id> {
    if listing == [] then []
    else
      var n := |listing| - 1;
      Candidates(w, seen, listing[..n]) + if IsCandidate(w, seen, listing[n]) then [listing[n]] else []
  }

  /** Python's `s[:limit]`, including a negative limit. */
  function Slice<T>(s: seq<T>, limit: Option<int>): seq<T> {
    if limit.None? || limit.value >= |s| then s
    else if limit.value >= 0 then s[..limit.value]
    else if limit.value + |s| >= 0 then s[..limit.value + |s|]
    else []
  }

  /** A limit takes the head of the list; a negative one leaves that many off its end. */
  lemma SliceTakesHead<T>(s: seq<T>, limit: Option<int>)
    ensures Slice(s, limit) <= s
    ensures limit.None? ==> |Slice(s, limit)| == |s|
    ensures limit.Some? && limit.value >= 0 ==> |Slice(s, limit)| <= limit.value
    ensures limit.Some? && 0 <= limit.value <= |s| ==> |Slice(s, limit)| == limit.value
    ensures limit.Some? && limit.value > |s| ==> |Slice(s, limit)| == |s|
    ensures limit.Some? && -|s| <= limit.value < 0 ==> |s| - |Slice(s, limit)| == -limit.value
    ensures limit.Some? && limit.value < -|s| ==> Slice(s, limit) == []
  {
  }

  function VisitOne(w: World, id: Id, o: Observation, execute: bool): World {
    var d := Close(o, FileOf(w, id), execute);
    World(if execute && d.Decision? && !d.receipt.status.Pending? then w.receipts[id := d.receipt] else w.receipts,
          if Acts(d) then w.acted + [Act(id, d.Raised?)] else w.acted)
  }

  predicate VisitRaises(w: World, id: Id, p: PassInput)
    requires id in p.seen
  {
    Close(p.seen[id], FileOf(w, id), p.execute).Raised?
  }

  predicate AllSeen(ids: seq<Id>, p: PassInput) { forall id :: id in ids ==> id in p.seen }

  /** Visits one request after the other; a command that raises ends the run. */
  function VisitFrom(w: World, ids: seq<Id>, p: PassInput): World
    requires AllSeen(ids, p)
    decreases |ids|
  {
    if ids == [] then w
    else
      var next := VisitOne(w, ids[0], p.seen[ids[0]], p.execute);
      if VisitRaises(w, ids[0], p) then next else VisitFrom(next, ids[1..], p)
  }

  lemma {:induction false} CandidatesQualify(w: World, seen: map<Id, Observation>, listing: seq<Id>)
    ensures forall id :: id in Candidates(w, seen, listing) <==> id in listing && IsCandidate(w, seen, id)
  {
    if listing != [] {
      CandidatesQualify(w, seen, listing[..|listing| - 1]);
      assert listing == listing[..|listing| - 1] + [listing[|listing| - 1]];
    }
  }

  function Chosen(w: World, p: PassInput): (ids: seq<Id>)
    ensures forall id :: id in ids ==> id in p.listing && IsCandidate(w, p.seen, id)
  {
    CandidatesQualify(w, p.seen, p.listing);
    Slice(Candidates(w, p.seen, p.listing), p.limit)
  }

  function Pass(w: World, p: PassInput): World { VisitFrom(w, Chosen(w, p), p) }

  function Passes(w: World, ps: seq<PassInput>): World {
    if ps == [] then w else Pass(Passes(w, ps[..|ps| - 1]), ps[|ps| - 1])
  }

  // ----- which requests a run reaches -----

  /** The requests visited: up to and including the first whose visit raises. */
  function Reached(w: World, ids: seq<Id>, p: PassInput): seq<Id>
    requires AllSeen(ids, p)
    decreases |ids|
  {
    if ids == [] then []
    else if VisitRaises(w, ids[0], p) then [ids[0]]
    else [ids[0]] + Reached(w, ids[1..], p)
  }

  function Visited(w: World, p: PassInput): seq<Id> { Reached(w, Chosen(w, p), p) }

  lemma {:induction false} ReachedIff(w: World, ids: seq<Id>, p: PassInput, i: nat)
    requires AllSeen(ids, p) && Distinct(ids) && i < |ids|
    ensures ids[i] in Reached(w, ids, p) <==> forall j :: 0 <= j < i ==> !VisitRaises(w, ids[j], p)
    decreases |ids|
  {
    var rest := ids[1..];
    TailDistinct(ids);
    if i > 0 {
      assert ids[i] == rest[i - 1];
      ReachedIff(w, rest, p, i - 1);
      if !VisitRaises(w, ids[0], p) {
        assert (forall j :: 0 <= j < i ==> !VisitRaises(w, ids[j], p))
          <==> (forall j :: 0 <= j < i - 1 ==> !VisitRaises(w, rest[j], p)) by {
          forall j | 0 < j < i ensures ids[j] == rest[j - 1] {
          }
          forall j | 0 <= j < i - 1 ensures rest[j] == ids[j + 1] {
          }
        }
      }
    }
  }

  lemma {:induction false} ReachedAmong(w: World, ids: seq<Id>, p: PassInput)
    requires AllSeen(ids, p)
    ensures forall id :: id in Reached(w, ids, p) ==> id in ids
    decreases |ids|
  {
    if ids != [] {
      ReachedAmong(w, ids[1..], p);
    }
  }

  lemma {:induction false} ReachedSame(w: World, v: World, ids: seq<Id>, p: PassInput)
    requires AllSeen(ids, p) && forall id :: id in ids ==> (VisitRaises(w, id, p) <==> VisitRaises(v, id, p))
    ensures Reached(w, ids, p) == Reached(v, ids, p)
    decreases |ids|
  {
    if ids != [] {
      assert ids[0] in ids;
      ReachedSame(w, v, ids[1..], p);
    }
  }

  // ----- what every sequence of passes keeps -----

  ghost predicate Distinct(ids: seq<Id>) { forall i, j :: 0 <= i < j < |ids| ==> ids[i] != ids[j] }

  lemma TailDistinct(ids: seq<Id>)
    requires Distinct(ids) && ids != []
    ensures Distinct(ids[1..]) && ids[0] !in ids[1..]
  {
    forall i | 0 <= i < |ids[1..]| ensures ids[1..][i] == ids[i + 1] {
    }
  }

  function Rechecks(actions: seq<Action>): nat {
    if actions == [] then 0
    else Rechecks(actions[..|actions| - 1]) + if actions[|actions| - 1].BlockedRecheck? then 1 else 0
  }

  lemma {:induction false} NoRecheckInside(actions: seq<Action>)
    requires BlockedRecheck !in actions
    ensures Rechecks(actions) == 0
  {
    if actions != [] {
      NoRecheckInside(actions[..|actions| - 1]);
    }
  }

  /** A request acts again only after a visit that raised. */
  ghost predicate ActsOnceUnlessRaised(acted: seq<Act>) {
    forall i, j :: 0 <= i < j < |acted| && acted[i].id == acted[j].id ==> acted[i].raised
  }

  /** An act that did not raise left a receipt, later acts follow raised ones only, and no receipt rechecks twice. */
  ghost predicate WorldInv(w: World) {
    && ActsOnceUnlessRaised(w.acted)
    && (forall a :: a in w.acted && !a.raised ==> a.id in w.receipts)
    && (forall id :: id in w.receipts ==> Rechecks(w.receipts[id].actions.GetOr([])) <= 1)
  }

  lemma CloseRechecksOnce(o: Observation, existing: Option<Receipt>)
    requires existing.Some? ==> Rechecks(existing.value.actions.GetOr([])) <= 1
    ensures var d := Close(o, existing, true); d.Decision? ==> Rechecks(d.receipt.actions.GetOr([])) <= 1
  {
    var d := Close(o, existing, true);
    if d.Decision? {
      var actions := d.receipt.actions.GetOr([]);
      if BlockedRecheck !in actions {
        NoRecheckInside(actions);
      } else {
        var before := existing.value.actions.GetOr([]);
        if BlockedRecheck !in before {
          NoRecheckInside(before);
          assert actions == before + [BlockedRecheck];
          assert actions[..|before|] == before;
        }
      }
    }
  }

  lemma VisitKeepsInv(w: World, id: Id, o: Observation, execute: bool)
    requires WorldInv(w) && (id in w.receipts ==> w.receipts[id].status.Blocked?)
    ensures WorldInv(VisitOne(w, id, o, execute))
  {
    ActsIff(o, FileOf(w, id), execute);
    if execute {
      CloseRechecksOnce(o, FileOf(w, id));
    }
  }

  /** What a run does to the files: `reached` were visited, all others are untouched. */
  ghost predicate Touches(w: World, after: World, reached: seq<Id>, p: PassInput) {
    && (forall id :: id !in reached ==> FileOf(after, id) == FileOf(w, id))
    && (forall id :: id in reached ==> FileOf(after, id) == VisitedFile(w, id, p))
  }

  function VisitedFile(w: World, id: Id, p: PassInput): Option<Receipt> {
    if p.execute && id in p.seen then Visit(FileOf(w, id), p.seen[id]) else FileOf(w, id)
  }

  lemma OneVisit(w: World, id: Id, p: PassInput)
    requires id in p.seen && IsCandidate(w, p.seen, id)
    ensures var next := VisitOne(w, id, p.seen[id], p.execute);
            && Touches(w, next, [id], p)
            && (!p.execute ==> next == w)
            && (WorldInv(w) ==> WorldInv(next))
  {
    ActsIff(p.seen[id], FileOf(w, id), p.execute);
    if WorldInv(w) {
      VisitKeepsInv(w, id, p.seen[id], p.execute);
    }
  }

  lemma TouchesThen(w: World, next: World, after: World, id: Id, rest: seq<Id>, p: PassInput)
    requires Touches(w, next, [id], p) && Touches(next, after, rest, p) && id !in rest
    ensures Touches(w, after, [id] + rest, p)
  {
    forall x ensures x !in [id] + rest ==> FileOf(after, x) == FileOf(w, x)
             ensures x in [id] + rest ==> FileOf(after, x) == VisitedFile(w, x, p) {
      if x == id {
        assert x in [id] && x !in rest;
      } else {
        assert x !in [id];
        assert FileOf(next, x) == FileOf(w, x);
      }
    }
  }

  /** A run visits what it reaches and leaves every other request alone; a plan-only run leaves everything alone. */
  lemma {:induction false} VisitFromFrame(w: World, ids: seq<Id>, p: PassInput)
    requires Distinct(ids) && AllSeen(ids, p) && forall id :: id in ids ==> IsCandidate(w, p.seen, id)
    ensures var after := VisitFrom(w, ids, p);
            && Touches(w, after, Reached(w, ids, p), p)
            && (!p.execute ==> after == w)
            && (WorldInv(w) ==> WorldInv(after))
    decreases |ids|
  {
    hide WorldInv, Touches;
    if ids == [] {
      TouchesNothing(w, p);
      return;
    }
    var id, rest := ids[0], ids[1..];
    TailDistinct(ids);
    assert id in ids;
    var next := VisitOne(w, id, p.seen[id], p.execute);
    OneVisit(w, id, p);
    if !VisitRaises(w, id, p) {
      forall x | x in rest ensures FileOf(next, x) == FileOf(w, x) && IsCandidate(next, p.seen, x) {
        OthersStay(w, id, x, p);
      }
      VisitFromFrame(next, rest, p);
      ReachedSame(w, next, rest, p);
      ReachedAmong(w, rest, p);
      TouchesThen(w, next, VisitFrom(next, rest, p), id, Reached(w, rest, p), p);
    }
  }

  lemma TouchesNothing(w: World, p: PassInput)
    ensures Touches(w, w, [], p)
  {
  }

  lemma OthersStay(w: World, id: Id, x: Id, p: PassInput)
    requires id in p.seen && x != id
    ensures var next := VisitOne(w, id, p.seen[id], p.execute);
            FileOf(next, x) == FileOf(w, x) && (IsCandidate(next, p.seen, x) <==> IsCandidate(w, p.seen, x))
  {
  }

  lemma {:induction false} CandidatesDistinct(w: World, seen: map<Id, Observation>, listing: seq<Id>)
    requires Distinct(listing)
    ensures Distinct(Candidates(w, seen, listing))
  {
    if listing != [] {
      var n := |listing| - 1;
      CandidatesDistinct(w, seen, listing[..n]);
      CandidatesQualify(w, seen, listing[..n]);
    }
  }

  lemma PassFrame(w: World, p: PassInput)
    requires Distinct(p.listing)
    ensures var after := Pass(w, p);
            && Touches(w, after, Visited(w, p), p)
            && (!p.execute ==> after == w)
            && (WorldInv(w) ==> WorldInv(after))
    ensures forall id :: id in Visited(w, p) ==> id in p.listing && IsCandidate(w, p.seen, id)
  {
    CandidatesDistinct(w, p.seen, p.listing);
    VisitFromFrame(w, Chosen(w, p), p);
    ReachedAmong(w, Chosen(w, p), p);
  }

  /** Plan-only passes change nothing. */
  lemma PlanOnlyChangesNothing(w: World, p: PassInput)
    requires Distinct(p.listing) && !p.execute
    ensures Pass(w, p) == w
  {
    PassFrame(w, p);
  }

  ghost predicate ProperListings(ps: seq<PassInput>) { forall p :: p in ps ==> Distinct(p.listing) }

  const EMPTY := World(map[], [])

  lemma {:induction false} PassesKeepInv(ps: seq<PassInput>)
    requires ProperListings(ps)
    ensures WorldInv(Passes(EMPTY, ps))
  {
    if ps != [] {
      var n := |ps| - 1;
      PassesKeepInv(ps[..n]);
      assert ps[n] in ps;
      PassFrame(Passes(EMPTY, ps[..n]), ps[n]);
    }
  }

  function ActsOn(acted: seq<Act>, id: Id): nat {
    if acted == [] then 0
    else ActsOn(acted[..|acted| - 1], id) + if acted[|acted| - 1].id == id then 1 else 0
  }

  function RaisedOn(acted: seq<Act>, id: Id): nat {
    if acted == [] then 0
    else RaisedOn(acted[..|acted| - 1], id) + if acted[|acted| - 1] == Act(id, true) then 1 else 0
  }

  /** A visit that raised was followed by another that acted on the same request. */
  ghost predicate ActedAgain(acted: seq<Act>, id: Id) {
    exists i, j :: 0 <= i < j < |acted| && acted[i] == Act(id, true) && acted[j].id == id
  }

  lemma {:induction false} ActsCounted(acted: seq<Act>, id: Id)
    requires ActsOnceUnlessRaised(acted)
    ensures ActsOn(acted, id) <= 1 + RaisedOn(acted, id)
    ensures acted != [] && acted[|acted| - 1].id == id
        ==> ActsOn(acted[..|acted| - 1], id) == RaisedOn(acted[..|acted| - 1], id)
  {
    if acted != [] {
      var n := |acted| - 1;
      ActsCounted(acted[..n], id);
      if acted[n].id == id {
        AllEarlierRaised(acted[..n], id);
      }
    }
  }

  lemma {:induction false} AllEarlierRaised(acted: seq<Act>, id: Id)
    requires forall i :: 0 <= i < |acted| && acted[i].id == id ==> acted[i].raised
    ensures ActsOn(acted, id) == RaisedOn(acted, id)
  {
    if acted != [] {
      AllEarlierRaised(acted[..|acted| - 1], id);
    }
  }

  ghost predicate ActsAt(acted: seq<Act>, id: Id, i: nat) { i < |acted| && acted[i].id == id }

  lemma {:induction false} ActsSomewhere(acted: seq<Act>, id: Id)
    ensures ActsOn(acted, id) >= 1 <==> exists i: nat :: ActsAt(acted, id, i)
  {
    if acted != [] {
      var n := |acted| - 1;
      ActsSomewhere(acted[..n], id);
      forall i: nat | i < n ensures ActsAt(acted, id, i) <==> ActsAt(acted[..n], id, i) {
      }
      assert ActsAt(acted, id, n) <==> acted[n].id == id;
    }
  }

  lemma {:induction false} ActsTwice(acted: seq<Act>, id: Id)
    ensures ActsOn(acted, id) >= 2 <==> exists i: nat, j: nat :: i < j && ActsAt(acted, id, i) && ActsAt(acted, id, j)
  {
    if acted != [] {
      var n := |acted| - 1;
      ActsTwice(acted[..n], id);
      ActsSomewhere(acted[..n], id);
      forall i: nat | i < n ensures ActsAt(acted, id, i) <==> ActsAt(acted[..n], id, i) {
      }
      assert ActsAt(acted, id, n) <==> acted[n].id == id;
    }
  }

  /**
   Over any passes, with anything observed in between, a request's repair acts at most once more than its visits
   raised, and at most once exactly when no visit that raised is followed by another acting one.
   */
  lemma RepairsActAtMostOnce(ps: seq<PassInput>, id: Id)
    requires ProperListings(ps)
    ensures WorldInv(Passes(EMPTY, ps))
    ensures var acted := Passes(EMPTY, ps).acted;
            ActsOn(acted, id) <= 1 + RaisedOn(acted, id) && (ActsOn(acted, id) <= 1 <==> !ActedAgain(acted, id))
  {
    PassesKeepInv(ps);
    var acted := Passes(EMPTY, ps).acted;
    ActsCounted(acted, id);
    ActsTwice(acted, id);
    if i: nat, j: nat :| i < j && ActsAt(acted, id, i) && ActsAt(acted, id, j) {
      assert acted[i] == Act(id, true);
    }
    if ActedAgain(acted, id) {
      var i, j :| 0 <= i < j < |acted| && acted[i] == Act(id, true) && acted[j].id == id;
      assert ActsAt(acted, id, i) && ActsAt(acted, id, j);
    }
  }

  // ----- when a repair acts again, read off the passes -----

  /** Pass k is an executing one that reached the request. */
  ghost predicate ExecutesAt(ps: seq<PassInput>, k: nat, id: Id) {
    k < |ps| && ps[k].execute && id in ps[k].seen && id in Visited(Passes(EMPTY, ps[..k]), ps[k])
  }

  /** A visit to a request without a receipt writes none: the diagnosis is unfinished, or a command overruns. */
  predicate LeavesNothing(o: Observation) {
    if RepairMayAct(o) then RepairRaises(o, o.payload.value) else !JustifiesClosing(o) && !o.diagnosisCompleted
  }

  /** No executing visit ahead of pass k has written a receipt. */
  ghost predicate StillOpen(ps: seq<PassInput>, k: nat, id: Id) {
    forall m: nat :: m < k && ExecutesAt(ps, m, id) ==> LeavesNothing(ps[m].seen[id])
  }

  ghost predicate ActsAtPass(ps: seq<PassInput>, k: nat, id: Id) {
    ExecutesAt(ps, k, id) && RepairMayAct(ps[k].seen[id]) && StillOpen(ps, k, id)
  }

  ghost predicate OverrunAt(ps: seq<PassInput>, k: nat, id: Id) {
    ExecutesAt(ps, k, id) && RepairMayAct(ps[k].seen[id]) && RepairRaises(ps[k].seen[id], ps[k].seen[id].payload.value)
  }

  /** A visit whose repair overran, and a later one that still finds no receipt and a repair that may act. */
  ghost predicate OverrunThenActs(ps: seq<PassInput>, id: Id) {
    exists k: nat, l: nat :: k < l && OverrunAt(ps, k, id) && ActsAtPass(ps, l, id)
  }

  lemma VisitLeavesNothingIff(o: Observation)
    ensures Visit(None, o).None? <==> LeavesNothing(o)
  {
  }

  lemma ExecutesAtPrefix(ps: seq<PassInput>, k: nat, id: Id)
    requires k < |ps| - 1
    ensures ExecutesAt(ps, k, id) <==> ExecutesAt(ps[..|ps| - 1], k, id)
    ensures ps[k] == ps[..|ps| - 1][k]
  {
    assert ps[..|ps| - 1][..k] == ps[..k];
  }

  lemma StillOpenPrefix(ps: seq<PassInput>, k: nat, id: Id)
    requires k <= |ps| - 1
    ensures StillOpen(ps, k, id) <==> StillOpen(ps[..|ps| - 1], k, id)
  {
    hide ExecutesAt;
    forall m: nat | m < k {
      ExecutesAtPrefix(ps, m, id);
    }
  }

  /** The request has no receipt exactly when no executing visit has written one. */
  lemma {:induction false} NoReceiptIff(ps: seq<PassInput>, id: Id)
    requires ProperListings(ps)
    ensures FileOf(Passes(EMPTY, ps), id).None? <==> StillOpen(ps, |ps|, id)
  {
    hide Visit, LeavesNothing, Pass;
    if ps != [] {
      var n := |ps| - 1;
      var before := Passes(EMPTY, ps[..n]);
      NoReceiptIff(ps[..n], id);
      StillOpenPrefix(ps, n, id);
      assert ps[n] in ps;
      PassFrame(before, ps[n]);
      if ExecutesAt(ps, n, id) {
        VisitLeavesNothingIff(ps[n].seen[id]);
        ReceiptsStay(FileOf(before, id), ps[n].seen[id]);
      }
    }
  }

  lemma ReceiptsStay(file: Option<Receipt>, o: Observation)
    ensures file.Some? ==> Visit(file, o).Some?
  {
  }

  ghost predicate ActsIn(w: World, p: PassInput, id: Id) {
    id in p.seen && Acts(Close(p.seen[id], FileOf(w, id), p.execute))
  }

  lemma OneVisitActs(w: World, x: Id, p: PassInput, id: Id)
    requires x in p.seen
    ensures ActsOn(VisitOne(w, x, p.seen[x], p.execute).acted, id)
         == ActsOn(w.acted, id) + if x == id && ActsIn(w, p, x) then 1 else 0
  {
    var act := Act(x, Close(p.seen[x], FileOf(w, x), p.execute).Raised?);
    assert (w.acted + [act])[..|w.acted|] == w.acted;
  }

  /** A run logs one act per reached request whose decision acts. */
  lemma {:induction false} RunActs(w: World, ids: seq<Id>, p: PassInput, id: Id)
    requires Distinct(ids) && AllSeen(ids, p)
    ensures ActsOn(VisitFrom(w, ids, p).acted, id)
         == ActsOn(w.acted, id) + if id in Reached(w, ids, p) && ActsIn(w, p, id) then 1 else 0
    decreases |ids|
  {
    hide VisitOne, Close, Acts;
    if ids != [] {
      var x, rest := ids[0], ids[1..];
      TailDistinct(ids);
      OneVisitActs(w, x, p, id);
      ReachedAmong(w, rest, p);
      if !VisitRaises(w, x, p) {
        var next := VisitOne(w, x, p.seen[x], p.execute);
        forall y | y in rest ensures FileOf(next, y) == FileOf(w, y) {
          OthersStay(w, x, y, p);
        }
        RunActs(next, rest, p, id);
        ReachedSame(w, next, rest, p);
      }
    }
  }

  /** Each pass logs an act on the request exactly when it acts there, as read off the passes. */
  lemma LastPassActs(ps: seq<PassInput>, id: Id)
    requires ProperListings(ps) && ps != []
    ensures ActsOn(Passes(EMPTY, ps).acted, id)
         == ActsOn(Passes(EMPTY, ps[..|ps| - 1]).acted, id) + if ActsAtPass(ps, |ps| - 1, id) then 1 else 0
  {
    hide VisitFrom, Reached, RepairMayAct, Close, Acts;
    var n := |ps| - 1;
    var before, p := Passes(EMPTY, ps[..n]), ps[n];
    assert p in ps;
    CandidatesDistinct(before, p.seen, p.listing);
    RunActs(before, Chosen(before, p), p, id);
    PassFrame(before, p);
    NoReceiptIff(ps[..n], id);
    StillOpenPrefix(ps, n, id);
    if id in Visited(before, p) {
      ActsIff(p.seen[id], FileOf(before, id), p.execute);
    }
  }

  ghost predicate ActsBefore(ps: seq<PassInput>, l: nat, id: Id) { exists k: nat :: k < l && ActsAtPass(ps, k, id) }

  lemma ActsAtPassPrefix(ps: seq<PassInput>, k: nat, id: Id)
    requires k < |ps| - 1
    ensures ActsAtPass(ps, k, id) <==> ActsAtPass(ps[..|ps| - 1], k, id)
  {
    ExecutesAtPrefix(ps, k, id);
    StillOpenPrefix(ps, k, id);
  }

  lemma ActsBeforePrefix(ps: seq<PassInput>, l: nat, id: Id)
    requires l <= |ps| - 1
    ensures ActsBefore(ps, l, id) <==> ActsBefore(ps[..|ps| - 1], l, id)
  {
    hide ActsAtPass;
    var front := ps[..|ps| - 1];
    forall k: nat | k < l ensures ActsAtPass(ps, k, id) <==> ActsAtPass(front, k, id) {
      ActsAtPassPrefix(ps, k, id);
    }
    if k: nat :| k < l && ActsAtPass(ps, k, id) {
      assert ActsAtPass(front, k, id);
    }
    if k: nat :| k < l && ActsAtPass(front, k, id) {
      assert ActsAtPass(ps, k, id);
    }
  }

  ghost predicate ActsAgainAt(ps: seq<PassInput>, l: nat, id: Id) { ActsAtPass(ps, l, id) && ActsBefore(ps, l, id) }

  lemma {:induction false} ActsByPasses(ps: seq<PassInput>, id: Id)
    requires ProperListings(ps)
    ensures ActsOn(Passes(EMPTY, ps).acted, id) >= 1 <==> ActsBefore(ps, |ps|, id)
    ensures ActsOn(Passes(EMPTY, ps).acted, id) >= 2 <==> exists l: nat :: l < |ps| && ActsAgainAt(ps, l, id)
  {
    hide ActsAtPass, Passes, ActsOn;
    if ps == [] {
      NothingActs(id);
    } else {
      var n := |ps| - 1;
      ActsByPasses(ps[..n], id);
      LastPassActs(ps, id);
      ActsBeforePrefix(ps, n, id);
      forall l: nat | l < n ensures ActsAgainAt(ps, l, id) <==> ActsAgainAt(ps[..n], l, id) {
        ActsAtPassPrefix(ps, l, id);
        ActsBeforePrefix(ps, l, id);
      }
      assert ActsAtPass(ps, n, id) ==> ActsBefore(ps, |ps|, id);
      assert ActsBefore(ps, n, id) ==> ActsBefore(ps, |ps|, id);
      assert ActsBefore(ps, |ps|, id) ==> ActsBefore(ps, n, id) || ActsAtPass(ps, n, id);
      assert ActsAgainAt(ps, n, id) <==> ActsAtPass(ps, n, id) && ActsBefore(ps, n, id);
    }
  }

  lemma NothingActs(id: Id)
    ensures ActsOn(Passes(EMPTY, []).acted, id) == 0
  {
  }

  /**
   A request's repair acts more than once exactly when a pass reached it with a repair that overran, and a later
   executing pass reaches it with a repair that may act while no visit in between has written a receipt.
   */
  lemma ActsTwiceIff(ps: seq<PassInput>, id: Id)
    requires ProperListings(ps)
    ensures ActsOn(Passes(EMPTY, ps).acted, id) >= 2 <==> OverrunThenActs(ps, id)
  {
    hide OverrunAt, ActsAtPass;
    ActsByPasses(ps, id);
    if l: nat :| l < |ps| && ActsAgainAt(ps, l, id) {
      var k: nat :| k < l && ActsAtPass(ps, k, id);
      EarlierActOverran(ps, k, l, id);
    }
    if k: nat, l: nat :| k < l && OverrunAt(ps, k, id) && ActsAtPass(ps, l, id) {
      EarlierActOverran(ps, k, l, id);
      assert ActsAgainAt(ps, l, id);
    }
  }

  /** Ahead of an act, the acts are the visits that overran. */
  lemma EarlierActOverran(ps: seq<PassInput>, k: nat, l: nat, id: Id)
    requires k < l && ActsAtPass(ps, l, id)
    ensures l < |ps| && (ActsAtPass(ps, k, id) <==> OverrunAt(ps, k, id))
  {
    hide JustifiesClosing, RepairRaises;
    assert ExecutesAt(ps, k, id) ==> LeavesNothing(ps[k].seen[id]);
  }

  /** A repaired diagnosis with one repository to push and a restart to do; the dashboard refresh answers `refresh`. */
  function Repairable(refresh: Reply): Observation {
    var payload := Payload(false, true, false, false, [Repo("manager", Yes, No, Yes, Yes)], true);
    Observation(false, 0, false, false, true, false, Some(payload), Yes, refresh)
  }

  /** A refresh that overruns leaves no receipt, so the next pass pushes and restarts a second time. */
  lemma OverrunRepeatsRepair(id: Id)
    ensures var first := PassInput([id], map[id := Repairable(Raises)], true, None);
            var second := first.(seen := map[id := Repairable(Yes)]);
            Passes(EMPTY, [first, second]).acted == [Act(id, true), Act(id, false)]
  {
    var first := PassInput([id], map[id := Repairable(Raises)], true, None);
    var second := first.(seen := map[id := Repairable(Yes)]);
    var between := World(map[], [Act(id, true)]);
    OnlyCandidate(EMPTY, first, id);
    OnlyCandidate(between, second, id);
    assert Repairable(Raises).refresh.Raises?;
    assert Close(Repairable(Raises), None, true).Raised?;
    assert Pass(EMPTY, first) == between;
    var o := Repairable(Yes);
    ActsIff(o, None, true);
    assert !RepairRaises(o, o.payload.value);
    assert VisitFrom(between, [id], second) == VisitOne(between, id, o, true);
    assert [first, second][..1] == [first] && [first][..0] == [];
    assert Passes(EMPTY, [first]) == Pass(EMPTY, first);
  }

  lemma OnlyCandidate(w: World, p: PassInput, id: Id)
    requires p.listing == [id] && p.limit.None? && IsCandidate(w, p.seen, id)
    ensures Chosen(w, p) == [id]
  {
    LoneCandidate(w, p.seen, id);
  }

  lemma LoneCandidate(w: World, seen: map<Id, Observation>, id: Id)
    requires IsCandidate(w, seen, id)
    ensures Candidates(w, seen, [id]) == [id]
  {
    assert [id][..0] == [];
    assert Candidates(w, seen, []) + [id] == [id];
  }

  /** A receipt that is not blocked, in particular a closed one, is never rewritten. */
  lemma {:induction false} ClosedIsAbsorbing(w: World, ps: seq<PassInput>, id: Id)
    requires ProperListings(ps) && id in w.receipts && !w.receipts[id].status.Blocked?
    ensures id in Passes(w, ps).receipts && Passes(w, ps).receipts[id] == w.receipts[id]
  {
    if ps != [] {
      var n := |ps| - 1;
      ClosedIsAbsorbing(w, ps[..n], id);
      assert ps[n] in ps;
      PassFrame(Passes(w, ps[..n]), ps[n]);
      assert FileOf(Pass(Passes(w, ps[..n]), ps[n]), id) == Some(w.receipts[id]);
    }
  }

  /** Pass k is an executing one that reached the request, and what it observed there satisfies p. */
  ghost predicate SeesAt(w: World, ps: seq<PassInput>, k: nat, id: Id, p: Observation -> bool) {
    && k < |ps| && ps[k].execute && id in Visited(Passes(w, ps[..k]), ps[k])
    && id in ps[k].seen && p(ps[k].seen[id])
  }

  ghost predicate EverSees(w: World, ps: seq<PassInput>, id: Id, p: Observation -> bool) {
    exists k: nat :: SeesAt(w, ps, k, id, p)
  }

  /** A blocked request stays blocked until an executing pass observes a justification, and closes at that pass. */
  lemma {:induction false} BlockedClosesOnlyWhenJustified(w: World, ps: seq<PassInput>, id: Id)
    requires ProperListings(ps) && id in w.receipts && w.receipts[id].status.Blocked?
    ensures id in Passes(w, ps).receipts
    ensures var status := Passes(w, ps).receipts[id].status;
            if EverSees(w, ps, id, JustifiesClosing) then status.Closed? else status.Blocked?
  {
    if ps != [] {
      var n := |ps| - 1;
      var before := Passes(w, ps[..n]);
      BlockedClosesOnlyWhenJustified(w, ps[..n], id);
      assert ps[n] in ps;
      PassFrame(before, ps[n]);
      assert FileOf(before, id) == Some(before.receipts[id]);
      assert FileOf(Pass(before, ps[n]), id).Some? ==> id in Pass(before, ps[n]).receipts;
      if before.receipts[id].status.Blocked? && id in Visited(before, ps[n]) {
        BlockedClosesIff(ps[n].seen[id], before.receipts[id], ps[n].execute);
      }
      EverSeesPrefix(w, ps, id, JustifiesClosing);
    }
  }

  lemma EverSeesPrefix(w: World, ps: seq<PassInput>, id: Id, p: Observation -> bool)
    requires ps != []
    ensures EverSees(w, ps, id, p) <==> EverSees(w, ps[..|ps| - 1], id, p) || SeesAt(w, ps, |ps| - 1, id, p)
  {
    var n := |ps| - 1;
    forall k: nat | k < n ensures SeesAt(w, ps, k, id, p) <==> SeesAt(w, ps[..n], k, id, p) {
      assert ps[..n][..k] == ps[..k];
    }
    if k: nat :| SeesAt(w, ps, k, id, p) {
      assert k < n ==> SeesAt(w, ps[..n], k, id, p);
    }
    if k: nat :| SeesAt(w, ps[..n], k, id, p) {
      assert SeesAt(w, ps, k, id, p);
    }
  }

  // ----- what a blocked receipt keeps on record -----

  /** A completed diagnosis with a payload, and nothing that justifies closing: the receipt is rechecked. */
  predicate AsksRecheck(o: Observation) { !JustifiesClosing(o) && o.diagnosisCompleted && o.payload.Some? }

  /** A completed diagnosis without a payload, and nothing that justifies closing. */
  predicate LosesRecord(o: Observation) { !JustifiesClosing(o) && o.diagnosisCompleted && o.payload.None? }

  /** Earlier actions stay in place and at most one marker joins them; recorded blockers stay. */
  predicate KeepsRecord(earlier: Receipt, later: Receipt) {
    var before, after := earlier.actions.GetOr([]), later.actions.GetOr([]);
    var blockers := earlier.blockers.GetOr([]);
    && (after == before || (after == before + [BlockedRecheck] && BlockedRecheck !in before))
    && (later.blockers.GetOr([]) == blockers || (blockers == [] && later.blockers.GetOr([]) == [NeedsNewEvidence]))
  }

  /** The record of a receipt that lost its own: no action but the marker, and the unparseable payload blocks it. */
  predicate LostRecord(r: Receipt) {
    && (r.actions.GetOr([]) == [] || r.actions.GetOr([]) == [BlockedRecheck])
    && r.blockers.GetOr([]) == [UnparseablePayload]
  }

  /** One visit to a blocked receipt, by what it observes. */
  lemma BlockedVisitRecord(r: Receipt, o: Observation)
    requires r.status.Blocked?
    ensures Visit(Some(r), o).Some?
    ensures var later := Visit(Some(r), o).value;
            && (!JustifiesClosing(o) && !o.diagnosisCompleted ==> later == r)
            && (LosesRecord(o) ==> later.actions == Some([]) && later.blockers == Some([UnparseablePayload]))
            && (AsksRecheck(o) ==>
                  && later.status.Blocked? && KeepsRecord(r, later)
                  && BlockedRecheck in later.actions.GetOr([]) && later.blockers.GetOr([]) != [])
  {
  }

  lemma KeepsRecordThen(a: Receipt, b: Receipt, c: Receipt)
    requires KeepsRecord(a, b) && KeepsRecord(b, c)
    ensures KeepsRecord(a, c)
  {
    var x, y, z := a.actions.GetOr([]), b.actions.GetOr([]), c.actions.GetOr([]);
    assert y != x ==> y[|x|] == BlockedRecheck;
  }

  lemma LostStaysLost(a: Receipt, b: Receipt)
    requires LostRecord(a) && KeepsRecord(a, b)
    ensures LostRecord(b)
  {
  }

  /**
   Over any passes, while a blocked request is not closed: its actions stay in place with at most one marker added,
   there exactly when a pass rechecked it or it had been there, and its blockers stay; unless an executing pass found a
   completed diagnosis without a payload, which wipes the record for good.
   */
  lemma {:induction false} BlockedRecordIff(w: World, ps: seq<PassInput>, id: Id)
    requires ProperListings(ps) && id in w.receipts && w.receipts[id].status.Blocked?
    requires !EverSees(w, ps, id, JustifiesClosing)
    ensures id in Passes(w, ps).receipts
    ensures var earlier, later := w.receipts[id], Passes(w, ps).receipts[id];
            if EverSees(w, ps, id, LosesRecord) then LostRecord(later)
            else
              && KeepsRecord(earlier, later)
              && (BlockedRecheck in later.actions.GetOr([])
                  <==> BlockedRecheck in earlier.actions.GetOr([]) || EverSees(w, ps, id, AsksRecheck))
  {
    hide Visit, KeepsRecord, Touches, Visited;
    BlockedClosesOnlyWhenJustified(w, ps, id);
    if ps == [] {
      NothingSeen(w, id);
      KeepsItself(w.receipts[id]);
    } else {
      var n := |ps| - 1;
      var before := Passes(w, ps[..n]);
      EverSeesPrefix(w, ps, id, JustifiesClosing);
      EverSeesPrefix(w, ps, id, LosesRecord);
      EverSeesPrefix(w, ps, id, AsksRecheck);
      BlockedRecordIff(w, ps[..n], id);
      BlockedClosesOnlyWhenJustified(w, ps[..n], id);
      assert ps[n] in ps;
      BlockedPassRecord(before, ps[n], id);
      var r, later := before.receipts[id], Pass(before, ps[n]).receipts[id];
      if EverSees(w, ps[..n], id, LosesRecord) {
        if KeepsRecord(r, later) {
          LostStaysLost(r, later);
        }
      } else if KeepsRecord(r, later) {
        KeepsRecordThen(w.receipts[id], r, later);
      }
    }
  }

  lemma NothingSeen(w: World, id: Id)
    ensures forall p: Observation -> bool :: !EverSees(w, [], id, p)
  {
  }

  lemma KeepsItself(r: Receipt)
    ensures KeepsRecord(r, r)
  {
  }

  /** What one pass does to the record of a blocked request. */
  lemma BlockedPassRecord(w: World, p: PassInput, id: Id)
    requires Distinct(p.listing) && id in w.receipts && w.receipts[id].status.Blocked?
    requires p.execute && id in Visited(w, p) && id in p.seen ==> !JustifiesClosing(p.seen[id])
    ensures id in Pass(w, p).receipts
    ensures var r, later := w.receipts[id], Pass(w, p).receipts[id];
            var seen := p.execute && id in Visited(w, p) && id in p.seen;
            if seen && LosesRecord(p.seen[id]) then LostRecord(later)
            else
              && KeepsRecord(r, later)
              && (BlockedRecheck in later.actions.GetOr([])
                  <==> BlockedRecheck in r.actions.GetOr([]) || (seen && AsksRecheck(p.seen[id])))
  {
    hide Visit, Visited;
    PassFrame(w, p);
    var after := Pass(w, p);
    assert FileOf(w, id) == Some(w.receipts[id]);
    KeepsItself(w.receipts[id]);
    if p.execute && id in Visited(w, p) && id in p.seen {
      BlockedVisitRecord(w.receipts[id], p.seen[id]);
      assert FileOf(after, id) == Visit(Some(w.receipts[id]), p.seen[id]);
    } else {
      assert FileOf(after, id) == FileOf(w, id);
    }
  }

  /** A completed diagnosis whose payload cannot be parsed wipes a refused push from the receipt. */
  lemma UnparseableWipesRecord(id: Id)
    ensures var push := GitPush("manager", Refused);
            var r := Receipt(Blocked, Some([push, StartDashboardRefresh(Completed)]), Some([]));
            var o := Observation(false, 0, false, false, true, false, None, Yes, Yes);
            var p := PassInput([id], map[id := o], true, None);
            Pass(World(map[id := r], []), p).receipts == map[id := Held(UnparseablePayload)]
  {
    var r := Receipt(Blocked, Some([GitPush("manager", Refused), StartDashboardRefresh(Completed)]), Some([]));
    var o := Observation(false, 0, false, false, true, false, None, Yes, Yes);
    var p := PassInput([id], map[id := o], true, None);
    var w := World(map[id := r], []);
    OnlyCandidate(w, p, id);
    assert VisitFrom(w, [id], p) == VisitOne(w, id, o, true);
  }

  // ----- the imperative form -----

  class Closer {
    var receipts: map<Id, Receipt>
    ghost var acted: seq<Act>

    ghost function Abstract(): World
      reads this
    {
      World(receipts, acted)
    }

    constructor ()
      ensures Abstract() == EMPTY
    {
      receipts, acted := map[], [];
    }

    /** Pushes repository by repository; a command that raises leaves the loop. */
    static method PushRepairedRepos(repos: seq<Repo>) returns (actions: seq<Action>, raised: bool)
      ensures raised <==> exists r :: r in repos && PushRaises(r)
      ensures !raised ==> actions == PushActions(repos, true)
    {
      actions, raised := [], false;
      for i := 0 to |repos|
        invariant actions == PushActions(repos[..i], true)
        invariant forall r :: r in repos[..i] ==> !PushRaises(r)
      {
        var r := repos[i];
        assert r in repos;
        if r.onBranch.Raises? {
          return actions, true;
        }
        if r.onBranch.No? {
          actions := actions + [GitPush(r.name, Skipped)];
          continue;
        }
        if r.dirty.Raises? {
          return actions, true;
        }
        if r.dirty.Yes? {
          actions := actions + [GitPush(r.name, Refused)];
          continue;
        }
        if r.ahead.Raises? {
          return actions, true;
        }
        if r.ahead.No? {
          actions := actions + [GitPush(r.name, NotNeeded)];
          continue;
        }
        if r.push.Raises? {
          return actions, true;
        }
        actions := actions + [GitPush(r.name, Outcome(r.push))];
      }
      assert repos[..|repos|] == repos;
    }

    /** The commands of one repair, in order; `raised` when one of them overran. */
    static method RunRepair(o: Observation, p: Payload) returns (actions: seq<Action>, raised: bool)
      ensures raised <==> RepairRaises(o, p)
      ensures !raised ==> actions == RepairActions(o, p, true)
    {
      actions, raised := PushRepairedRepos(p.repos);
      if raised {
        return;
      }
      if p.needsRestart {
        if o.restart.Raises? {
          return actions, true;
        }
        actions := actions + [RestartScheduler(Outcome(o.restart))];
      }
      if o.refresh.Raises? {
        return actions, true;
      }
      actions := actions + [StartDashboardRefresh(Outcome(o.refresh))];
    }

    /** Grows the action and blocker lists branch by branch, then fixes the status. */
    static method CloseAgentRepair(o: Observation, existing: Option<Receipt>, execute: bool) returns (d: Decision)
      ensures d == Close(o, existing, execute)
    {
      var actions: seq<Action>, blockers: seq<Blocker>, status, acted := [], [], Unrecognised, false;
      if o.retryReceipt {
        status, actions := Closed, actions + [RetryReceiptObserved];
      } else if o.sourceReceipts > 0 {
        status, actions := Closed, actions + [SourceReceiptsObserved(o.sourceReceipts)];
      } else if o.replayRun {
        status, actions := Closed, actions + [ReplayRunObserved];
      } else if o.schedulerProgress {
        status, actions := Closed, actions + [SchedulerProgressObserved];
      } else if !o.diagnosisCompleted {
        if o.registerResolved {
          status, actions := Closed, actions + [RegisterResolved];
        } else {
          status, blockers := Pending, blockers + [DiagnosisIncomplete];
        }
      } else if o.payload.None? {
        blockers := blockers + [UnparseablePayload];
      } else if o.payload.value.lockConflict {
        status, actions := Closed, actions + [NoActionNeeded];
      } else if existing.Some? && existing.value.status.Blocked? {
        actions := existing.value.actions.GetOr([]);
        if BlockedRecheck !in actions {
          actions := actions + [BlockedRecheck];
        }
        status := Blocked;
        blockers := existing.value.blockers.GetOr([]);
        if blockers == [] {
          blockers := blockers + [NeedsNewEvidence];
        }
      } else if !o.payload.value.repaired {
        blockers := blockers + [NotRepaired];
      } else if o.payload.value.retryForbidden {
        blockers := blockers + [RetryForbidden];
      } else if o.payload.value.forbiddenScope {
        blockers := blockers + [ForbiddenScope];
      } else {
        if execute {
          acted := true;
          var raised;
          actions, raised := RunRepair(o, o.payload.value);
          if raised {
            return Raised;
          }
        } else {
          actions := RepairActions(o, o.payload.value, false);
        }
        status := if exists a :: a in actions && Stops(a) then Blocked else Closed;
      }
      if blockers != [] && !status.Pending? {
        status := Blocked;
      }
      assert actions == Close(o, existing, execute).receipt.actions.value;
      assert blockers == Close(o, existing, execute).receipt.blockers.value;
      d := Decision(Receipt(status, Some(actions), Some(blockers)), acted);
    }

    method DiscoverClosureCandidates(seen: map<Id, Observation>, listing: seq<Id>) returns (ids: seq<Id>)
      ensures ids == Candidates(Abstract(), seen, listing)
    {
      ids := [];
      for i := 0 to |listing|
        invariant ids == Candidates(Abstract(), seen, listing[..i])
      {
        assert listing[..i + 1][..i] == listing[..i];
        var id := listing[i];
        if id !in seen {
          continue;
        }
        if id in receipts && !receipts[id].status.Blocked? {
          continue;
        }
        ids := ids + [id];
      }
      assert listing[..|listing|] == listing;
    }

    /** One run over the listing; `raised` when a command overran and ended it. */
    method ClosePendingAgentRepairs(p: PassInput) returns (raised: bool)
      modifies this
      ensures Abstract() == Pass(old(Abstract()), p)
      ensures raised ==> acted != [] && acted[|acted| - 1].raised
    {
      var found := DiscoverClosureCandidates(p.seen, p.listing);
      var ids := Slice(found, p.limit);
      assert ids == Chosen(old(Abstract()), p) && ids[0..] == ids;
      for i := 0 to |ids|
        invariant AllSeen(ids, p) && AllSeen(ids[i..], p)
        invariant VisitFrom(Abstract(), ids[i..], p) == Pass(old(Abstract()), p)
      {
        var id := ids[i];
        assert ids[i..][0] == id && ids[i..][1..] == ids[i + 1..];
        var d := CloseAgentRepair(p.seen[id], if id in receipts then Some(receipts[id]) else None, p.execute);
        if d.Raised? {
          acted := acted + [Act(id, true)];
          return true;
        }
        if p.execute && !d.receipt.status.Pending? {
          receipts := receipts[id := d.receipt];
        }
        if d.acted {
          acted := acted + [Act(id, false)];
        }
      }
      raised := false;
    }
  }
}
