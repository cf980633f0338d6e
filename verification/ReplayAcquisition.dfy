/**
 Replay with automatic acquisition: bounded attempts, each draining what it lacks in bounded batches, under a
 provider-call budget and a time budget. Every call into the outside world is an oracle answer for its place in the
 run, so a theorem over all oracles is a theorem over all runs.
 */
module ReplayAcquisition {
  import opened Wrappers

  datatype Args = Args(maxAttempts: nat, drainBatches: nat, batchSize: nat, maxProviderCalls: nat, maxSeconds: real,
                       executeProvider: bool)

  /** What the argument validator lets through. */
  predicate ValidArgs(args: Args) { args.maxAttempts > 0 && args.drainBatches > 0 && args.batchSize > 0 }

  datatype ReplayReceipt = ReplayReceipt(missingPaths: int, hasDecisionRows: bool)
  datatype Backoff = Backoff(hasArtifact: bool)
  datatype Replay = Replay(returnCode: int, receipt: Option<ReplayReceipt>, backoff: Option<Backoff>)
  datatype Acquired = Acquired(calls: nat, executed: bool, continues: bool)

  /** Answers by place: attempt, drain batch, and the limit the acquisition was given. */
  datatype Oracle = Oracle(replay: nat -> Replay, attemptClock: nat -> real, batchClock: (nat, nat) -> real,
                           paths: (nat, nat) -> Acquired, drain: (nat, nat, nat) -> Option<Acquired>)

  datatype Reason = TimeBudget | ProviderRequired | ProviderBudget | MaxAttempts
                  | NoReceipt | NoDecisionRows | NoBackoff | NoArtifact

  /** Emitted events; `limit` is the limit the acquisition behind the event was given. */
  datatype Event =
    | Replayed(attempt: nat, returnCode: int)
    | PathBackoff(attempt: nat, missing: int)
    | PathBatch(attempt: nat, limit: nat, calls: nat, used: nat)
    | FeatureBackoff(attempt: nat)
    | DrainBatch(attempt: nat, batch: nat, limit: nat, calls: nat, used: nat)
    | DrainStopped(attempt: nat, batch: nat, limit: nat)
    | BudgetReached(attempt: nat, used: nat)
    | Stopped(reason: Reason, at: Option<nat>)
    | Failed(reason: Reason, attempt: nat)
    | Completed(attempt: nat, used: nat)

  datatype Leg = Leg(events: seq<Event>, used: nat, exit: Option<int>)

  // ----- the run as a function -----

  predicate Expired(args: Args, elapsed: real) { args.maxSeconds > 0.0 && elapsed >= args.maxSeconds }

  predicate BudgetExhausted(args: Args, used: nat) { args.maxProviderCalls > 0 && used >= args.maxProviderCalls }

  function Min(a: int, b: int): int { if a < b then a else b }
  function Max(a: int, b: int): int { if a < b then b else a }

  function BatchLimit(args: Args, used: nat): nat {
    var remaining := if args.maxProviderCalls > 0 then args.maxProviderCalls - used else args.batchSize;
    Min(args.batchSize, Max(1, remaining))
  }

  function BudgetStop(attempt: nat, used: nat): seq<Event> {
    [BudgetReached(attempt, used), Stopped(ProviderBudget, Some(attempt))]
  }

  function DrainFrom(args: Args, o: Oracle, attempt: nat, batch: nat, used: nat): Leg
    decreases args.drainBatches + 1 - batch
  {
    if batch > args.drainBatches then Leg([], used, None)
    else if Expired(args, o.batchClock(attempt, batch)) then Leg([Stopped(TimeBudget, Some(attempt))], used, Some(2))
    else if BudgetExhausted(args, used) then Leg(BudgetStop(attempt, used), used, Some(2))
    else
      var limit := BatchLimit(args, used);
      match o.drain(attempt, batch, limit)
      case None => Leg([DrainStopped(attempt, batch, limit)], used, None)
      case Some(got) =>
        var now := used + got.calls;
        var event := DrainBatch(attempt, batch, limit, got.calls, now);
        if !got.continues then Leg([event], now, if got.executed then None else Some(2))
        else if BudgetExhausted(args, now) then Leg([event, BudgetReached(attempt, now)], now, None)
        else
          var rest := DrainFrom(args, o, attempt, batch + 1, now);
          Leg([event] + rest.events, rest.used, rest.exit)
  }

  function PathLeg(args: Args, o: Oracle, attempt: nat, receipt: ReplayReceipt, used: nat): Leg {
    var backoff := PathBackoff(attempt, receipt.missingPaths);
    if !args.executeProvider then Leg([backoff, Stopped(ProviderRequired, Some(attempt))], used, Some(2))
    else if !receipt.hasDecisionRows then Leg([backoff, Failed(NoDecisionRows, attempt)], used, Some(2))
    else if BudgetExhausted(args, used) then Leg([backoff] + BudgetStop(attempt, used), used, Some(2))
    else
      var limit := BatchLimit(args, used);
      var got := o.paths(attempt, limit);
      Leg([backoff, PathBatch(attempt, limit, got.calls, used + got.calls)], used + got.calls,
          if got.executed then None else Some(2))
  }

  /** What follows a replay that has run. */
  function AfterReplay(args: Args, o: Oracle, attempt: nat, used: nat): Leg {
    var r := o.replay(attempt);
    if r.returnCode == 0 then
      if r.receipt.None? then Leg([Failed(NoReceipt, attempt)], used, Some(2))
      else if r.receipt.value.missingPaths > 0 then PathLeg(args, o, attempt, r.receipt.value, used)
      else Leg([Completed(attempt, used)], used, Some(0))
    else if r.backoff.None? then Leg([Failed(NoBackoff, attempt)], used, Some(r.returnCode))
    else if !r.backoff.value.hasArtifact then Leg([Failed(NoArtifact, attempt)], used, Some(2))
    else
      var drained := DrainFrom(args, o, attempt, 1, used);
      Leg([FeatureBackoff(attempt)] + drained.events, drained.used, drained.exit)
  }

  function AttemptLeg(args: Args, o: Oracle, attempt: nat, used: nat): Leg {
    if Expired(args, o.attemptClock(attempt)) then Leg([Stopped(TimeBudget, Some(attempt))], used, Some(2))
    else
      var after := AfterReplay(args, o, attempt, used);
      Leg([Replayed(attempt, o.replay(attempt).returnCode)] + after.events, after.used, after.exit)
  }

  function RunFrom(args: Args, o: Oracle, attempt: nat, used: nat): Leg
    decreases args.maxAttempts + 1 - attempt
  {
    if attempt > args.maxAttempts then Leg([Stopped(MaxAttempts, None)], used, Some(2))
    else
      var leg := AttemptLeg(args, o, attempt, used);
      if leg.exit.Some? then leg
      else
        var rest := RunFrom(args, o, attempt + 1, leg.used);
        Leg(leg.events + rest.events, rest.used, rest.exit)
  }

  function Run(args: Args, o: Oracle): Leg { RunFrom(args, o, 1, 0) }

  // ----- budgets -----

  function CallsOf(e: Event): nat { if e.PathBatch? || e.DrainBatch? then e.calls else 0 }

  predicate Acquisition(e: Event) { e.PathBatch? || e.DrainBatch? || e.DrainStopped? }

  function TotalCalls(events: seq<Event>): nat {
    if events == [] then 0 else CallsOf(events[0]) + TotalCalls(events[1..])
  }

  /**
   Reported totals are running sums; an acquisition asks for at least one call, for a full batch or all that is left,
   and never for more; a reached budget is used up.
   */
  predicate Fits(args: Args, e: Event, used: nat) {
    && (e.PathBatch? || e.DrainBatch? ==> e.used == used + e.calls)
    && (e.BudgetReached? || e.Completed? ==> e.used == used)
    && (e.BudgetReached? ==> 0 < args.maxProviderCalls <= used)
    && (Acquisition(e) ==>
          && 1 <= e.limit <= args.batchSize
          && (args.maxProviderCalls > 0 ==> used + e.limit <= args.maxProviderCalls)
          && (e.limit == args.batchSize || (args.maxProviderCalls > 0 && used + e.limit == args.maxProviderCalls)))
  }

  ghost predicate Accounted(args: Args, events: seq<Event>, used: nat) {
    events != [] ==> Fits(args, events[0], used) && Accounted(args, events[1..], used + CallsOf(events[0]))
  }

  lemma AccountedCons(args: Args, e: Event, rest: seq<Event>, used: nat)
    requires Fits(args, e, used) && Accounted(args, rest, used + CallsOf(e))
    ensures Accounted(args, [e] + rest, used) && TotalCalls([e] + rest) == CallsOf(e) + TotalCalls(rest)
  {
    assert ([e] + rest)[1..] == rest;
  }

  lemma {:induction false} AccountedConcat(args: Args, a: seq<Event>, b: seq<Event>, used: nat)
    requires Accounted(args, a, used) && Accounted(args, b, used + TotalCalls(a))
    ensures Accounted(args, a + b, used) && TotalCalls(a + b) == TotalCalls(a) + TotalCalls(b)
  {
    if a == [] {
      assert a + b == b;
    } else {
      AccountedConcat(args, a[1..], b, used + CallsOf(a[0]));
      assert (a + b)[1..] == a[1..] + b;
    }
  }

  /** A leg's own total, and that every event in it is accounted for. */
  ghost predicate LegAccounted(args: Args, leg: Leg, used: nat) {
    Accounted(args, leg.events, used) && leg.used == used + TotalCalls(leg.events)
  }

  lemma OneAccounted(args: Args, e: Event, used: nat)
    requires Fits(args, e, used)
    ensures Accounted(args, [e], used) && TotalCalls([e]) == CallsOf(e)
  {
    AccountedCons(args, e, [], used);
    assert [e] + [] == [e];
  }

  lemma TwoAccounted(args: Args, e: Event, f: Event, used: nat)
    requires Fits(args, e, used) && Fits(args, f, used + CallsOf(e))
    ensures Accounted(args, [e, f], used) && TotalCalls([e, f]) == CallsOf(e) + CallsOf(f)
  {
    OneAccounted(args, f, used + CallsOf(e));
    AccountedCons(args, e, [f], used);
    assert [e] + [f] == [e, f];
  }

  lemma NothingAccounted(args: Args, used: nat)
    ensures Accounted(args, [], used) && TotalCalls([]) == 0
  {
  }

  lemma {:induction false} DrainAccounted(args: Args, o: Oracle, attempt: nat, batch: nat, used: nat)
    requires ValidArgs(args)
    ensures LegAccounted(args, DrainFrom(args, o, attempt, batch, used), used)
    decreases args.drainBatches + 1 - batch
  {
    hide Accounted, TotalCalls, Expired;
    if batch > args.drainBatches {
      NothingAccounted(args, used);
    } else {
      var limit := BatchLimit(args, used);
      if Expired(args, o.batchClock(attempt, batch)) {
        OneAccounted(args, Stopped(TimeBudget, Some(attempt)), used);
      } else if BudgetExhausted(args, used) {
        TwoAccounted(args, BudgetReached(attempt, used), Stopped(ProviderBudget, Some(attempt)), used);
      } else if o.drain(attempt, batch, limit).None? {
        OneAccounted(args, DrainStopped(attempt, batch, limit), used);
      } else {
        var got := o.drain(attempt, batch, limit).value;
        var now := used + got.calls;
        var event := DrainBatch(attempt, batch, limit, got.calls, now);
        OneAccounted(args, event, used);
        if got.continues {
          if BudgetExhausted(args, now) {
            TwoAccounted(args, event, BudgetReached(attempt, now), used);
          } else {
            DrainAccounted(args, o, attempt, batch + 1, now);
            AccountedCons(args, event, DrainFrom(args, o, attempt, batch + 1, now).events, used);
          }
        }
      }
    }
  }

  lemma PathAccounted(args: Args, o: Oracle, attempt: nat, receipt: ReplayReceipt, used: nat)
    requires ValidArgs(args)
    ensures LegAccounted(args, PathLeg(args, o, attempt, receipt, used), used)
  {
    var backoff := PathBackoff(attempt, receipt.missingPaths);
    var limit := BatchLimit(args, used);
    var got := o.paths(attempt, limit);
    if !args.executeProvider {
      TwoAccounted(args, backoff, Stopped(ProviderRequired, Some(attempt)), used);
    } else if !receipt.hasDecisionRows {
      TwoAccounted(args, backoff, Failed(NoDecisionRows, attempt), used);
    } else if BudgetExhausted(args, used) {
      TwoAccounted(args, BudgetReached(attempt, used), Stopped(ProviderBudget, Some(attempt)), used);
      AccountedCons(args, backoff, BudgetStop(attempt, used), used);
    } else {
      TwoAccounted(args, backoff, PathBatch(attempt, limit, got.calls, used + got.calls), used);
    }
  }

  lemma AttemptAccounted(args: Args, o: Oracle, attempt: nat, used: nat)
    requires ValidArgs(args)
    ensures LegAccounted(args, AttemptLeg(args, o, attempt, used), used)
  {
    var r := o.replay(attempt);
    if Expired(args, o.attemptClock(attempt)) {
      OneAccounted(args, Stopped(TimeBudget, Some(attempt)), used);
    } else {
      var after := AfterReplay(args, o, attempt, used);
      if Lacking(r) {
        PathAccounted(args, o, attempt, r.receipt.value, used);
      } else if BackedOff(r) {
        DrainAccounted(args, o, attempt, 1, used);
        AccountedCons(args, FeatureBackoff(attempt), DrainFrom(args, o, attempt, 1, used).events, used);
      } else {
        OneAccounted(args, after.events[0], used);
      }
      AccountedCons(args, Replayed(attempt, r.returnCode), after.events, used);
    }
  }

  lemma {:induction false} RunAccounted(args: Args, o: Oracle, attempt: nat, used: nat)
    requires ValidArgs(args)
    ensures LegAccounted(args, RunFrom(args, o, attempt, used), used)
    decreases args.maxAttempts + 1 - attempt
  {
    hide AttemptLeg, Accounted;
    if attempt <= args.maxAttempts {
      AttemptAccounted(args, o, attempt, used);
      var leg := AttemptLeg(args, o, attempt, used);
      if leg.exit.None? {
        RunAccounted(args, o, attempt + 1, leg.used);
        AccountedConcat(args, leg.events, RunFrom(args, o, attempt + 1, leg.used).events, used);
      }
    } else {
      OneAccounted(args, Stopped(MaxAttempts, None), used);
    }
  }

  /** Every acquisition reported at most the limit it was given. */
  predicate WithinLimits(events: seq<Event>) {
    forall e :: e in events && (e.PathBatch? || e.DrainBatch?) ==> e.calls <= e.limit
  }

  lemma {:induction false} AccountedStaysInBudget(args: Args, events: seq<Event>, used: nat)
    requires Accounted(args, events, used) && WithinLimits(events)
    requires 0 < args.maxProviderCalls && used <= args.maxProviderCalls
    ensures forall k :: 0 <= k <= |events| ==> used + TotalCalls(events[..k]) <= args.maxProviderCalls
  {
    if events != [] {
      var e := events[0];
      assert e in events;
      AccountedStaysInBudget(args, events[1..], used + CallsOf(e));
      forall k | 0 <= k <= |events| ensures used + TotalCalls(events[..k]) <= args.maxProviderCalls {
        if k > 0 {
          assert events[..k][1..] == events[1..][..k - 1];
        }
      }
    }
  }

  /**
   With a provider budget, the calls used never exceed it at any point of the run, as long as every acquisition
   reports at most the limit it was given; and no acquisition is ever asked for more than what is left.
   */
  lemma ProviderBudgetHolds(args: Args, o: Oracle)
    requires ValidArgs(args) && args.maxProviderCalls > 0
    ensures var events := Run(args, o).events;
            && Accounted(args, events, 0)
            && (WithinLimits(events) ==>
                  forall k :: 0 <= k <= |events| ==> TotalCalls(events[..k]) <= args.maxProviderCalls)
  {
    RunAccounted(args, o, 1, 0);
    if WithinLimits(Run(args, o).events) {
      AccountedStaysInBudget(args, Run(args, o).events, 0);
    }
  }

  function Count(events: seq<Event>, p: Event -> bool): nat {
    if events == [] then 0 else (if p(events[0]) then 1 else 0) + Count(events[1..], p)
  }

  lemma {:induction false} CountConcat(a: seq<Event>, b: seq<Event>, p: Event -> bool)
    ensures Count(a + b, p) == Count(a, p) + Count(b, p)
  {
    if a == [] {
      assert a + b == b;
    } else {
      CountConcat(a[1..], b, p);
      assert (a + b)[1..] == a[1..] + b;
    }
  }

  lemma CountCons(e: Event, rest: seq<Event>, p: Event -> bool)
    ensures Count([e] + rest, p) == (if p(e) then 1 else 0) + Count(rest, p)
  {
    assert ([e] + rest)[1..] == rest;
  }

  lemma {:induction false} CountNone(events: seq<Event>, p: Event -> bool)
    requires forall e :: e in events ==> !p(e)
    ensures Count(events, p) == 0
  {
    if events != [] {
      CountNone(events[1..], p);
    }
  }

  const IsAcquisition: Event -> bool := (e: Event) => Acquisition(e)
  const IsReplay: Event -> bool := (e: Event) => e.Replayed?

  lemma {:induction false} TotalWithin(events: seq<Event>, n: nat, limit: nat)
    requires WithinLimits(events) && Count(events, IsAcquisition) <= n
    requires forall e :: e in events && Acquisition(e) ==> e.limit <= limit
    ensures TotalCalls(events) <= n * limit
    decreases |events|
  {
    if events != [] {
      assert events[0] in events;
      if Acquisition(events[0]) {
        TotalWithin(events[1..], n - 1, limit);
        assert (n - 1) * limit + limit == n * limit;
      } else {
        TotalWithin(events[1..], n, limit);
      }
    }
  }

  lemma {:induction false} DrainCounts(args: Args, o: Oracle, attempt: nat, batch: nat, used: nat)
    ensures Count(DrainFrom(args, o, attempt, batch, used).events, IsAcquisition)
         <= Max(0, args.drainBatches + 1 - batch)
    ensures Count(DrainFrom(args, o, attempt, batch, used).events, IsReplay) == 0
    decreases args.drainBatches + 1 - batch
  {
    hide Count, Expired, BudgetExhausted, BatchLimit;
    var leg := DrainFrom(args, o, attempt, batch, used);
    var limit := BatchLimit(args, used);
    if batch > args.drainBatches || Expired(args, o.batchClock(attempt, batch)) || BudgetExhausted(args, used) {
      CountNone(leg.events, IsAcquisition);
      CountNone(leg.events, IsReplay);
    } else if o.drain(attempt, batch, limit).None? {
      assert leg.events == [leg.events[0]] + [];
      CountCons(leg.events[0], [], IsAcquisition);
      CountCons(leg.events[0], [], IsReplay);
      CountNone([], IsAcquisition);
      CountNone([], IsReplay);
    } else {
      var got := o.drain(attempt, batch, limit).value;
      var now := used + got.calls;
      var event := DrainBatch(attempt, batch, limit, got.calls, now);
      var rest := if !got.continues then []
                  else if BudgetExhausted(args, now) then [BudgetReached(attempt, now)]
                  else DrainFrom(args, o, attempt, batch + 1, now).events;
      if got.continues && !BudgetExhausted(args, now) {
        DrainCounts(args, o, attempt, batch + 1, now);
      } else {
        CountNone(rest, IsAcquisition);
        CountNone(rest, IsReplay);
      }
      assert leg.events == [event] + rest;
      CountCons(event, rest, IsAcquisition);
      CountCons(event, rest, IsReplay);
    }
  }

  lemma PathCounts(args: Args, o: Oracle, attempt: nat, receipt: ReplayReceipt, used: nat)
    ensures Count(PathLeg(args, o, attempt, receipt, used).events, IsAcquisition) <= 1
    ensures Count(PathLeg(args, o, attempt, receipt, used).events, IsReplay) == 0
  {
    var events := PathLeg(args, o, attempt, receipt, used).events;
    CountNone(events, IsReplay);
    assert events == [events[0]] + events[1..];
    CountCons(events[0], events[1..], IsAcquisition);
    if events[1].PathBatch? {
      assert events[1..] == [events[1]] + [];
      CountCons(events[1], [], IsAcquisition);
    } else {
      CountNone(events[1..], IsAcquisition);
    }
  }

  lemma AfterReplayCounts(args: Args, o: Oracle, attempt: nat, used: nat)
    requires ValidArgs(args)
    ensures Count(AfterReplay(args, o, attempt, used).events, IsAcquisition) <= args.drainBatches
    ensures Count(AfterReplay(args, o, attempt, used).events, IsReplay) == 0
  {
    var r := o.replay(attempt);
    var after := AfterReplay(args, o, attempt, used);
    if Lacking(r) {
      PathCounts(args, o, attempt, r.receipt.value, used);
    } else if BackedOff(r) {
      DrainCounts(args, o, attempt, 1, used);
      CountCons(FeatureBackoff(attempt), DrainFrom(args, o, attempt, 1, used).events, IsAcquisition);
      CountCons(FeatureBackoff(attempt), DrainFrom(args, o, attempt, 1, used).events, IsReplay);
    } else {
      CountNone(after.events, IsAcquisition);
      CountNone(after.events, IsReplay);
    }
  }

  /** One attempt replays at most once and starts at most `drainBatches` acquisitions. */
  lemma AttemptCounts(args: Args, o: Oracle, attempt: nat, used: nat)
    requires ValidArgs(args)
    ensures Count(AttemptLeg(args, o, attempt, used).events, IsAcquisition) <= args.drainBatches
    ensures Count(AttemptLeg(args, o, attempt, used).events, IsReplay) <= 1
  {
    var after := AfterReplay(args, o, attempt, used).events;
    AfterReplayCounts(args, o, attempt, used);
    CountCons(Replayed(attempt, o.replay(attempt).returnCode), after, IsAcquisition);
    CountCons(Replayed(attempt, o.replay(attempt).returnCode), after, IsReplay);
  }

  function AttemptsLeft(args: Args, attempt: nat): nat { Max(0, args.maxAttempts + 1 - attempt) }

  function Quota(left: nat, each: nat): nat { if left == 0 then 0 else each + Quota(left - 1, each) }

  lemma {:induction false} QuotaIsProduct(left: nat, each: nat)
    ensures Quota(left, each) == left * each
  {
    if left > 0 {
      QuotaIsProduct(left - 1, each);
      assert left * each == each + (left - 1) * each;
    }
  }

  lemma {:induction false} RunAcquires(args: Args, o: Oracle, attempt: nat, used: nat)
    requires ValidArgs(args)
    ensures Count(RunFrom(args, o, attempt, used).events, IsAcquisition)
         <= Quota(AttemptsLeft(args, attempt), args.drainBatches)
    decreases args.maxAttempts + 1 - attempt
  {
    if attempt > args.maxAttempts {
      CountNone([Stopped(MaxAttempts, None)], IsAcquisition);
    } else {
      AttemptCounts(args, o, attempt, used);
      var leg := AttemptLeg(args, o, attempt, used);
      if leg.exit.None? {
        RunAcquires(args, o, attempt + 1, leg.used);
        CountConcat(leg.events, RunFrom(args, o, attempt + 1, leg.used).events, IsAcquisition);
      }
    }
  }

  lemma {:induction false} RunReplaysFew(args: Args, o: Oracle, attempt: nat, used: nat)
    requires ValidArgs(args)
    ensures Count(RunFrom(args, o, attempt, used).events, IsReplay) <= AttemptsLeft(args, attempt)
    decreases args.maxAttempts + 1 - attempt
  {
    if attempt > args.maxAttempts {
      CountNone([Stopped(MaxAttempts, None)], IsReplay);
    } else {
      AttemptCounts(args, o, attempt, used);
      var leg := AttemptLeg(args, o, attempt, used);
      if leg.exit.None? {
        RunReplaysFew(args, o, attempt + 1, leg.used);
        CountConcat(leg.events, RunFrom(args, o, attempt + 1, leg.used).events, IsReplay);
      }
    }
  }

  lemma {:induction false} LimitsInBatch(args: Args, events: seq<Event>, used: nat, e: Event)
    requires Accounted(args, events, used) && e in events && Acquisition(e)
    ensures e.limit <= args.batchSize
  {
    if e != events[0] {
      LimitsInBatch(args, events[1..], used + CallsOf(events[0]), e);
    }
  }

  /** Budget or no budget: at most `maxAttempts` replays, and attempts * drain batches * batch size provider calls. */
  lemma RunBounded(args: Args, o: Oracle)
    requires ValidArgs(args)
    ensures Count(Run(args, o).events, IsReplay) <= args.maxAttempts
    ensures WithinLimits(Run(args, o).events)
        ==> TotalCalls(Run(args, o).events) <= args.maxAttempts * args.drainBatches * args.batchSize
  {
    var events := Run(args, o).events;
    RunAccounted(args, o, 1, 0);
    RunAcquires(args, o, 1, 0);
    QuotaIsProduct(args.maxAttempts, args.drainBatches);
    RunReplaysFew(args, o, 1, 0);
    forall e | e in events && Acquisition(e) ensures e.limit <= args.batchSize {
      LimitsInBatch(args, events, 0, e);
    }
    if WithinLimits(events) {
      TotalWithin(events, args.maxAttempts * args.drainBatches, args.batchSize);
    }
  }

  // ----- what the trace means -----

  /** Each event states a fact about the run: what was asked, under which conditions it could be emitted. */
  ghost predicate Sound(args: Args, o: Oracle, e: Event) {
    match e
    case Replayed(a, code) =>
      1 <= a <= args.maxAttempts && InTime(args, o.attemptClock(a)) && code == o.replay(a).returnCode
    case PathBackoff(a, n) => Lacking(o.replay(a)) && n == o.replay(a).receipt.value.missingPaths
    case PathBatch(a, limit, calls, _) =>
      args.executeProvider && Lacking(o.replay(a)) && o.replay(a).receipt.value.hasDecisionRows
      && calls == o.paths(a, limit).calls
    case FeatureBackoff(a) => BackedOff(o.replay(a))
    case DrainBatch(a, b, limit, calls, _) =>
      1 <= b <= args.drainBatches && InTime(args, o.batchClock(a, b)) && BackedOff(o.replay(a))
      && o.drain(a, b, limit).Some? && calls == o.drain(a, b, limit).value.calls
    case DrainStopped(a, b, limit) =>
      1 <= b <= args.drainBatches && InTime(args, o.batchClock(a, b)) && BackedOff(o.replay(a))
          && o.drain(a, b, limit).None?
    case Completed(a, _) =>
      o.replay(a).returnCode == 0 && o.replay(a).receipt.Some? && o.replay(a).receipt.value.missingPaths <= 0
    case Stopped(TimeBudget, Some(a)) => !InTime(args, o.attemptClock(a)) || RanOut(args, o, a)
    case _ => true
  }

  /** A time budget of zero or less is none; otherwise the clock still shows less than it. */
  ghost predicate InTime(args: Args, elapsed: real) { args.maxSeconds > 0.0 ==> elapsed < args.maxSeconds }

  ghost predicate RanOut(args: Args, o: Oracle, attempt: nat) {
    exists b: nat :: 1 <= b <= args.drainBatches && !InTime(args, o.batchClock(attempt, b))
  }

  predicate Lacking(r: Replay) { r.returnCode == 0 && r.receipt.Some? && r.receipt.value.missingPaths > 0 }

  predicate BackedOff(r: Replay) { r.returnCode != 0 && r.backoff.Some? && r.backoff.value.hasArtifact }

  predicate Terminal(e: Event) { e.Completed? || e.Failed? || e.Stopped? }

  /** Only the last event may be terminal, a leg that goes on has none, and exit 0 means a last `Completed`. */
  ghost predicate Ends(leg: Leg) {
    && (forall i :: 0 <= i < |leg.events| - 1 ==> !Terminal(leg.events[i]))
    && (leg.exit.None? ==> forall e :: e in leg.events ==> !Terminal(e))
    && (leg.exit.Some? ==> leg.events != [] && (leg.exit.value == 0 <==> leg.events[|leg.events| - 1].Completed?))
  }

  ghost predicate AllOf(events: seq<Event>, attempt: nat) {
    forall e :: e in events ==> AttemptOf(e) == Some(attempt)
  }

  function AttemptOf(e: Event): Option<nat> {
    match e
    case Replayed(a, _) => Some(a)
    case PathBackoff(a, _) => Some(a)
    case PathBatch(a, _, _, _) => Some(a)
    case FeatureBackoff(a) => Some(a)
    case DrainBatch(a, _, _, _, _) => Some(a)
    case DrainStopped(a, _, _) => Some(a)
    case BudgetReached(a, _) => Some(a)
    case Stopped(_, a) => a
    case Failed(_, a) => Some(a)
    case Completed(a, _) => Some(a)
  }

  lemma {:induction false} DrainSound(args: Args, o: Oracle, attempt: nat, batch: nat, used: nat)
    requires BackedOff(o.replay(attempt)) && batch >= 1
    ensures var leg := DrainFrom(args, o, attempt, batch, used);
            && (forall e :: e in leg.events ==> Sound(args, o, e) && !e.Replayed? && !e.Completed?)
            && AllOf(leg.events, attempt)
    decreases args.drainBatches + 1 - batch
  {
    var limit := BatchLimit(args, used);
    if batch <= args.drainBatches && o.drain(attempt, batch, limit).Some? {
      var now := used + o.drain(attempt, batch, limit).value.calls;
      DrainSound(args, o, attempt, batch + 1, now);
    }
  }

  lemma {:induction false} DrainEnds(args: Args, o: Oracle, attempt: nat, batch: nat, used: nat)
    ensures var leg := DrainFrom(args, o, attempt, batch, used);
            Ends(leg) && (leg.exit.Some? ==> leg.exit.value == 2)
    decreases args.drainBatches + 1 - batch
  {
    var limit := BatchLimit(args, used);
    if batch <= args.drainBatches && o.drain(attempt, batch, limit).Some? {
      var now := used + o.drain(attempt, batch, limit).value.calls;
      DrainEnds(args, o, attempt, batch + 1, now);
    }
  }

  lemma AfterReplayMeaning(args: Args, o: Oracle, attempt: nat, used: nat)
    ensures var leg := AfterReplay(args, o, attempt, used);
            && (forall e :: e in leg.events ==> Sound(args, o, e) && !e.Replayed?)
            && AllOf(leg.events, attempt) && Ends(leg) && leg.events != []
            && (leg.exit == Some(0) ==> leg.events == [Completed(attempt, used)])
  {
    if BackedOff(o.replay(attempt)) {
      DrainSound(args, o, attempt, 1, used);
      DrainEnds(args, o, attempt, 1, used);
    }
  }

  /** The first event of an attempt that starts is its replay, and it has no other. */
  lemma AttemptMeaning(args: Args, o: Oracle, attempt: nat, used: nat)
    requires 1 <= attempt <= args.maxAttempts
    ensures var leg := AttemptLeg(args, o, attempt, used);
            && (forall e :: e in leg.events ==> Sound(args, o, e))
            && AllOf(leg.events, attempt) && Ends(leg) && leg.events != []
            && (forall i :: 1 <= i < |leg.events| ==> !leg.events[i].Replayed?)
            && (leg.exit == Some(0) ==> leg.events == [Replayed(attempt, 0), Completed(attempt, used)])
  {
    if !Expired(args, o.attemptClock(attempt)) {
      AfterReplayMeaning(args, o, attempt, used);
    }
  }

  /** Attempt numbers never fall along the trace, and each replay has a number of its own. */
  ghost predicate Ordered(events: seq<Event>) {
    forall i, j :: 0 <= i < j < |events| && AttemptOf(events[i]).Some? && AttemptOf(events[j]).Some? ==>
      && AttemptOf(events[i]).value <= AttemptOf(events[j]).value
      && (events[i].Replayed? && events[j].Replayed? ==> events[i].attempt < events[j].attempt)
  }

  ghost predicate From(events: seq<Event>, attempt: nat) {
    forall e :: e in events && AttemptOf(e).Some? ==> AttemptOf(e).value >= attempt
  }

  lemma {:induction false} RunSound(args: Args, o: Oracle, attempt: nat, used: nat)
    requires attempt >= 1
    ensures forall e :: e in RunFrom(args, o, attempt, used).events ==> Sound(args, o, e)
    decreases args.maxAttempts + 1 - attempt
  {
    if attempt <= args.maxAttempts {
      AttemptMeaning(args, o, attempt, used);
      var leg := AttemptLeg(args, o, attempt, used);
      if leg.exit.None? {
        RunSound(args, o, attempt + 1, leg.used);
        assert RunFrom(args, o, attempt, used).events == leg.events + RunFrom(args, o, attempt + 1, leg.used).events;
      }
    }
  }

  lemma OrderedShort(attempt: nat)
    ensures Ordered([]) && From([], attempt)
    ensures Ordered([Stopped(MaxAttempts, None)]) && From([Stopped(MaxAttempts, None)], attempt)
  {
  }

  lemma {:induction false} RunOrdered(args: Args, o: Oracle, attempt: nat, used: nat)
    requires attempt >= 1
    ensures Ordered(RunFrom(args, o, attempt, used).events) && From(RunFrom(args, o, attempt, used).events, attempt)
    decreases args.maxAttempts + 1 - attempt
  {
    hide Ordered, From, AttemptLeg, AllOf, Sound, Ends;
    OrderedShort(attempt);
    if attempt <= args.maxAttempts {
      AttemptMeaning(args, o, attempt, used);
      var leg := AttemptLeg(args, o, attempt, used);
      var rest := if leg.exit.None? then RunFrom(args, o, attempt + 1, leg.used).events else [];
      if leg.exit.None? {
        RunOrdered(args, o, attempt + 1, leg.used);
      }
      OrderedConcat(leg.events, rest, attempt);
      assert RunFrom(args, o, attempt, used).events == leg.events + rest;
    }
  }

  /** A zero exit ends in the replay that succeeded and its completion. */
  ghost predicate CompletedAfterReplay(leg: Leg) {
    var n := |leg.events|;
    leg.exit == Some(0) ==>
      n >= 2 && leg.events[n - 1].Completed? && leg.events[n - 2] == Replayed(leg.events[n - 1].attempt, 0)
  }

  lemma {:induction false} RunEnds(args: Args, o: Oracle, attempt: nat, used: nat)
    requires attempt >= 1
    ensures var leg := RunFrom(args, o, attempt, used);
            Ends(leg) && leg.exit.Some? && CompletedAfterReplay(leg)
    decreases args.maxAttempts + 1 - attempt
  {
    if attempt <= args.maxAttempts {
      AttemptMeaning(args, o, attempt, used);
      var leg := AttemptLeg(args, o, attempt, used);
      if leg.exit.None? {
        RunEnds(args, o, attempt + 1, leg.used);
        EndsConcat(leg, RunFrom(args, o, attempt + 1, leg.used));
      }
    }
  }

  lemma OrderedConcat(a: seq<Event>, b: seq<Event>, attempt: nat)
    requires AllOf(a, attempt) && Ordered(b) && From(b, attempt + 1)
    requires forall i :: 1 <= i < |a| ==> !a[i].Replayed?
    ensures Ordered(a + b) && From(a + b, attempt)
  {
    var all := a + b;
    forall i, j | 0 <= i < j < |all| && AttemptOf(all[i]).Some? && AttemptOf(all[j]).Some?
      ensures AttemptOf(all[i]).value <= AttemptOf(all[j]).value
           && (all[i].Replayed? && all[j].Replayed? ==> all[i].attempt < all[j].attempt)
    {
      if i < |a| {
        assert all[i] in a;
        if j < |a| {
          assert all[j] in a;
        } else {
          assert all[j] in b;
        }
      }
    }
  }

  lemma EndsConcat(leg: Leg, rest: Leg)
    requires Ends(leg) && Ends(rest) && leg.exit.None? && rest.exit.Some?
    ensures Ends(Leg(leg.events + rest.events, rest.used, rest.exit))
  {
    var all := leg.events + rest.events;
    forall i | 0 <= i < |all| - 1 ensures !Terminal(all[i]) {
      if i < |leg.events| {
        assert all[i] in leg.events;
      }
    }
  }

  /**
   Every run ends. Exit code 0 means exactly that the last event is `Completed`, which occurs nowhere else and
   directly follows the replay of the same attempt, returned 0 with a receipt and no missing paths. Contract paths
   are acquired only when provider execution was requested, and no replay or drain batch starts on an expired clock.
   */
  lemma TraceMeaning(args: Args, o: Oracle)
    ensures var leg := Run(args, o);
            var last := |leg.events| - 1;
            && leg.exit.Some? && leg.events != []
            && (leg.exit.value == 0 <==> leg.events[last].Completed?)
            && (forall i :: 0 <= i < last ==> !Terminal(leg.events[i]))
            && (leg.exit.value == 0 ==> last >= 1 && leg.events[last - 1] == Replayed(leg.events[last].attempt, 0))
            && (forall e :: e in leg.events ==> Sound(args, o, e))
            && Ordered(leg.events)
  {
    RunSound(args, o, 1, 0);
    RunOrdered(args, o, 1, 0);
    RunEnds(args, o, 1, 0);
  }

  /** The clock has not run out at the first attempt and has at every later reading. */
  ghost predicate RunsOutDuringReplay(args: Args, o: Oracle) {
    && !Expired(args, o.attemptClock(1))
    && (forall a: nat :: a > 1 ==> Expired(args, o.attemptClock(a)))
    && (forall a: nat, b: nat :: Expired(args, o.batchClock(a, b)))
  }

  /**
   Contract paths are acquired without reading the clock: when it runs out during the replay, the paths of that
   attempt are still acquired, and only the next attempt is stopped.
   */
  lemma PathsCanStartLate(args: Args, o: Oracle)
    requires ValidArgs(args) && args.maxAttempts > 1 && args.executeProvider && RunsOutDuringReplay(args, o)
    requires Lacking(o.replay(1)) && o.replay(1).receipt.value.hasDecisionRows
    requires var limit := BatchLimit(args, 0); o.paths(1, limit).executed
    ensures var limit, events := BatchLimit(args, 0), Run(args, o).events;
            && |events| == 4 && events[2] == PathBatch(1, limit, o.paths(1, limit).calls, o.paths(1, limit).calls)
            && events[3] == Stopped(TimeBudget, Some(2))
  {
    var limit := BatchLimit(args, 0);
    var got := o.paths(1, limit);
    assert PathLeg(args, o, 1, o.replay(1).receipt.value, 0).exit.None?;
    assert AttemptLeg(args, o, 1, 0).events
        == [Replayed(1, 0), PathBackoff(1, o.replay(1).receipt.value.missingPaths),
            PathBatch(1, limit, got.calls, got.calls)];
    assert RunFrom(args, o, 2, got.calls).events == [Stopped(TimeBudget, Some(2))];
  }

  // ----- when contract paths are acquired -----

  /** The attempt's replay succeeded and lacks paths it may and can still ask for. */
  predicate WantsPaths(args: Args, o: Oracle, attempt: nat, used: nat) {
    && Lacking(o.replay(attempt)) && args.executeProvider && o.replay(attempt).receipt.value.hasDecisionRows
    && !BudgetExhausted(args, used)
  }

  predicate PathsOf(e: Event, attempt: nat) { e.PathBatch? && e.attempt == attempt }

  predicate ReplayOf(e: Event, attempt: nat) { e.Replayed? && e.attempt == attempt }

  predicate AcquiresAt(events: seq<Event>, attempt: nat, i: nat) { i < |events| && PathsOf(events[i], attempt) }

  ghost predicate AcquiresPaths(events: seq<Event>, attempt: nat) { exists i: nat :: AcquiresAt(events, attempt, i) }

  /** Event i is the attempt's replay, and with the calls made until then its paths are wanted. */
  ghost predicate WantsPathsAt(args: Args, o: Oracle, events: seq<Event>, used: nat, attempt: nat, i: nat) {
    && i < |events| && ReplayOf(events[i], attempt)
    && WantsPaths(args, o, attempt, used + TotalCalls(events[..i]))
  }

  ghost predicate ReplayWantsPaths(args: Args, o: Oracle, events: seq<Event>, used: nat, attempt: nat) {
    exists i: nat :: WantsPathsAt(args, o, events, used, attempt, i)
  }

  /** One attempt acquires paths exactly when it starts in time and wants them. */
  lemma AttemptAcquiresIff(args: Args, o: Oracle, attempt: nat, used: nat)
    requires 1 <= attempt <= args.maxAttempts
    ensures var events := AttemptLeg(args, o, attempt, used).events;
            AcquiresPaths(events, attempt) == ReplayWantsPaths(args, o, events, used, attempt)
  {
    var leg := AttemptLeg(args, o, attempt, used);
    AttemptMeaning(args, o, attempt, used);
    forall i: nat | WantsPathsAt(args, o, leg.events, used, attempt, i) ensures i == 0 {
    }
    if !Expired(args, o.attemptClock(attempt)) {
      assert leg.events[0].Replayed? && leg.events[..0] == [];
      assert WantsPathsAt(args, o, leg.events, used, attempt, 0) <==> WantsPaths(args, o, attempt, used);
      if WantsPaths(args, o, attempt, used) {
        assert AcquiresAt(leg.events, attempt, 2);
      } else {
        NoPathBatch(args, o, attempt, used);
      }
    }
  }

  lemma {:induction false} DrainAcquiresNone(args: Args, o: Oracle, attempt: nat, batch: nat, used: nat)
    ensures forall e :: e in DrainFrom(args, o, attempt, batch, used).events ==> !e.PathBatch?
    decreases args.drainBatches + 1 - batch
  {
    var limit := BatchLimit(args, used);
    if batch <= args.drainBatches && o.drain(attempt, batch, limit).Some? {
      DrainAcquiresNone(args, o, attempt, batch + 1, used + o.drain(attempt, batch, limit).value.calls);
    }
  }

  lemma NoPathBatch(args: Args, o: Oracle, attempt: nat, used: nat)
    requires !WantsPaths(args, o, attempt, used)
    ensures forall e :: e in AttemptLeg(args, o, attempt, used).events ==> !e.PathBatch?
  {
    DrainAcquiresNone(args, o, attempt, 1, used);
  }

  /** Both sides of the equivalence are those of the attempt's own part of the trace. */
  lemma OwnPart(args: Args, o: Oracle, a: seq<Event>, b: seq<Event>, used: nat, attempt: nat)
    ensures AcquiresPaths(a + b, attempt) == (AcquiresPaths(a, attempt) || AcquiresPaths(b, attempt))
    ensures ReplayWantsPaths(args, o, a + b, used, attempt)
         == (ReplayWantsPaths(args, o, a, used, attempt)
             || ReplayWantsPaths(args, o, b, used + TotalCalls(a), attempt))
  {
    hide AcquiresAt, WantsPathsAt;
    var later := used + TotalCalls(a);
    if i: nat :| AcquiresAt(a + b, attempt, i) {
      InOnePart(args, o, a, b, used, attempt, i);
      assert AcquiresAt(a, attempt, i) || AcquiresAt(b, attempt, i - |a|);
    }
    if i: nat :| WantsPathsAt(args, o, a + b, used, attempt, i) {
      InOnePart(args, o, a, b, used, attempt, i);
      assert WantsPathsAt(args, o, a, used, attempt, i) || WantsPathsAt(args, o, b, later, attempt, i - |a|);
    }
    if i: nat :| AcquiresAt(a, attempt, i) {
      InLength(args, o, a, used, attempt, i);
      PlaceInFirst(args, o, a, b, used, attempt, i);
    }
    if i: nat :| WantsPathsAt(args, o, a, used, attempt, i) {
      InLength(args, o, a, used, attempt, i);
      PlaceInFirst(args, o, a, b, used, attempt, i);
    }
    if i: nat :| AcquiresAt(b, attempt, i) {
      PlaceInSecond(args, o, a, b, used, attempt, i);
    }
    if i: nat :| WantsPathsAt(args, o, b, later, attempt, i) {
      PlaceInSecond(args, o, a, b, used, attempt, i);
    }
  }

  lemma InLength(args: Args, o: Oracle, events: seq<Event>, used: nat, attempt: nat, i: nat)
    requires AcquiresAt(events, attempt, i) || WantsPathsAt(args, o, events, used, attempt, i)
    ensures i < |events|
  {
  }

  lemma InOnePart(args: Args, o: Oracle, a: seq<Event>, b: seq<Event>, used: nat, attempt: nat, i: nat)
    ensures AcquiresAt(a + b, attempt, i) ==> AcquiresAt(a, attempt, i) || (i >= |a| && AcquiresAt(b, attempt, i - |a|))
    ensures WantsPathsAt(args, o, a + b, used, attempt, i) ==>
        || WantsPathsAt(args, o, a, used, attempt, i)
        || (i >= |a| && WantsPathsAt(args, o, b, used + TotalCalls(a), attempt, i - |a|))
  {
    hide AcquiresAt, WantsPathsAt;
    if i < |a| {
      PlaceInFirst(args, o, a, b, used, attempt, i);
    } else {
      PlaceInSecond(args, o, a, b, used, attempt, i - |a|);
    }
  }

  lemma PlaceInFirst(args: Args, o: Oracle, a: seq<Event>, b: seq<Event>, used: nat, attempt: nat, i: nat)
    requires i < |a|
    ensures AcquiresAt(a + b, attempt, i) == AcquiresAt(a, attempt, i)
    ensures WantsPathsAt(args, o, a + b, used, attempt, i) == WantsPathsAt(args, o, a, used, attempt, i)
  {
    hide *;
    assert (a + b)[..i] == a[..i];
    SamePlace(args, o, a + b, i, used, a, i, used, attempt);
  }

  lemma PlaceInSecond(args: Args, o: Oracle, a: seq<Event>, b: seq<Event>, used: nat, attempt: nat, i: nat)
    ensures AcquiresAt(a + b, attempt, |a| + i) == AcquiresAt(b, attempt, i)
    ensures WantsPathsAt(args, o, a + b, used, attempt, |a| + i)
         == WantsPathsAt(args, o, b, used + TotalCalls(a), attempt, i)
  {
    hide *;
    if i < |b| {
      CallsUpTo(a, b, i);
    }
    SamePlace(args, o, a + b, |a| + i, used, b, i, used + TotalCalls(a), attempt);
  }

  /** Two places of two traces with the same event behind the same number of calls. */
  lemma SamePlace(args: Args, o: Oracle, a: seq<Event>, i: nat, used: nat, b: seq<Event>, j: nat, later: nat,
                  attempt: nat)
    requires i < |a| <==> j < |b|
    requires i < |a| ==> a[i] == b[j] && used + TotalCalls(a[..i]) == later + TotalCalls(b[..j])
    ensures AcquiresAt(a, attempt, i) == AcquiresAt(b, attempt, j)
    ensures WantsPathsAt(args, o, a, used, attempt, i) == WantsPathsAt(args, o, b, later, attempt, j)
  {
    hide WantsPaths, TotalCalls, PathsOf, ReplayOf;
  }

  lemma CallsUpTo(a: seq<Event>, b: seq<Event>, i: nat)
    requires i < |b|
    ensures (a + b)[|a| + i] == b[i] && TotalCalls((a + b)[..|a| + i]) == TotalCalls(a) + TotalCalls(b[..i])
  {
    hide TotalCalls;
    assert (a + b)[..|a| + i] == a + b[..i];
    CallsConcat(a, b[..i]);
  }

  lemma {:induction false} CallsConcat(a: seq<Event>, b: seq<Event>)
    ensures TotalCalls(a + b) == TotalCalls(a) + TotalCalls(b)
  {
    if a == [] {
      assert a + b == b;
    } else {
      CallsConcat(a[1..], b);
      assert (a + b)[1..] == a[1..] + b;
    }
  }

  lemma OtherAttempts(args: Args, o: Oracle, events: seq<Event>, used: nat, attempt: nat)
    requires forall e :: e in events ==> AttemptOf(e) != Some(attempt)
    ensures !AcquiresPaths(events, attempt) && !ReplayWantsPaths(args, o, events, used, attempt)
  {
    hide WantsPaths, TotalCalls;
    forall i: nat | i < |events|
      ensures !AcquiresAt(events, attempt, i) && !WantsPathsAt(args, o, events, used, attempt, i)
    {
      assert events[i] in events;
    }
  }

  lemma {:induction false} AcquiresFromIff(args: Args, o: Oracle, first: nat, used: nat, attempt: nat)
    requires ValidArgs(args) && first >= 1
    ensures var events := RunFrom(args, o, first, used).events;
            AcquiresPaths(events, attempt) == ReplayWantsPaths(args, o, events, used, attempt)
    decreases args.maxAttempts + 1 - first
  {
    hide AcquiresPaths, ReplayWantsPaths, AttemptLeg;
    if first > args.maxAttempts {
      OtherAttempts(args, o, RunFrom(args, o, first, used).events, used, attempt);
    } else {
      var leg := AttemptLeg(args, o, first, used);
      AttemptMeaning(args, o, first, used);
      AttemptAccounted(args, o, first, used);
      if first == attempt {
        AttemptAcquiresIff(args, o, attempt, used);
      } else {
        OtherAttempts(args, o, leg.events, used, attempt);
      }
      if leg.exit.None? {
        AcquiresFromIff(args, o, first + 1, leg.used, attempt);
        OwnPart(args, o, leg.events, RunFrom(args, o, first + 1, leg.used).events, used, attempt);
      }
    }
  }

  /**
   An attempt of a run acquires contract paths exactly when its replay took place and returned 0 with a receipt of
   missing paths and decision rows, provider calls are permitted, and the calls made until then leave budget. No
   clock has a part in it beyond the one that let the replay start.
   */
  lemma PathsAcquiredIff(args: Args, o: Oracle, attempt: nat)
    requires ValidArgs(args)
    ensures var events := Run(args, o).events;
            AcquiresPaths(events, attempt) <==> ReplayWantsPaths(args, o, events, 0, attempt)
  {
    AcquiresFromIff(args, o, 1, 0, attempt);
  }

  // ----- the run, event by event -----

  /** What comes after an event: another event of the attempt, the next attempt, or the end with an exit code. */
  datatype Step = Emit(event: Event) | NextAttempt | Exit(code: int)

  /** The event an attempt begins with; after the last attempt the run stops. */
  function Begin(args: Args, o: Oracle, attempt: nat): Event {
    if attempt > args.maxAttempts then Stopped(MaxAttempts, None)
    else if Expired(args, o.attemptClock(attempt)) then Stopped(TimeBudget, Some(attempt))
    else Replayed(attempt, o.replay(attempt).returnCode)
  }

  function AfterReplayed(o: Oracle, attempt: nat, used: nat): Event {
    var r := o.replay(attempt);
    match (r.returnCode == 0, r.receipt, r.backoff)
    case (true, None, _) => Failed(NoReceipt, attempt)
    case (true, Some(got), _) =>
      if got.missingPaths > 0 then PathBackoff(attempt, got.missingPaths) else Completed(attempt, used)
    case (false, _, None) => Failed(NoBackoff, attempt)
    case (false, _, Some(got)) => if got.hasArtifact then FeatureBackoff(attempt) else Failed(NoArtifact, attempt)
  }

  function AfterPathBackoff(args: Args, o: Oracle, attempt: nat, used: nat): Event {
    if !args.executeProvider then Stopped(ProviderRequired, Some(attempt))
    else if o.replay(attempt).receipt.Some? && !o.replay(attempt).receipt.value.hasDecisionRows then
      Failed(NoDecisionRows, attempt)
    else if BudgetExhausted(args, used) then BudgetReached(attempt, used)
    else
      var limit := BatchLimit(args, used);
      var calls := o.paths(attempt, limit).calls;
      PathBatch(attempt, limit, calls, used + calls)
  }

  /** What the drain does at a batch: over the last one, the next attempt. */
  function AtBatch(args: Args, o: Oracle, attempt: nat, batch: nat, used: nat): Step {
    if batch > args.drainBatches then NextAttempt
    else if Expired(args, o.batchClock(attempt, batch)) then Emit(Stopped(TimeBudget, Some(attempt)))
    else if BudgetExhausted(args, used) then Emit(BudgetReached(attempt, used))
    else
      var limit := BatchLimit(args, used);
      match o.drain(attempt, batch, limit)
      case None => Emit(DrainStopped(attempt, batch, limit))
      case Some(got) => Emit(DrainBatch(attempt, batch, limit, got.calls, used + got.calls))
  }

  /** The drain goes on to a further batch, goes to the next attempt, or ends the run. */
  function AfterBatch(args: Args, o: Oracle, attempt: nat, batch: nat, limit: nat, used: nat): Step {
    match o.drain(attempt, batch, limit)
    case Some(Acquired(_, _, true)) =>
      if BudgetExhausted(args, used) then Emit(BudgetReached(attempt, used))
      else AtBatch(args, o, attempt, batch + 1, used)
    case Some(Acquired(_, true, false)) => NextAttempt
    case _ => Exit(2)
  }

  /** `used` counts the calls up to and including the event; `afterBatch` says that a drain batch came before it. */
  function After(args: Args, o: Oracle, e: Event, afterBatch: bool, used: nat): Step {
    match e
    case Replayed(a, _) => Emit(AfterReplayed(o, a, used))
    case PathBackoff(a, _) => Emit(AfterPathBackoff(args, o, a, used))
    case PathBatch(a, limit, _, _) => if o.paths(a, limit).executed then NextAttempt else Exit(2)
    case FeatureBackoff(a) => AtBatch(args, o, a, 1, used)
    case DrainBatch(a, b, limit, _, _) => AfterBatch(args, o, a, b, limit, used)
    case DrainStopped(_, _, _) => NextAttempt
    case BudgetReached(a, _) => if afterBatch then NextAttempt else Emit(Stopped(ProviderBudget, Some(a)))
    case Stopped(_, _) => Exit(2)
    case Failed(reason, a) => Exit(if reason.NoBackoff? then o.replay(a).returnCode else 2)
    case Completed(_, _) => Exit(0)
  }

  /**
   From its first event on, each event is followed as `After` says, a next attempt by the event it begins with, and
   the last one ends in `end`.
   */
  ghost predicate Follows(args: Args, o: Oracle, events: seq<Event>, afterBatch: bool, used: nat, end: Step)
    decreases |events|
  {
    events != []
    && var now := used + CallsOf(events[0]);
       var step := After(args, o, events[0], afterBatch, now);
       if |events| == 1 then step == end
       else Leads(args, o, events[0], step, events[1]) && Follows(args, o, events[1..], events[0].DrainBatch?, now, end)
  }

  ghost predicate Leads(args: Args, o: Oracle, e: Event, step: Step, next: Event) {
    || step == Emit(next)
    || (step == NextAttempt && AttemptOf(e).Some? && next == Begin(args, o, AttemptOf(e).value + 1))
  }

  function EndOf(exit: Option<int>): Step { if exit.Some? then Exit(exit.value) else NextAttempt }

  lemma FollowsOne(args: Args, o: Oracle, e: Event, afterBatch: bool, used: nat, end: Step)
    requires After(args, o, e, afterBatch, used + CallsOf(e)) == end
    ensures Follows(args, o, [e], afterBatch, used, end)
  {
  }

  lemma FollowsCons(args: Args, o: Oracle, e: Event, rest: seq<Event>, afterBatch: bool, used: nat, end: Step)
    requires Follows(args, o, rest, e.DrainBatch?, used + CallsOf(e), end)
    requires Leads(args, o, e, After(args, o, e, afterBatch, used + CallsOf(e)), rest[0])
    ensures Follows(args, o, [e] + rest, afterBatch, used, end)
  {
    assert ([e] + rest)[1..] == rest;
  }

  lemma {:induction false} FollowsConcat(args: Args, o: Oracle, a: seq<Event>, b: seq<Event>, afterBatch: bool,
                                         used: nat, end: Step, attempt: nat)
    requires Follows(args, o, a, afterBatch, used, NextAttempt) && AllOf(a, attempt)
    requires b != [] && b[0] == Begin(args, o, attempt + 1)
    requires Follows(args, o, b, a[|a| - 1].DrainBatch?, used + TotalCalls(a), end)
    ensures Follows(args, o, a + b, afterBatch, used, end)
    decreases |a|
  {
    hide After, Begin;
    assert AttemptOf(a[0]) == Some(attempt);
    assert (a + b)[1..] == a[1..] + b;
    if |a| > 1 {
      FollowsConcat(args, o, a[1..], b, a[0].DrainBatch?, used + CallsOf(a[0]), end, attempt);
    } else {
      assert a[1..] == [];
      assert TotalCalls(a) == CallsOf(a[0]);
      assert a[1..] + b == b;
    }
  }

  lemma BudgetStopFollows(args: Args, o: Oracle, attempt: nat, used: nat)
    ensures Follows(args, o, BudgetStop(attempt, used), false, used, Exit(2))
  {
    var stop := Stopped(ProviderBudget, Some(attempt));
    FollowsOne(args, o, stop, false, used, Exit(2));
    FollowsCons(args, o, BudgetReached(attempt, used), [stop], false, used, Exit(2));
    assert [BudgetReached(attempt, used)] + [stop] == BudgetStop(attempt, used);
  }

  lemma {:induction false} DrainFollows(args: Args, o: Oracle, attempt: nat, batch: nat, used: nat, afterBatch: bool)
    requires afterBatch ==> !BudgetExhausted(args, used)
    ensures var leg := DrainFrom(args, o, attempt, batch, used);
            var step := AtBatch(args, o, attempt, batch, used);
            if leg.events == [] then step == NextAttempt && leg.exit.None?
            else step == Emit(leg.events[0]) && Follows(args, o, leg.events, afterBatch, used, EndOf(leg.exit))
    decreases args.drainBatches + 1 - batch
  {
    hide Follows, BudgetExhausted, Expired, BatchLimit;
    var limit := BatchLimit(args, used);
    if batch > args.drainBatches {
    } else if Expired(args, o.batchClock(attempt, batch)) {
      FollowsOne(args, o, Stopped(TimeBudget, Some(attempt)), afterBatch, used, Exit(2));
    } else if BudgetExhausted(args, used) {
      BudgetStopFollows(args, o, attempt, used);
    } else if o.drain(attempt, batch, limit).None? {
      FollowsOne(args, o, DrainStopped(attempt, batch, limit), afterBatch, used, NextAttempt);
    } else {
      BatchFollows(args, o, attempt, batch, used, afterBatch);
    }
  }

  lemma BatchFollows(args: Args, o: Oracle, attempt: nat, batch: nat, used: nat, afterBatch: bool)
    requires batch <= args.drainBatches && !Expired(args, o.batchClock(attempt, batch)) && !BudgetExhausted(args, used)
    requires o.drain(attempt, batch, BatchLimit(args, used)).Some?
    ensures var leg := DrainFrom(args, o, attempt, batch, used);
            && leg.events != [] && AtBatch(args, o, attempt, batch, used) == Emit(leg.events[0])
            && Follows(args, o, leg.events, afterBatch, used, EndOf(leg.exit))
    decreases args.drainBatches + 1 - batch, 0
  {
    hide Follows, BudgetExhausted, Expired, BatchLimit;
    var limit := BatchLimit(args, used);
    var got := o.drain(attempt, batch, limit).value;
    var now := used + got.calls;
    var event := DrainBatch(attempt, batch, limit, got.calls, now);
    if !got.continues {
      FollowsOne(args, o, event, afterBatch, used, if got.executed then NextAttempt else Exit(2));
    } else if BudgetExhausted(args, now) {
      FollowsOne(args, o, BudgetReached(attempt, now), true, now, NextAttempt);
      FollowsCons(args, o, event, [BudgetReached(attempt, now)], afterBatch, used, NextAttempt);
      assert [event] + [BudgetReached(attempt, now)] == [event, BudgetReached(attempt, now)];
    } else {
      DrainFollows(args, o, attempt, batch + 1, now, true);
      var rest := DrainFrom(args, o, attempt, batch + 1, now);
      if rest.events == [] {
        FollowsOne(args, o, event, afterBatch, used, NextAttempt);
        assert [event] + rest.events == [event];
      } else {
        FollowsCons(args, o, event, rest.events, afterBatch, used, EndOf(rest.exit));
      }
    }
  }

  lemma PathFollows(args: Args, o: Oracle, attempt: nat, receipt: ReplayReceipt, used: nat)
    requires Lacking(o.replay(attempt)) && o.replay(attempt).receipt == Some(receipt)
    ensures var leg := PathLeg(args, o, attempt, receipt, used);
            Follows(args, o, leg.events, false, used, EndOf(leg.exit))
  {
    hide Follows, BudgetExhausted, BatchLimit;
    var backoff := PathBackoff(attempt, receipt.missingPaths);
    var limit := BatchLimit(args, used);
    var got := o.paths(attempt, limit);
    var leg := PathLeg(args, o, attempt, receipt, used);
    if !args.executeProvider {
      FollowsOne(args, o, Stopped(ProviderRequired, Some(attempt)), false, used, Exit(2));
    } else if !receipt.hasDecisionRows {
      FollowsOne(args, o, Failed(NoDecisionRows, attempt), false, used, Exit(2));
    } else if BudgetExhausted(args, used) {
      BudgetStopFollows(args, o, attempt, used);
    } else {
      FollowsOne(args, o, PathBatch(attempt, limit, got.calls, used + got.calls), false, used,
                 if got.executed then NextAttempt else Exit(2));
    }
    assert leg.events == [backoff] + leg.events[1..];
    FollowsCons(args, o, backoff, leg.events[1..], false, used, EndOf(leg.exit));
  }

  lemma AfterReplayFollows(args: Args, o: Oracle, attempt: nat, used: nat)
    ensures var leg := AfterReplay(args, o, attempt, used);
            && leg.events != [] && leg.events[0] == AfterReplayed(o, attempt, used)
            && Follows(args, o, leg.events, false, used, EndOf(leg.exit))
  {
    hide Follows, DrainFrom, AtBatch;
    var r := o.replay(attempt);
    var leg := AfterReplay(args, o, attempt, used);
    if Lacking(r) {
      PathFollows(args, o, attempt, r.receipt.value, used);
    } else if BackedOff(r) {
      var drained := DrainFrom(args, o, attempt, 1, used);
      DrainFollows(args, o, attempt, 1, used, false);
      if drained.events == [] {
        FollowsOne(args, o, FeatureBackoff(attempt), false, used, NextAttempt);
        assert [FeatureBackoff(attempt)] + drained.events == [FeatureBackoff(attempt)];
      } else {
        FollowsCons(args, o, FeatureBackoff(attempt), drained.events, false, used, EndOf(drained.exit));
      }
    } else {
      FollowsOne(args, o, leg.events[0], false, used, EndOf(leg.exit));
    }
  }

  lemma AttemptFollows(args: Args, o: Oracle, attempt: nat, used: nat, afterBatch: bool)
    requires attempt <= args.maxAttempts
    ensures var leg := AttemptLeg(args, o, attempt, used);
            && leg.events != [] && leg.events[0] == Begin(args, o, attempt)
            && Follows(args, o, leg.events, afterBatch, used, EndOf(leg.exit))
  {
    hide Follows, AfterReplay, AfterReplayed;
    if Expired(args, o.attemptClock(attempt)) {
      FollowsOne(args, o, Stopped(TimeBudget, Some(attempt)), afterBatch, used, Exit(2));
    } else {
      var after := AfterReplay(args, o, attempt, used);
      var first := Replayed(attempt, o.replay(attempt).returnCode);
      AfterReplayFollows(args, o, attempt, used);
      FollowsCons(args, o, first, after.events, afterBatch, used, EndOf(after.exit));
    }
  }

  lemma {:induction false} RunFollows(args: Args, o: Oracle, attempt: nat, used: nat, afterBatch: bool)
    requires ValidArgs(args) && attempt >= 1
    ensures var leg := RunFrom(args, o, attempt, used);
            && leg.exit.Some? && leg.events != [] && leg.events[0] == Begin(args, o, attempt)
            && Follows(args, o, leg.events, afterBatch, used, Exit(leg.exit.value))
    decreases args.maxAttempts + 1 - attempt
  {
    hide Follows, AttemptLeg;
    if attempt > args.maxAttempts {
      FollowsOne(args, o, Stopped(MaxAttempts, None), afterBatch, used, Exit(2));
    } else {
      var leg := AttemptLeg(args, o, attempt, used);
      AttemptFollows(args, o, attempt, used, afterBatch);
      if leg.exit.None? {
        AttemptMeaning(args, o, attempt, used);
        AttemptAccounted(args, o, attempt, used);
        RunFollows(args, o, attempt + 1, leg.used, leg.events[|leg.events| - 1].DrainBatch?);
        var rest := RunFrom(args, o, attempt + 1, leg.used);
        FollowsConcat(args, o, leg.events, rest.events, afterBatch, used, Exit(rest.exit.value), attempt);
      }
    }
  }

  /** A trace that begins with the first attempt, goes on event by event as `After` says and ends with the code. */
  ghost predicate Traced(args: Args, o: Oracle, events: seq<Event>, code: int) {
    Follows(args, o, events, false, 0, Exit(code)) && events[0] == Begin(args, o, 1)
  }

  lemma {:induction false} FollowsIsUnique(args: Args, o: Oracle, a: seq<Event>, b: seq<Event>, afterBatch: bool,
                                           used: nat, x: int, y: int)
    requires Follows(args, o, a, afterBatch, used, Exit(x)) && Follows(args, o, b, afterBatch, used, Exit(y))
    requires a[0] == b[0]
    ensures a == b && x == y
    decreases |a|
  {
    hide After, Begin;
    assert a == [a[0]] + a[1..] && b == [b[0]] + b[1..];
    if |a| > 1 && |b| > 1 {
      FollowsIsUnique(args, o, a[1..], b[1..], a[0].DrainBatch?, used + CallsOf(a[0]), x, y);
    }
  }

  /** The run is the one and only trace there is: it is traced, and whatever is traced is the run. */
  lemma RunIsTheTrace(args: Args, o: Oracle, events: seq<Event>, code: int)
    requires ValidArgs(args)
    ensures Traced(args, o, events, code) <==> events == Run(args, o).events && Run(args, o).exit == Some(code)
  {
    hide Follows, RunFrom;
    RunFollows(args, o, 1, 0, false);
    if Traced(args, o, events, code) {
      FollowsIsUnique(args, o, events, Run(args, o).events, false, 0, code, Run(args, o).exit.value);
    }
  }

  lemma {:induction false} FollowsAt(args: Args, o: Oracle, events: seq<Event>, afterBatch: bool, used: nat, end: Step,
                                     i: nat)
    requires Follows(args, o, events, afterBatch, used, end) && i < |events|
    ensures var step := After(args, o, events[i], if i == 0 then afterBatch else events[i - 1].DrainBatch?,
                              used + TotalCalls(events[..i + 1]));
            if i == |events| - 1 then step == end else Leads(args, o, events[i], step, events[i + 1])
    decreases i
  {
    hide After, Leads;
    if i > 0 {
      FollowsAt(args, o, events[1..], events[0].DrainBatch?, used + CallsOf(events[0]), end, i - 1);
      assert events[..i + 1][1..] == events[1..][..i];
    } else {
      assert events[..1][1..] == [] && TotalCalls(events[..1]) == CallsOf(events[0]);
    }
  }

  /** An event that ends its attempt without ending the run; `used` counts the calls up to it. */
  ghost predicate LeavesAttempt(args: Args, o: Oracle, events: seq<Event>, i: nat)
    requires i < |events|
  {
    match events[i]
    case PathBatch(a, limit, _, _) => o.paths(a, limit).executed
    case DrainStopped(_, _, _) => true
    case BudgetReached(_, _) => i > 0 && events[i - 1].DrainBatch?
    case DrainBatch(a, b, limit, _, _) =>
      && o.drain(a, b, limit).Some?
      && var got := o.drain(a, b, limit).value;
         if got.continues then b == args.drainBatches && !BudgetExhausted(args, TotalCalls(events[..i + 1]))
         else got.executed
    case _ => false
  }

  lemma EmitsOwnAttempt(args: Args, o: Oracle, e: Event, afterBatch: bool, used: nat)
    ensures var step := After(args, o, e, afterBatch, used);
            step.Emit? ==> AttemptOf(step.event) == AttemptOf(e) && AttemptOf(e).Some?
  {
  }

  lemma NextAttemptIff(args: Args, o: Oracle, events: seq<Event>, i: nat)
    requires ValidArgs(args) && i < |events| && Sound(args, o, events[i])
    ensures After(args, o, events[i], i > 0 && events[i - 1].DrainBatch?, TotalCalls(events[..i + 1])).NextAttempt?
       <==> LeavesAttempt(args, o, events, i)
  {
    hide TotalCalls, BudgetExhausted;
  }

  /**
   A run goes on to the next attempt exactly after an executed path acquisition, a drain that found no work, a budget
   reached by a batch, a finished and executed batch, or a last batch that asked for more; whatever else ends the run
   or belongs to the same attempt.
   */
  lemma AttemptGoesOnIff(args: Args, o: Oracle, i: nat)
    requires ValidArgs(args) && i < |Run(args, o).events| && AttemptOf(Run(args, o).events[i]).Some?
    ensures var events := Run(args, o).events;
            var a := AttemptOf(events[i]).value;
            i + 1 < |events| && events[i + 1] == Begin(args, o, a + 1) <==> LeavesAttempt(args, o, events, i)
  {
    hide Follows, Run, RunFrom, After, LeavesAttempt;
    var events := Run(args, o).events;
    TraceMeaning(args, o);
    RunIsTheTrace(args, o, events, Run(args, o).exit.value);
    FollowsAt(args, o, events, false, 0, Exit(Run(args, o).exit.value), i);
    NextAttemptIff(args, o, events, i);
    EmitsOwnAttempt(args, o, events[i], i > 0 && events[i - 1].DrainBatch?, TotalCalls(events[..i + 1]));
  }

  /** The exit code by the last event: 0 at completion, the replay's own code without a backoff, and 2 otherwise. */
  lemma ExitByLastEvent(args: Args, o: Oracle)
    requires ValidArgs(args)
    ensures var leg := Run(args, o);
            && leg.exit.Some? && leg.events != []
            && var last := leg.events[|leg.events| - 1];
               leg.exit.value == if last.Completed? then 0
                                 else if last.Failed? && last.reason.NoBackoff? then o.replay(last.attempt).returnCode
                                 else 2
  {
    hide Follows, Run, RunFrom;
    TraceMeaning(args, o);
    var events, code := Run(args, o).events, Run(args, o).exit.value;
    RunIsTheTrace(args, o, events, code);
    FollowsAt(args, o, events, false, 0, Exit(code), |events| - 1);
  }

  // ----- the imperative form -----

  method Drain(args: Args, o: Oracle, attempt: nat, before: seq<Event>, start: nat)
    returns (trace: seq<Event>, used: nat, exit: Option<int>)
    ensures var leg := DrainFrom(args, o, attempt, 1, start);
            trace == before + leg.events && used == leg.used && exit == leg.exit
  {
    ghost var whole := DrainFrom(args, o, attempt, 1, start);
    trace, used := before, start;
    var batch := 1;
    while batch <= args.drainBatches
      invariant 1 <= batch <= args.drainBatches + 1
      invariant var rest := DrainFrom(args, o, attempt, batch, used);
                trace + rest.events == before + whole.events && rest.used == whole.used && rest.exit == whole.exit
    {
      if Expired(args, o.batchClock(attempt, batch)) {
        return trace + [Stopped(TimeBudget, Some(attempt))], used, Some(2);
      }
      if BudgetExhausted(args, used) {
        return trace + BudgetStop(attempt, used), used, Some(2);
      }
      var limit := BatchLimit(args, used);
      var decision := o.drain(attempt, batch, limit);
      if decision.None? {
        return trace + [DrainStopped(attempt, batch, limit)], used, None;
      }
      var got := decision.value;
      ghost var earlier := trace;
      used := used + got.calls;
      trace := trace + [DrainBatch(attempt, batch, limit, got.calls, used)];
      if !got.continues {
        return trace, used, if got.executed then None else Some(2);
      }
      if BudgetExhausted(args, used) {
        trace := trace + [BudgetReached(attempt, used)];
        assert trace == earlier + [DrainBatch(attempt, batch, limit, got.calls, used), BudgetReached(attempt, used)];
        return trace, used, None;
      }
      batch := batch + 1;
    }
    return trace, used, None;
  }

  method DrainPaths(args: Args, o: Oracle, attempt: nat, receipt: ReplayReceipt, before: seq<Event>, start: nat)
    returns (trace: seq<Event>, used: nat, exit: Option<int>)
    ensures var leg := PathLeg(args, o, attempt, receipt, start);
            trace == before + leg.events && used == leg.used && exit == leg.exit
  {
    ghost var leg := PathLeg(args, o, attempt, receipt, start);
    trace, used := before + [PathBackoff(attempt, receipt.missingPaths)], start;
    if !args.executeProvider {
      trace := trace + [Stopped(ProviderRequired, Some(attempt))];
      exit := Some(2);
    } else if !receipt.hasDecisionRows {
      trace := trace + [Failed(NoDecisionRows, attempt)];
      exit := Some(2);
    } else if BudgetExhausted(args, used) {
      trace := trace + BudgetStop(attempt, used);
      exit := Some(2);
    } else {
      var limit := BatchLimit(args, used);
      var got := o.paths(attempt, limit);
      used := used + got.calls;
      trace := trace + [PathBatch(attempt, limit, got.calls, used)];
      exit := if got.executed then None else Some(2);
    }
    assert trace == before + leg.events;
  }

  method Attempt(args: Args, o: Oracle, attempt: nat, before: seq<Event>, start: nat)
    returns (trace: seq<Event>, used: nat, exit: Option<int>)
    ensures var leg := AttemptLeg(args, o, attempt, start);
            trace == before + leg.events && used == leg.used && exit == leg.exit
  {
    ghost var leg := AttemptLeg(args, o, attempt, start);
    trace, used := before, start;
    if Expired(args, o.attemptClock(attempt)) {
      return trace + [Stopped(TimeBudget, Some(attempt))], used, Some(2);
    }
    var replay := o.replay(attempt);
    trace := trace + [Replayed(attempt, replay.returnCode)];
    if replay.returnCode == 0 {
      if replay.receipt.None? {
        trace, exit := trace + [Failed(NoReceipt, attempt)], Some(2);
      } else if replay.receipt.value.missingPaths > 0 {
        trace, used, exit := DrainPaths(args, o, attempt, replay.receipt.value, trace, used);
      } else {
        trace, exit := trace + [Completed(attempt, used)], Some(0);
      }
    } else if replay.backoff.None? {
      trace, exit := trace + [Failed(NoBackoff, attempt)], Some(replay.returnCode);
    } else if !replay.backoff.value.hasArtifact {
      trace, exit := trace + [Failed(NoArtifact, attempt)], Some(2);
    } else {
      trace, used, exit := Drain(args, o, attempt, trace + [FeatureBackoff(attempt)], used);
    }
    assert trace == before + leg.events;
  }

  /** What is left to run completes what has run to the whole run. */
  ghost predicate Resumes(args: Args, o: Oracle, attempt: nat, used: nat, trace: seq<Event>) {
    var rest := RunFrom(args, o, attempt, used);
    Leg(trace + rest.events, rest.used, rest.exit) == Run(args, o)
  }

  lemma AttemptResumes(args: Args, o: Oracle, attempt: nat, used: nat, trace: seq<Event>)
    requires attempt <= args.maxAttempts && Resumes(args, o, attempt, used, trace)
    ensures var leg := AttemptLeg(args, o, attempt, used);
            if leg.exit.Some? then Leg(trace + leg.events, leg.used, leg.exit) == Run(args, o)
            else Resumes(args, o, attempt + 1, leg.used, trace + leg.events)
  {
    var leg := AttemptLeg(args, o, attempt, used);
    var rest := RunFrom(args, o, attempt + 1, leg.used);
    assert trace + (leg.events + rest.events) == (trace + leg.events) + rest.events;
  }

  method RunReplays(args: Args, o: Oracle) returns (trace: seq<Event>, used: nat, exit: int)
    requires ValidArgs(args)
    ensures Leg(trace, used, Some(exit)) == Run(args, o)
  {
    trace, used := [], 0;
    var attempt := 1;
    assert trace + Run(args, o).events == Run(args, o).events;
    while attempt <= args.maxAttempts
      invariant 1 <= attempt <= args.maxAttempts + 1
      invariant Resumes(args, o, attempt, used, trace)
    {
      AttemptResumes(args, o, attempt, used, trace);
      var code: Option<int>;
      trace, used, code := Attempt(args, o, attempt, trace, used);
      if code.Some? {
        return trace, used, code.value;
      }
      attempt := attempt + 1;
    }
    return trace + [Stopped(MaxAttempts, None)], used, 2;
  }
}
