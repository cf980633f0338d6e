/**
 Callers sharing the lock file. Each caller opens a request, takes the exclusive lock, reads, writes and releases;
 any caller may die at any point, which drops its lock. A step that is not enabled stutters, so every sequence of
 steps is a schedule.
 */
module CatalogLock {
  import opened Wrappers
  import opened ErrorCatalog
  import AlertRate

  type Caller = nat

  datatype Phase =
    | Idle
    | Waiting(call: Call)
    | Locked(call: Call)
    | Loaded(call: Call, view: seq<Row>)
    | Written(call: Call, answer: Option<Row>)

  datatype Step = Request(who: Caller, call: Call) | Acquire(who: Caller) | Fetch(who: Caller)
                | Commit(who: Caller) | Release(who: Caller) | Crash(who: Caller)

  /** `log` records every committed call with the answer its caller saw. */
  datatype World = World(rows: seq<Row>, holder: Option<Caller>, phases: map<Caller, Phase>,
        log: seq<(Call, Option<Row>)>)

  const START := World([], None, map[], [])

  function PhaseOf(w: World, who: Caller): Phase {
    if who in w.phases then w.phases[who] else Idle
  }

  function Move(w: World, who: Caller, p: Phase): World { w.(phases := w.phases[who := p]) }

  function Next(storage: Storage, w: World, step: Step): World {
    var p := PhaseOf(w, step.who);
    match step
    case Request(who, call) => if p.Idle? then Move(w, who, Waiting(call)) else w
    case Acquire(who) =>
      if p.Waiting? && w.holder.None? then Move(w, who, Locked(p.call)).(holder := Some(who)) else w
    case Fetch(who) => if p.Locked? then Move(w, who, Loaded(p.call, View(storage, w.rows))) else w
    case Commit(who) =>
      if p.Loaded? then
        var o := RegisterFrom(storage, w.rows, p.view, p.call);
        Move(w, who, Written(p.call, o.answer)).(rows := o.rows, log := w.log + [(p.call, o.answer)])
      else w
    case Release(who) =>
      if p.Written? && w.holder == Some(who) then Move(w, who, Idle).(holder := None) else w
    case Crash(who) =>
      Move(w, who, Idle).(holder := if w.holder == Some(who) then None else w.holder)
  }

  function Play(storage: Storage, schedule: seq<Step>): World {
    if schedule == [] then START
    else Next(storage, Play(storage, schedule[..|schedule| - 1]), schedule[|schedule| - 1])
  }

  function Calls(log: seq<(Call, Option<Row>)>): (calls: seq<Call>)
    ensures |calls| == |log| && forall i :: 0 <= i < |log| ==> calls[i] == log[i].0
  {
    seq(|log|, i requires 0 <= i < |log| => log[i].0)
  }

  predicate Inside(p: Phase) { p.Locked? || p.Loaded? || p.Written? }

  /** Only the holder is inside, and what it has read is still what the store holds. */
  ghost predicate LockInv(storage: Storage, w: World) {
    forall who: Caller :: Inside(PhaseOf(w, who)) ==>
      w.holder == Some(who) && (PhaseOf(w, who).Loaded? ==> PhaseOf(w, who).view == View(storage, w.rows))
  }

  /** The store and every answer are those of the sequential run of the committed calls. */
  ghost predicate Sequential(storage: Storage, w: World) {
    && w.rows == Run(storage, Calls(w.log))
    && forall i :: 0 <= i < |w.log| ==>
         AnsweredInTurn(storage, w.log, i)
  }

  /** Call i was answered as if it had run alone, right after the calls committed before it. */
  ghost predicate AnsweredInTurn(storage: Storage, log: seq<(Call, Option<Row>)>, i: nat)
    requires i < |log|
  {
    log[i].1 == Register(storage, Run(storage, Calls(log[..i])), log[i].0).answer
  }

  lemma StepKeeps(storage: Storage, w: World, step: Step)
    requires LockInv(storage, w) && Sequential(storage, w)
    ensures LockInv(storage, Next(storage, w, step)) && Sequential(storage, Next(storage, w, step))
  {
    var p := PhaseOf(w, step.who);
    var after := Next(storage, w, step);
    forall who: Caller | Inside(PhaseOf(after, who))
      ensures after.holder == Some(who) && (PhaseOf(after, who).Loaded?
                ==> PhaseOf(after, who).view == View(storage, after.rows))
    {
      assert who != step.who ==> PhaseOf(after, who) == PhaseOf(w, who);
      assert Inside(p) ==> w.holder == Some(step.who);
    }
    if step.Commit? && p.Loaded? {
      assert Inside(p);
      CommitKeepsSequential(storage, w, p.call, after.log[|w.log|].1);
    }
  }

  lemma CommitKeepsSequential(storage: Storage, w: World, call: Call, answer: Option<Row>)
    requires Sequential(storage, w) && answer == Register(storage, w.rows, call).answer
    ensures var log := w.log + [(call, answer)];
            Run(storage, Calls(log)) == Register(storage, w.rows, call).rows
            && forall i :: 0 <= i < |log| ==> AnsweredInTurn(storage, log, i)
  {
    var log := w.log + [(call, answer)];
    assert log[..|w.log|] == w.log;
    RunExtends(storage, Calls(w.log), call);
    assert Calls(log) == Calls(w.log) + [call];
    forall i | 0 <= i < |log| ensures AnsweredInTurn(storage, log, i) {
      if i < |w.log| {
        assert AnsweredInTurn(storage, w.log, i);
        assert log[..i] == w.log[..i];
      }
    }
  }

  /** Under every schedule, crashes included, the shared store is a sequential run and keeps the catalog invariant. */
  lemma {:induction false} EveryScheduleIsSequential(storage: Storage, schedule: seq<Step>)
    ensures var w := Play(storage, schedule);
            LockInv(storage, w) && Sequential(storage, w) && CatalogInv(storage, w.rows)
  {
    if schedule != [] {
      var n := |schedule| - 1;
      EveryScheduleIsSequential(storage, schedule[..n]);
      StepKeeps(storage, Play(storage, schedule[..n]), schedule[n]);
    }
    CatalogHolds(storage, Calls(Play(storage, schedule).log));
  }

  // ----- the lock lets callers through -----

  /** What one caller does from request to release. */
  function Turn(who: Caller, call: Call): seq<Step> {
    [Request(who, call), Acquire(who), Fetch(who), Commit(who), Release(who)]
  }

  function PlayFrom(storage: Storage, w: World, steps: seq<Step>): World
    decreases |steps|
  {
    if steps == [] then w else PlayFrom(storage, Next(storage, w, steps[0]), steps[1..])
  }

  lemma {:induction false} PlayOn(storage: Storage, schedule: seq<Step>, steps: seq<Step>)
    ensures Play(storage, schedule + steps) == PlayFrom(storage, Play(storage, schedule), steps)
    decreases |steps|
  {
    hide Next;
    if steps == [] {
      assert schedule + steps == schedule;
    } else {
      var first := schedule + [steps[0]];
      assert first[..|schedule|] == schedule;
      assert schedule + steps == first + steps[1..];
      PlayOn(storage, first, steps[1..]);
    }
  }

  /**
   With the lock free, an idle caller's turn registers its call exactly as on a store of its own, records the answer,
   and leaves the lock free and every other caller where it was.
   */
  lemma TurnCompletes(storage: Storage, w: World, who: Caller, call: Call)
    requires w.holder.None? && PhaseOf(w, who).Idle?
    ensures var after, o := PlayFrom(storage, w, Turn(who, call)), Register(storage, w.rows, call);
            && after.rows == o.rows && after.log == w.log + [(call, o.answer)]
            && after.holder.None? && PhaseOf(after, who).Idle?
            && forall other: Caller :: other != who ==> PhaseOf(after, other) == PhaseOf(w, other)
  {
    var steps := Turn(who, call);
    var a := Next(storage, w, steps[0]);
    var b := Next(storage, a, steps[1]);
    var c := Next(storage, b, steps[2]);
    var d := Next(storage, c, steps[3]);
    var e := Next(storage, d, steps[4]);
    assert steps[1..][1..] == steps[2..] && steps[2..][1..] == steps[3..] && steps[3..][1..] == steps[4..];
    assert steps[4..][1..] == [];
    assert c.rows == w.rows && PhaseOf(c, who) == Loaded(call, View(storage, w.rows));
    assert PlayFrom(storage, d, steps[4..]) == PlayFrom(storage, e, []) == e;
    assert PlayFrom(storage, b, steps[2..]) == PlayFrom(storage, c, steps[3..]) == e;
    assert PlayFrom(storage, w, steps) == PlayFrom(storage, a, steps[1..]) == e;
  }

  /** A caller that finds the lock held waits until the holder lets go or dies. */
  lemma HeldLockWaits(storage: Storage, w: World, who: Caller)
    requires PhaseOf(w, who).Waiting? && w.holder.Some?
    ensures Next(storage, w, Acquire(who)) == w && Next(storage, w, Fetch(who)) == w
    ensures Next(storage, w, Commit(who)) == w && Next(storage, w, Release(who)) == w
  {
  }

  /** A crash of the holder frees the lock and loses at most a call that was not yet committed; no other crash does. */
  lemma CrashFreesLock(storage: Storage, w: World, who: Caller)
    ensures var after := Next(storage, w, Crash(who));
            && after.rows == w.rows && after.log == w.log && PhaseOf(after, who).Idle?
            && after.holder == (if w.holder == Some(who) then None else w.holder)
  {
  }

  /** Every sequential run of calls is what some schedule of the callers does. */
  lemma {:induction false} EveryRunIsScheduled(storage: Storage, calls: seq<Call>) returns (schedule: seq<Step>)
    ensures var w := Play(storage, schedule);
            Calls(w.log) == calls && w.rows == Run(storage, calls) && w.holder.None? && PhaseOf(w, 0).Idle?
  {
    hide Next, Register, Turn;
    if calls == [] {
      schedule := [];
    } else {
      var n := |calls| - 1;
      var before := EveryRunIsScheduled(storage, calls[..n]);
      schedule := before + Turn(0, calls[n]);
      PlayOn(storage, before, Turn(0, calls[n]));
      TurnCompletes(storage, Play(storage, before), 0, calls[n]);
      assert calls == calls[..n] + [calls[n]];
      assert Calls(Play(storage, schedule).log) == calls;
      RunExtends(storage, calls[..n], calls[n]);
    }
  }

  lemma ScheduleRows(storage: Storage, schedule: seq<Step>)
    ensures Play(storage, schedule).rows == Run(storage, Calls(Play(storage, schedule).log))
  {
    EveryScheduleIsSequential(storage, schedule);
  }

  /** The alert-rate bound therefore holds under every schedule. */
  lemma ScheduledAlertRate(storage: Storage, schedule: seq<Step>, w: nat, fingerprint: string, low: int, span: nat)
    requires forall e :: e in Play(storage, schedule).log ==> e.0.window == w
    ensures var k := |AlertRate.EntriesIn(Play(storage, schedule).rows, fingerprint, low, low + span)|;
            var whole := AlertRate.WholeTimes(Calls(Play(storage, schedule).log));
            k >= 1 ==> (k - 1) * AlertRate.Gap(storage, whole, w) <= span
  {
    hide Play, Run, AlertRate.Gap, AlertRate.WholeTimes;
    var log := Play(storage, schedule).log;
    forall c | c in Calls(log) ensures c.window == w {
      var i :| 0 <= i < |log| && Calls(log)[i] == c;
      assert log[i] in log;
    }
    AlertRate.AlertRateBound(storage, Calls(log), w, fingerprint, low, span);
    ScheduleRows(storage, schedule);
  }

  /** Without the lock two callers can load the same rows; their two writes then repeat a number. */
  lemma UnlockedWritesRepeatNumbers(storage: Storage, a: Call, b: Call)
    requires a.wellFormed && b.wellFormed && a.requestId != b.requestId
    ensures var first := RegisterFrom(storage, [], [], a);
            var second := RegisterFrom(storage, first.rows, [], b);
            |second.rows| == 2 && second.rows[0].number == second.rows[1].number == 1
                && !CatalogInv(storage, second.rows)
  {
    var ra, rb := Stored(storage, EntryRow(1, a)), Stored(storage, EntryRow(1, b));
    UpsertAppends([], ra);
    UpsertAppends([ra], rb);
    assert RegisterFrom(storage, [], [], a).rows == [ra];
    assert RegisterFrom(storage, [ra], [], b).rows == [ra, rb];
    assert [ra, rb][..1] == [ra] && [ra][..0] == [];
    assert EntryNumbers([ra]) == [1];
    assert EntryNumbers([ra, rb]) == [1] + [1];
    assert EntryNumbers([ra, rb])[1] == 1;
  }
}
