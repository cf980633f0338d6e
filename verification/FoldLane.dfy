/**
 The single-fold lane of the task timeline: everything after the first open fold is blocked in place, and the
 timeline is sorted and numbered.
 */
module FoldLane {
  import opened Wrappers
  import opened FoldCalendar

  datatype Status = Succeeded | NotApplicable | BlockedStatus | OtherStatus(text: string)
  datatype State = Done | Skipped | FailedState | BlockedState | Current | Hidden(text: string)
  datatype Blocker = PreviousFold(period: Period) | Named(text: string)

  /** `blockers` is None when the task's detail carries no blocker list. */
  datatype Task = Task(period: Period, modelGroup: bool, persisted: bool, status: Status, state: State,
                       blockers: Option<seq<Blocker>>, blockedBy: Option<Period>,
                       layerRank: int, stageRank: int, sequence: Option<int>, number: Option<int>)

  const UNKNOWN := 1_000_000

  // ----- periods -----

  function TimelineMonths(p: Period): seq<Month> {
    match p
    case Single(m) => [m]
    case Span(start, end) => MonthsInSpan(start, end)
    case Label(_, _) => var w := Window(p, RUNNING); if w.None? then [] else MonthsInSpan(w.value.0, w.value.1)
    case Other(_) => []
  }

  /** First and last month of the period, as offsets from January 2016; unknown periods sort last. */
  datatype PeriodKey = PeriodKey(first: int, last: int)

  function KeyOf(p: Period): PeriodKey {
    var months := TimelineMonths(p);
    if months == [] then PeriodKey(UNKNOWN, UNKNOWN) else PeriodKey(months[0] - BASE, months[|months| - 1] - BASE)
  }

  predicate IsFold(p: Period) { p.Label? || |TimelineMonths(p)| > 1 }

  predicate KeyLess(a: PeriodKey, b: PeriodKey) { a.first < b.first || (a.first == b.first && a.last < b.last) }

  /** The key of a period: its first and last month, and the last place of all when it names no months. */
  lemma KeySays(p: Period)
    ensures p.Single? ==> KeyOf(p) == PeriodKey(p.month - BASE, p.month - BASE) && !IsFold(p)
    ensures p.Span? && p.start <= p.end ==>
        KeyOf(p) == PeriodKey(p.start - BASE, p.end - BASE) && (IsFold(p) <==> p.start < p.end)
    ensures p.Span? && p.end < p.start ==> KeyOf(p) == PeriodKey(UNKNOWN, UNKNOWN) && !IsFold(p)
    ensures p.Label? && Window(p, RUNNING).Some? ==>
        var w := Window(p, RUNNING).value; KeyOf(p) == PeriodKey(w.0 - BASE, w.1 - BASE) && w.0 < w.1
    ensures p.Label? ==> IsFold(p) && (Window(p, RUNNING).None? ==> KeyOf(p) == PeriodKey(UNKNOWN, UNKNOWN))
    ensures p.Other? ==> KeyOf(p) == PeriodKey(UNKNOWN, UNKNOWN) && !IsFold(p)
  {
  }

  // ----- the gate -----

  predicate Terminal(t: Task) { t.status.Succeeded? || t.status.NotApplicable? || t.state.Done? || t.state.Skipped? }

  predicate Gates(t: Task) { IsFold(t.period) && !t.modelGroup && t.persisted }

  predicate Closed(tasks: seq<Task>, p: Period) { forall t :: t in tasks && t.period == p ==> Terminal(t) }

  /**
   The gating periods in order of their keys. The source sorts a set, so periods with equal keys may come in either
   order; every such order is allowed.
   */
  ghost predicate GateOrder(tasks: seq<Task>, order: seq<Period>) {
    && (forall t :: t in tasks && Gates(t) ==> t.period in order)
    && (forall p :: p in order ==> exists t :: t in tasks && Gates(t) && t.period == p)
    && forall i, j :: 0 <= i < j < |order| ==> order[i] != order[j] && !KeyLess(KeyOf(order[j]), KeyOf(order[i]))
  }

  function FirstOpen(tasks: seq<Task>, order: seq<Period>): Option<Period> {
    if order == [] then None
    else if Closed(tasks, order[0]) then FirstOpen(tasks, order[1..])
    else Some(order[0])
  }

  predicate Later(t: Task, p: Period) { IsFold(t.period) && KeyLess(KeyOf(p), KeyOf(t.period)) }

  function WithBlocker(blockers: Option<seq<Blocker>>, p: Period): Option<seq<Blocker>> {
    var list := blockers.GetOr([]);
    Some(if PreviousFold(p) in list then list else [PreviousFold(p)] + list)
  }

  function Own(t: Task): Task {
    if !Terminal(t) && t.status.BlockedStatus? && !t.state.Current? then t.(state := BlockedState) else t
  }

  function Waiting(t: Task, p: Period): Task {
    if Terminal(t) then t
    else t.(status := BlockedStatus, state := BlockedState, blockers := WithBlocker(t.blockers, p),
        blockedBy := Some(p))
  }

  function GateTask(t: Task, p: Period): Task {
    if t.period == p then Own(t) else if Later(t, p) then Waiting(t, p) else t
  }

  function Gate(tasks: seq<Task>, order: seq<Period>): seq<Task> {
    var open := FirstOpen(tasks, order);
    if open.None? then tasks else GateAll(tasks, open.value)
  }

  function GateAll(tasks: seq<Task>, p: Period): seq<Task> {
    seq(|tasks|, i requires 0 <= i < |tasks| => GateTask(tasks[i], p))
  }

  lemma {:induction false} FirstOpenIsFirst(tasks: seq<Task>, order: seq<Period>)
    ensures match FirstOpen(tasks, order)
            case None => forall p :: p in order ==> Closed(tasks, p)
            case Some(p) => exists k :: 0 <= k < |order| && order[k] == p && !Closed(tasks, p)
                                        && forall j :: 0 <= j < k ==> Closed(tasks, order[j])
  {
    if order != [] && Closed(tasks, order[0]) {
      FirstOpenIsFirst(tasks, order[1..]);
      if FirstOpen(tasks, order[1..]).Some? {
        var p := FirstOpen(tasks, order).value;
        var k :| 0 <= k < |order[1..]| && order[1..][k] == p && !Closed(tasks, p)
                 && forall j :: 0 <= j < k ==> Closed(tasks, order[1..][j]);
        assert order[k + 1] == p;
        forall j | 0 <= j < k + 1 ensures Closed(tasks, order[j]) {
          assert j > 0 ==> order[j] == order[1..][j - 1];
        }
      }
    }
  }

  lemma GateTaskKeeps(t: Task, p: Period)
    ensures var u := GateTask(t, p);
            && u.period == t.period && Gates(u) == Gates(t) && Terminal(u) == Terminal(t)
            && (Terminal(t) ==> u == t)
            && GateTask(u, p) == u
            && (!Terminal(t) && Later(t, p) ==>
                  u.status.BlockedStatus? && u.state.BlockedState? && PreviousFold(p) in u.blockers.value)
  {
  }

  /**
   After the gate with open fold p: every gated fold before p is fully terminal, every unfinished task of a strictly
   later fold is blocked and names p among its blockers, and terminal tasks and all positions are untouched. Without
   an open fold nothing changes and every gated fold is terminal.
   */
  lemma GateMakesOneLane(tasks: seq<Task>, order: seq<Period>)
    requires GateOrder(tasks, order)
    ensures var after, open := Gate(tasks, order), FirstOpen(tasks, order);
            && |after| == |tasks|
            && (forall i :: 0 <= i < |tasks| ==>
                  after[i].period == tasks[i].period && (Terminal(tasks[i]) ==> after[i] == tasks[i]))
            && (open.None? ==> after == tasks && forall t :: t in tasks && Gates(t) ==> Terminal(t))
            && (open.Some? ==> forall i :: 0 <= i < |tasks| ==>
                  && (Gates(tasks[i]) && KeyLess(KeyOf(tasks[i].period), KeyOf(open.value)) ==> Terminal(after[i]))
                  && (Later(tasks[i], open.value) && !Terminal(tasks[i]) ==>
                        && after[i].status.BlockedStatus? && after[i].state.BlockedState?
                        && PreviousFold(open.value) in after[i].blockers.value))
  {
    var after, open := Gate(tasks, order), FirstOpen(tasks, order);
    FirstOpenIsFirst(tasks, order);
    if open.Some? {
      var p := open.value;
      forall i | 0 <= i < |tasks|
        ensures Gates(tasks[i]) && KeyLess(KeyOf(tasks[i].period), KeyOf(p)) ==> Terminal(after[i])
      {
        GateTaskKeeps(tasks[i], p);
        if Gates(tasks[i]) && KeyLess(KeyOf(tasks[i].period), KeyOf(p)) {
          EarlierIsClosed(tasks, order, p, tasks[i]);
        }
      }
      forall i | 0 <= i < |tasks| {
        GateTaskKeeps(tasks[i], p);
      }
    }
  }

  predicate KeepsBlockers(before: Option<seq<Blocker>>, after: Option<seq<Blocker>>) {
    forall b :: b in before.GetOr([]) ==> b in after.GetOr([])
  }

  /**
   What the gate leaves alone: a task outside the open fold and not after it is unchanged, a task of the open fold
   can only become visibly blocked, and no task loses a blocker or its place in the order.
   */
  lemma GateTouchesOnlyTheLane(tasks: seq<Task>, order: seq<Period>, i: nat)
    requires i < |tasks| && FirstOpen(tasks, order).Some?
    ensures var open, before, after := FirstOpen(tasks, order).value, tasks[i], Gate(tasks, order)[i];
            && (before.period != open && !Later(before, open) ==> after == before)
            && (before.period == open ==>
                  after == before || (before.status.BlockedStatus? && after == before.(state := BlockedState)))
            && KeepsBlockers(before.blockers, after.blockers)
            && SortKey(after) == SortKey(before)
  {
    var open := FirstOpen(tasks, order).value;
    assert Gate(tasks, order)[i] == GateTask(tasks[i], open);
    assert Place(GateTask(tasks[i], open)) == Place(tasks[i]);
  }

  /** The gate would show the task as blocked. */
  predicate TurnsBlocked(t: Task) {
    !Terminal(t) && t.status.BlockedStatus? && !t.state.Current? && !t.state.BlockedState?
  }

  /**
   All that the gate writes: a blocked task of the open fold that is neither current nor shown as blocked is shown so;
   an unfinished task of a later fold is blocked, names the open fold ahead of its other blockers unless it names it
   already, and is marked as blocked by it; nothing else of any task changes.
   */
  lemma GateWrites(tasks: seq<Task>, order: seq<Period>, i: nat)
    requires i < |tasks| && FirstOpen(tasks, order).Some?
    ensures var open, before, after := FirstOpen(tasks, order).value, tasks[i], Gate(tasks, order)[i];
            var list := before.blockers.GetOr([]);
            if before.period == open then
              after == if TurnsBlocked(before) then before.(state := BlockedState) else before
            else if Later(before, open) && !Terminal(before) then
              && after.status == BlockedStatus && after.state == BlockedState && after.blockedBy == Some(open)
              && after.blockers == Some(if PreviousFold(open) in list then list else [PreviousFold(open)] + list)
              && after == before.(status := after.status, state := after.state, blockers := after.blockers,
                                  blockedBy := after.blockedBy)
            else after == before
  {
    hide KeyOf, IsFold;
  }

  lemma EarlierIsClosed(tasks: seq<Task>, order: seq<Period>, p: Period, t: Task)
    requires GateOrder(tasks, order) && FirstOpen(tasks, order) == Some(p)
    requires t in tasks && Gates(t) && KeyLess(KeyOf(t.period), KeyOf(p))
    ensures Terminal(t)
  {
    hide KeyOf, Gates, Terminal;
    FirstOpenIsFirst(tasks, order);
    var k :| 0 <= k < |order| && order[k] == p && forall j :: 0 <= j < k ==> Closed(tasks, order[j]);
    var j :| 0 <= j < |order| && order[j] == t.period;
    assert j < k;
    assert Closed(tasks, order[j]);
  }

  lemma {:induction false} SameOpen(a: seq<Task>, b: seq<Task>, order: seq<Period>)
    requires forall p :: p in order ==> (Closed(a, p) <==> Closed(b, p))
    ensures FirstOpen(a, order) == FirstOpen(b, order)
  {
    if order != [] {
      SameOpen(a, b, order[1..]);
    }
  }

  lemma GateKeepsClosed(tasks: seq<Task>, order: seq<Period>, p: Period)
    ensures Closed(tasks, p) <==> Closed(Gate(tasks, order), p)
  {
    var open := FirstOpen(tasks, order);
    if open.Some? {
      var after := Gate(tasks, order);
      forall i | 0 <= i < |tasks| {
        GateTaskKeeps(tasks[i], open.value);
      }
      forall t | t in tasks ensures exists u :: u in after && u.period == t.period && Terminal(u) == Terminal(t) {
        var i :| 0 <= i < |tasks| && tasks[i] == t;
        assert after[i] in after;
      }
    }
  }

  /** Gating twice is gating once. */
  lemma GateIsIdempotent(tasks: seq<Task>, order: seq<Period>)
    ensures Gate(Gate(tasks, order), order) == Gate(tasks, order)
  {
    var after := Gate(tasks, order);
    forall p | p in order ensures Closed(tasks, p) <==> Closed(after, p) {
      GateKeepsClosed(tasks, order, p);
    }
    SameOpen(tasks, after, order);
    var open := FirstOpen(tasks, order);
    if open.Some? {
      forall i | 0 <= i < |tasks| {
        GateTaskKeeps(tasks[i], open.value);
      }
    }
  }

  // ----- the order of the gating periods -----

  /** Different gating periods have different keys. */
  ghost predicate DistinctKeys(tasks: seq<Task>) {
    forall a, b :: a in tasks && b in tasks && Gates(a) && Gates(b) && a.period != b.period
        ==> KeyOf(a.period) != KeyOf(b.period)
  }

  predicate KeyedBefore(p: Period, q: Period) { KeyLess(KeyOf(p), KeyOf(q)) }

  ghost predicate Rising(order: seq<Period>) { forall i, j :: 0 <= i < j < |order| ==> KeyedBefore(order[i], order[j]) }

  lemma OrderRises(tasks: seq<Task>, order: seq<Period>)
    requires GateOrder(tasks, order) && DistinctKeys(tasks)
    ensures Rising(order)
  {
    forall i, j | 0 <= i < j < |order| ensures KeyedBefore(order[i], order[j]) {
      assert order[i] in order && order[j] in order;
      var a :| a in tasks && Gates(a) && a.period == order[i];
      var b :| b in tasks && Gates(b) && b.period == order[j];
      KeysCompare(KeyOf(order[i]), KeyOf(order[j]));
    }
  }

  lemma KeysCompare(a: PeriodKey, b: PeriodKey)
    ensures KeyLess(a, b) || KeyLess(b, a) || a == b
  {
  }

  /** Two rising lists of the same periods are the same list. */
  lemma {:induction false} RisingIsUnique(a: seq<Period>, b: seq<Period>)
    requires Rising(a) && Rising(b) && forall p :: p in a <==> p in b
    ensures a == b
  {
    hide KeyedBefore;
    assert b != [] ==> b[0] in b;
    if a != [] {
      assert a[0] in b;
      LeastFirst(a, b);
      forall p ensures p in a[1..] <==> p in b[1..] {
        InTail(a, p);
        InTail(b, p);
      }
      forall i | 0 <= i < |a[1..]| ensures a[1..][i] == a[i + 1] {
      }
      forall i | 0 <= i < |b[1..]| ensures b[1..][i] == b[i + 1] {
      }
      RisingIsUnique(a[1..], b[1..]);
      assert a == [a[0]] + a[1..] && b == [b[0]] + b[1..];
    }
  }

  lemma InTail(order: seq<Period>, p: Period)
    requires order != [] && Rising(order)
    ensures p in order[1..] <==> p in order && p != order[0]
  {
    if p in order[1..] {
      var i :| 0 <= i < |order[1..]| && order[1..][i] == p;
      assert KeyedBefore(order[0], order[i + 1]);
    }
    if p in order && p != order[0] {
      var i :| 0 <= i < |order| && order[i] == p;
      assert order[1..][i - 1] == p;
    }
  }

  lemma LeastFirst(a: seq<Period>, b: seq<Period>)
    requires a != [] && Rising(a) && Rising(b) && forall p :: p in a <==> p in b
    ensures b != [] && a[0] == b[0]
  {
    assert a[0] in a && a[0] in b;
    var i :| 0 <= i < |b| && b[i] == a[0];
    assert b[0] in b && b[0] in a;
    var j :| 0 <= j < |a| && a[j] == b[0];
    assert j > 0 ==> KeyedBefore(a[0], a[j]);
    assert i > 0 ==> KeyedBefore(b[0], b[i]);
  }

  /** With distinct keys only one gate order is possible, so the gate depends on the tasks alone. */
  lemma GateOrderIsUnique(tasks: seq<Task>, a: seq<Period>, b: seq<Period>)
    requires GateOrder(tasks, a) && GateOrder(tasks, b) && DistinctKeys(tasks)
    ensures a == b && Gate(tasks, a) == Gate(tasks, b)
  {
    OrderRises(tasks, a);
    OrderRises(tasks, b);
    forall p ensures p in a <==> p in b {
    }
    RisingIsUnique(a, b);
  }

  /** The gate changes neither the gating periods nor their keys. */
  lemma GateKeepsOrder(tasks: seq<Task>, order: seq<Period>, other: seq<Period>)
    ensures GateOrder(Gate(tasks, order), other) <==> GateOrder(tasks, other)
    ensures DistinctKeys(Gate(tasks, order)) <==> DistinctKeys(tasks)
  {
    var after, open := Gate(tasks, order), FirstOpen(tasks, order);
    if open.Some? {
      forall i | 0 <= i < |tasks| ensures after[i].period == tasks[i].period && Gates(after[i]) == Gates(tasks[i]) {
        GateTaskKeeps(tasks[i], open.value);
      }
    }
    SamePeriods(tasks, after);
    forall p ensures GatesAt(after, p) <==> GatesAt(tasks, p) {
    }
    GateOrderByPeriods(tasks, after, other);
    DistinctByPeriods(tasks, after);
    DistinctByPeriods(after, tasks);
  }

  ghost predicate GatesAt(tasks: seq<Task>, p: Period) { exists t :: t in tasks && Gates(t) && t.period == p }

  lemma SamePeriods(a: seq<Task>, b: seq<Task>)
    requires |a| == |b| && forall i :: 0 <= i < |a| ==> a[i].period == b[i].period && Gates(a[i]) == Gates(b[i])
    ensures forall p :: GatesAt(a, p) <==> GatesAt(b, p)
  {
    forall p ensures GatesAt(a, p) <==> GatesAt(b, p) {
      if GatesAt(a, p) {
        var t :| t in a && Gates(t) && t.period == p;
        var i :| 0 <= i < |a| && a[i] == t;
        assert b[i] in b;
      }
      if GatesAt(b, p) {
        var t :| t in b && Gates(t) && t.period == p;
        var i :| 0 <= i < |b| && b[i] == t;
        assert a[i] in a;
      }
    }
  }

  lemma GateOrderByPeriods(a: seq<Task>, b: seq<Task>, order: seq<Period>)
    requires forall p :: GatesAt(a, p) <==> GatesAt(b, p)
    ensures GateOrder(a, order) <==> GateOrder(b, order)
  {
    OrderByPeriods(a, b, order);
    OrderByPeriods(b, a, order);
  }

  lemma OrderByPeriods(a: seq<Task>, b: seq<Task>, order: seq<Period>)
    requires forall p :: GatesAt(a, p) <==> GatesAt(b, p)
    ensures GateOrder(a, order) ==> GateOrder(b, order)
  {
    hide Gates, KeyOf, KeyLess;
    if GateOrder(a, order) {
      forall t | t in b && Gates(t) ensures t.period in order {
        assert GatesAt(b, t.period);
        var u :| u in a && Gates(u) && u.period == t.period;
      }
      forall p | p in order ensures exists t :: t in b && Gates(t) && t.period == p {
        assert GatesAt(a, p) && GatesAt(b, p);
      }
    }
  }

  lemma DistinctByPeriods(a: seq<Task>, b: seq<Task>)
    requires forall p :: GatesAt(a, p) <==> GatesAt(b, p)
    ensures DistinctKeys(a) ==> DistinctKeys(b)
  {
    hide Gates, KeyOf;
    if DistinctKeys(a) {
      forall x, y | x in b && y in b && Gates(x) && Gates(y) && x.period != y.period
        ensures KeyOf(x.period) != KeyOf(y.period)
      {
        assert GatesAt(b, x.period) && GatesAt(b, y.period);
        var u :| u in a && Gates(u) && u.period == x.period;
        var v :| v in a && Gates(v) && v.period == y.period;
      }
    }
  }

  /** With distinct keys, gating again is the same whatever order the second gate sorts the periods into. */
  lemma GateSettles(tasks: seq<Task>, first: seq<Period>, second: seq<Period>)
    requires GateOrder(tasks, first) && DistinctKeys(tasks) && GateOrder(Gate(tasks, first), second)
    ensures Gate(Gate(tasks, first), second) == Gate(tasks, first)
  {
    GateKeepsOrder(tasks, first, second);
    GateOrderIsUnique(tasks, first, second);
    GateIsIdempotent(tasks, first);
  }

  // ----- gating periods with equal keys -----

  ghost predicate IsOpen(tasks: seq<Task>, p: Period) { GatesAt(tasks, p) && !Closed(tasks, p) }

  /** An open gating period with no open one before it; several can tie. */
  ghost predicate LeastOpen(tasks: seq<Task>, p: Period) {
    IsOpen(tasks, p) && forall q :: IsOpen(tasks, q) ==> !KeyedBefore(q, p)
  }

  /** The open fold of any gate order is a least open period, and there is one when any gating period is open. */
  lemma FirstOpenIsLeast(tasks: seq<Task>, order: seq<Period>)
    requires GateOrder(tasks, order)
    ensures match FirstOpen(tasks, order)
            case None => forall p :: !IsOpen(tasks, p)
            case Some(p) => LeastOpen(tasks, p)
  {
    hide KeyOf, KeyLess, Gates, Terminal;
    FirstOpenIsFirst(tasks, order);
    forall q | IsOpen(tasks, q) ensures q in order {
    }
    if FirstOpen(tasks, order).Some? {
      var p := FirstOpen(tasks, order).value;
      var k :| 0 <= k < |order| && order[k] == p && forall j :: 0 <= j < k ==> Closed(tasks, order[j]);
      forall q | IsOpen(tasks, q) ensures !KeyedBefore(q, p) {
        var j :| 0 <= j < |order| && order[j] == q;
        NotBeforeItself(p);
        assert j >= k;
      }
      assert p in order;
      assert IsOpen(tasks, p);
    }
  }

  lemma NotBeforeItself(p: Period)
    ensures !KeyedBefore(p, p)
  {
  }

  lemma LeastOpenTie(tasks: seq<Task>, p: Period, q: Period)
    requires LeastOpen(tasks, p) && LeastOpen(tasks, q)
    ensures KeyOf(p) == KeyOf(q)
  {
    KeysCompare(KeyOf(p), KeyOf(q));
  }

  lemma {:induction false} FirstOpenAt(tasks: seq<Task>, order: seq<Period>, k: nat)
    requires k < |order| && !Closed(tasks, order[k]) && forall j :: 0 <= j < k ==> Closed(tasks, order[j])
    ensures FirstOpen(tasks, order) == Some(order[k])
  {
    if k > 0 {
      FirstOpenAt(tasks, order[1..], k - 1);
    }
  }

  /** Exchanging two periods with equal keys gives another gate order. */
  lemma ExchangeTied(tasks: seq<Task>, order: seq<Period>, k: nat, m: nat)
    requires GateOrder(tasks, order) && k < m < |order| && KeyOf(order[k]) == KeyOf(order[m])
    ensures GateOrder(tasks, order[k := order[m]][m := order[k]])
  {
    hide KeyOf, KeyLess, Gates;
    var other := order[k := order[m]][m := order[k]];
    assert forall i :: 0 <= i < |order| ==> KeyOf(other[i]) == KeyOf(order[i]);
    forall i, j | 0 <= i < j < |other|
      ensures other[i] != other[j] && !KeyLess(KeyOf(other[j]), KeyOf(other[i]))
    {
      var x := if i == k then m else if i == m then k else i;
      var y := if j == k then m else if j == m then k else j;
      assert other[i] == order[x] && other[j] == order[y] && x != y;
      assert !KeyLess(KeyOf(order[j]), KeyOf(order[i]));
    }
    SamePeriodsListed(order, k, m);
    assert forall p :: p in other <==> p in order;
    forall t | t in tasks && Gates(t) ensures t.period in other {
      assert t.period in order;
    }
    forall p | p in other ensures exists t :: t in tasks && Gates(t) && t.period == p {
      assert p in order;
    }
    assert GateOrder(tasks, other);
  }

  lemma SamePeriodsListed(order: seq<Period>, k: nat, m: nat)
    requires k < m < |order|
    ensures forall p :: p in order <==> p in order[k := order[m]][m := order[k]]
  {
    var other := order[k := order[m]][m := order[k]];
    assert order[k] == other[m] && order[m] == other[k];
    forall p ensures p in order <==> p in other {
      if p in order {
        var i :| 0 <= i < |order| && order[i] == p;
        assert i != k && i != m ==> other[i] == p;
      }
      if p in other {
        var i :| 0 <= i < |order| && other[i] == p;
        assert i != k && i != m ==> order[i] == p;
      }
    }
  }

  /** Every least open period is the open fold of some gate order. */
  lemma OpensFirst(tasks: seq<Task>, order: seq<Period>, p: Period) returns (other: seq<Period>)
    requires GateOrder(tasks, order) && LeastOpen(tasks, p)
    ensures GateOrder(tasks, other) && FirstOpen(tasks, other) == Some(p)
  {
    hide KeyOf, KeyLess, Gates;
    FirstOpenIsLeast(tasks, order);
    FirstOpenIsFirst(tasks, order);
    var q := FirstOpen(tasks, order).value;
    var k: nat :| k < |order| && order[k] == q && forall j :: 0 <= j < k ==> Closed(tasks, order[j]);
    assert p in order;
    var m: nat :| m < |order| && order[m] == p;
    LeastOpenTie(tasks, p, q);
    assert m >= k;
    if m == k {
      other := order;
    } else {
      ExchangeTied(tasks, order, k, m);
      other := order[k := order[m]][m := order[k]];
      FirstOpenAt(tasks, other, k);
    }
  }

  /** Which tied period a gate opens: any least open one in some gate order, and never another. */
  lemma OpenFoldIff(tasks: seq<Task>, order: seq<Period>, p: Period)
    requires GateOrder(tasks, order)
    ensures LeastOpen(tasks, p) <==> exists other :: GateOrder(tasks, other) && FirstOpen(tasks, other) == Some(p)
  {
    if LeastOpen(tasks, p) {
      var other := OpensFirst(tasks, order, p);
    }
    if other :| GateOrder(tasks, other) && FirstOpen(tasks, other) == Some(p) {
      FirstOpenIsLeast(tasks, other);
    }
  }

  /** Neither fold has a task the gate would turn, and nothing unfinished waits behind them. */
  ghost predicate NothingToGate(tasks: seq<Task>, p: Period, q: Period) {
    forall t :: t in tasks ==>
      (t.period == p || t.period == q ==> !TurnsBlocked(t)) && (Later(t, p) ==> Terminal(t))
  }

  lemma TaskTie(t: Task, p: Period, q: Period)
    requires KeyOf(p) == KeyOf(q) && p != q
    ensures GateTask(t, p) == GateTask(t, q)
       <==> (t.period == p || t.period == q ==> !TurnsBlocked(t)) && (Later(t, p) ==> Terminal(t))
  {
  }

  /** Two gate orders give the same timeline exactly when they open the same fold or there is nothing to gate. */
  lemma GatesAlikeIff(tasks: seq<Task>, a: seq<Period>, b: seq<Period>)
    requires GateOrder(tasks, a) && GateOrder(tasks, b)
    ensures var p, q := FirstOpen(tasks, a), FirstOpen(tasks, b);
            && (p.Some? <==> q.Some?) && (p.Some? ==> KeyOf(p.value) == KeyOf(q.value))
            && (Gate(tasks, a) == Gate(tasks, b) <==>
                  p == q || (p.Some? && q.Some? && NothingToGate(tasks, p.value, q.value)))
  {
    hide KeyOf, LeastOpen, GateTask, Later, TurnsBlocked, Terminal;
    FirstOpenIsLeast(tasks, a);
    FirstOpenIsLeast(tasks, b);
    LeastIsOpen(tasks);
    var p, q := FirstOpen(tasks, a), FirstOpen(tasks, b);
    if p.Some? && q.Some? && p != q {
      LeastOpenTie(tasks, p.value, q.value);
      forall t | t in tasks {
        TaskTie(t, p.value, q.value);
      }
      PointwiseGate(tasks, p.value, q.value);
    }
  }

  lemma LeastIsOpen(tasks: seq<Task>)
    ensures forall p :: LeastOpen(tasks, p) ==> IsOpen(tasks, p)
  {
  }

  lemma PointwiseGate(tasks: seq<Task>, p: Period, q: Period)
    ensures GateAll(tasks, p) == GateAll(tasks, q)
       <==> forall t :: t in tasks ==> GateTask(t, p) == GateTask(t, q)
  {
    hide GateTask;
    if GateAll(tasks, p) == GateAll(tasks, q) {
      forall t | t in tasks ensures GateTask(t, p) == GateTask(t, q) {
        var i :| 0 <= i < |tasks| && tasks[i] == t;
        assert GateAll(tasks, p)[i] == GateAll(tasks, q)[i];
      }
    }
  }

  /** The gate depends on the tasks alone exactly when any two least open periods leave nothing to gate. */
  lemma GateIsDeterminedIff(tasks: seq<Task>, order: seq<Period>)
    requires GateOrder(tasks, order)
    ensures (forall other :: GateOrder(tasks, other) ==> Gate(tasks, other) == Gate(tasks, order))
       <==> forall p, q :: LeastOpen(tasks, p) && LeastOpen(tasks, q) && p != q ==> NothingToGate(tasks, p, q)
  {
    hide GateOrder, FirstOpen, LeastOpen, NothingToGate, Gate;
    if forall p, q :: LeastOpen(tasks, p) && LeastOpen(tasks, q) && p != q ==> NothingToGate(tasks, p, q) {
      forall other | GateOrder(tasks, other) ensures Gate(tasks, other) == Gate(tasks, order) {
        GatesAlikeIff(tasks, other, order);
        FirstOpenIsLeast(tasks, other);
        FirstOpenIsLeast(tasks, order);
      }
    }
    if forall other :: GateOrder(tasks, other) ==> Gate(tasks, other) == Gate(tasks, order) {
      forall p, q | LeastOpen(tasks, p) && LeastOpen(tasks, q) && p != q ensures NothingToGate(tasks, p, q) {
        var a := OpensFirst(tasks, order, p);
        var b := OpensFirst(tasks, order, q);
        GatesAlikeIff(tasks, a, b);
      }
    }
  }

  /** A blocked, not yet visibly blocked task of a fold label whose months cannot be read. */
  function Unreadable(number: int): Task {
    Task(Label(2017, number), false, true, BlockedStatus, Hidden(""), None, None, 0, 0, None, None)
  }

  /** Two such labels tie, and the order they come in decides which of them is shown as blocked. */
  lemma TiedFoldsDiffer()
    ensures var tasks := [Unreadable(2), Unreadable(3)];
            var a, b := [Label(2017, 2), Label(2017, 3)], [Label(2017, 3), Label(2017, 2)];
            && GateOrder(tasks, a) && GateOrder(tasks, b)
            && Gate(tasks, a) == [Unreadable(2).(state := BlockedState), Unreadable(3)]
            && Gate(tasks, b) == [Unreadable(2), Unreadable(3).(state := BlockedState)]
  {
    var tasks, p, q := [Unreadable(2), Unreadable(3)], Label(2017, 2), Label(2017, 3);
    assert KeyOf(p) == PeriodKey(UNKNOWN, UNKNOWN) && KeyOf(q) == PeriodKey(UNKNOWN, UNKNOWN);
    assert tasks[0] in tasks && tasks[1] in tasks;
    assert GatesAt(tasks, p) && GatesAt(tasks, q);
    FirstOpenAt(tasks, [p, q], 0);
    FirstOpenAt(tasks, [q, p], 0);
  }

  /** Gating again in any order changes nothing exactly when it opens the same fold or finds nothing left to gate. */
  lemma GateSettlesIff(tasks: seq<Task>, first: seq<Period>, second: seq<Period>)
    requires GateOrder(tasks, first) && GateOrder(Gate(tasks, first), second)
    ensures var after := Gate(tasks, first);
            var p, q := FirstOpen(after, first), FirstOpen(after, second);
            Gate(after, second) == after <==> p == q || (p.Some? && q.Some? && NothingToGate(after, p.value, q.value))
  {
    GateKeepsOrder(tasks, first, first);
    GateIsIdempotent(tasks, first);
    GatesAlikeIff(Gate(tasks, first), first, second);
  }

  // ----- sorting and numbering -----

  /** The sort key without its last component, the task's own sequence. */
  function Place(t: Task): seq<int> {
    var k := KeyOf(t.period);
    [k.first, k.last, if |TimelineMonths(t.period)| > 1 || t.period.Label? then 1 else 0, t.layerRank, t.stageRank]
  }

  function SortKey(t: Task): (key: seq<int>)
    ensures |key| == 6
  {
    Place(t) + [t.sequence.GetOr(UNKNOWN)]
  }

  predicate PlaceLeq(a: seq<int>, b: seq<int>)
    requires |a| == |b|
  {
    a == [] || a[0] < b[0] || (a[0] == b[0] && PlaceLeq(a[1..], b[1..]))
  }

  lemma {:induction false} PlaceTotal(a: seq<int>, b: seq<int>)
    requires |a| == |b|
    ensures PlaceLeq(a, b) || PlaceLeq(b, a)
  {
    if a != [] {
      PlaceTotal(a[1..], b[1..]);
    }
  }

  /** Comparing longer keys decides on the common part first. */
  lemma {:induction false} PlaceExtend(a: seq<int>, x: int, b: seq<int>, y: int)
    requires |a| == |b|
    ensures PlaceLeq(a + [x], b + [y]) <==> PlaceLeq(a, b) && (a == b ==> x <= y)
  {
    if a == [] {
      assert (a + [x])[1..] == [] && (b + [y])[1..] == [];
    } else {
      assert (a + [x])[1..] == a[1..] + [x] && (b + [y])[1..] == b[1..] + [y];
      assert a == [a[0]] + a[1..] && b == [b[0]] + b[1..];
      PlaceExtend(a[1..], x, b[1..], y);
    }
  }

  function Insert(t: Task, sorted: seq<Task>): seq<Task> {
    if sorted == [] || PlaceLeq(SortKey(t), SortKey(sorted[0])) then [t] + sorted
    else [sorted[0]] + Insert(t, sorted[1..])
  }

  /** A stable sort by the timeline key. */
  function Sorted(tasks: seq<Task>): seq<Task> {
    if tasks == [] then [] else Insert(tasks[0], Sorted(tasks[1..]))
  }

  function Numbered(tasks: seq<Task>): seq<Task> {
    seq(|tasks|, i requires 0 <= i < |tasks| => tasks[i].(sequence := Some(i + 1), number := Some(i + 1)))
  }

  function SortTimeline(tasks: seq<Task>): seq<Task> { Numbered(Sorted(tasks)) }

  ghost predicate InOrder(tasks: seq<Task>) {
    forall i :: 0 <= i < |tasks| - 1 ==> PlaceLeq(SortKey(tasks[i]), SortKey(tasks[i + 1]))
  }

  lemma {:induction false} InsertCorrect(t: Task, sorted: seq<Task>)
    requires InOrder(sorted)
    ensures InOrder(Insert(t, sorted)) && multiset(Insert(t, sorted)) == multiset{t} + multiset(sorted)
  {
    if sorted == [] || PlaceLeq(SortKey(t), SortKey(sorted[0])) {
    } else {
      PlaceTotal(SortKey(t), SortKey(sorted[0]));
      var rest := sorted[1..];
      assert InOrder(rest) by {
        forall i | 0 <= i < |rest| - 1 ensures PlaceLeq(SortKey(rest[i]), SortKey(rest[i + 1])) {
          assert rest[i] == sorted[i + 1] && rest[i + 1] == sorted[i + 2];
        }
      }
      InsertCorrect(t, rest);
      assert sorted == [sorted[0]] + rest;
      assert Insert(t, rest)[0] == t || (rest != [] && Insert(t, rest)[0] == sorted[1]);
    }
  }

  /** Sorting permutes the tasks into key order. */
  lemma {:induction false} SortedCorrect(tasks: seq<Task>)
    ensures InOrder(Sorted(tasks)) && multiset(Sorted(tasks)) == multiset(tasks)
  {
    if tasks != [] {
      SortedCorrect(tasks[1..]);
      InsertCorrect(tasks[0], Sorted(tasks[1..]));
      assert tasks == [tasks[0]] + tasks[1..];
    }
  }

  /**
   The timeline order by the fields of the tasks: first month, last month, folds after single months, layer, stage
   and own sequence, each deciding only where those before it are equal.
   */
  ghost predicate NotAfter(a: Task, b: Task) {
    var p, q := KeyOf(a.period), KeyOf(b.period);
    && p.first <= q.first
    && (p.first == q.first ==>
          && p.last <= q.last
          && (p.last == q.last ==>
                && (IsFold(a.period) ==> IsFold(b.period))
                && (IsFold(a.period) == IsFold(b.period) ==>
                      && a.layerRank <= b.layerRank
                      && (a.layerRank == b.layerRank ==>
                            && a.stageRank <= b.stageRank
                            && (a.stageRank == b.stageRank ==>
                                  a.sequence.GetOr(UNKNOWN) <= b.sequence.GetOr(UNKNOWN))))))
  }

  lemma NotAfterIff(a: Task, b: Task)
    ensures PlaceLeq(SortKey(a), SortKey(b)) <==> NotAfter(a, b)
  {
    hide KeyOf, TimelineMonths;
    var p, q := KeyOf(a.period), KeyOf(b.period);
    assert SortKey(a)
        == [p.first, p.last, if IsFold(a.period) then 1 else 0, a.layerRank, a.stageRank, a.sequence.GetOr(UNKNOWN)];
    assert SortKey(b)
        == [q.first, q.last, if IsFold(b.period) then 1 else 0, b.layerRank, b.stageRank, b.sequence.GetOr(UNKNOWN)];
    PlaceLeqSix(SortKey(a), SortKey(b));
  }

  lemma PlaceLeqSix(a: seq<int>, b: seq<int>)
    requires |a| == |b| == 6
    ensures PlaceLeq(a, b) <==>
        a[0] <= b[0] && (a[0] == b[0] ==>
        a[1] <= b[1] && (a[1] == b[1] ==>
        a[2] <= b[2] && (a[2] == b[2] ==>
        a[3] <= b[3] && (a[3] == b[3] ==>
        a[4] <= b[4] && (a[4] == b[4] ==> a[5] <= b[5])))))
  {
    PlaceLeqHead(a, b, 0);
    PlaceLeqHead(a, b, 1);
    PlaceLeqHead(a, b, 2);
    PlaceLeqHead(a, b, 3);
    PlaceLeqHead(a, b, 4);
    PlaceLeqHead(a, b, 5);
    assert a[0..] == a && b[0..] == b && a[6..] == [] && b[6..] == [];
  }

  lemma PlaceLeqHead(a: seq<int>, b: seq<int>, i: nat)
    requires |a| == |b| && i < |a|
    ensures PlaceLeq(a[i..], b[i..]) <==> a[i] <= b[i] && (a[i] == b[i] ==> PlaceLeq(a[i + 1..], b[i + 1..]))
  {
    assert a[i..][1..] == a[i + 1..] && b[i..][1..] == b[i + 1..];
  }

  lemma {:induction false} PlaceLeqTransitive(a: seq<int>, b: seq<int>, c: seq<int>)
    requires |a| == |b| == |c| && PlaceLeq(a, b) && PlaceLeq(b, c)
    ensures PlaceLeq(a, c)
  {
    if a != [] && a[0] == b[0] == c[0] {
      PlaceLeqTransitive(a[1..], b[1..], c[1..]);
    }
  }

  lemma {:induction false} InOrderAll(tasks: seq<Task>, i: nat, j: nat)
    requires InOrder(tasks) && i <= j < |tasks|
    ensures PlaceLeq(SortKey(tasks[i]), SortKey(tasks[j]))
    decreases j - i
  {
    hide SortKey;
    PlaceLeqSame(SortKey(tasks[i]));
    if i < j {
      InOrderAll(tasks, i, j - 1);
      assert PlaceLeq(SortKey(tasks[j - 1]), SortKey(tasks[j - 1 + 1]));
      PlaceLeqTransitive(SortKey(tasks[i]), SortKey(tasks[j - 1]), SortKey(tasks[j]));
    }
  }

  /** In the sorted timeline no task comes after one that the fields of the two tasks put behind it. */
  lemma SortedByFields(tasks: seq<Task>)
    ensures |Sorted(tasks)| == |tasks| && multiset(Sorted(tasks)) == multiset(tasks)
    ensures forall i, j :: 0 <= i < j < |Sorted(tasks)| ==> NotAfter(Sorted(tasks)[i], Sorted(tasks)[j])
  {
    SortedCorrect(tasks);
    assert |multiset(Sorted(tasks))| == |multiset(tasks)|;
    forall i, j | 0 <= i < j < |Sorted(tasks)| ensures NotAfter(Sorted(tasks)[i], Sorted(tasks)[j]) {
      InOrderAll(Sorted(tasks), i, j);
      NotAfterIff(Sorted(tasks)[i], Sorted(tasks)[j]);
    }
  }

  /** The tasks with one sort key, in order. */
  function WithKey(tasks: seq<Task>, key: seq<int>): seq<Task> {
    if tasks == [] then [] else (if SortKey(tasks[0]) == key then [tasks[0]] else []) + WithKey(tasks[1..], key)
  }

  lemma WithKeyCons(t: Task, more: seq<Task>, key: seq<int>)
    ensures WithKey([t] + more, key) == (if SortKey(t) == key then [t] else []) + WithKey(more, key)
  {
    hide SortKey;
    assert ([t] + more)[1..] == more;
  }

  lemma {:induction false} PlaceLeqSame(key: seq<int>)
    ensures PlaceLeq(key, key)
  {
    if key != [] {
      PlaceLeqSame(key[1..]);
    }
  }

  lemma {:induction false} InsertIsStable(t: Task, sorted: seq<Task>, key: seq<int>)
    ensures WithKey(Insert(t, sorted), key) == (if SortKey(t) == key then [t] else []) + WithKey(sorted, key)
  {
    if sorted == [] || PlaceLeq(SortKey(t), SortKey(sorted[0])) {
      WithKeyCons(t, sorted, key);
    } else {
      PlaceLeqSame(SortKey(t));
      assert SortKey(t) != SortKey(sorted[0]);
      hide SortKey, PlaceLeq;
      InsertIsStable(t, sorted[1..], key);
      WithKeyCons(sorted[0], Insert(t, sorted[1..]), key);
    }
  }

  /** Tasks with equal keys keep their order, so the numbering of ties is fixed. */
  lemma {:induction false} SortedIsStable(tasks: seq<Task>, key: seq<int>)
    ensures WithKey(Sorted(tasks), key) == WithKey(tasks, key)
  {
    hide SortKey;
    if tasks != [] {
      SortedIsStable(tasks[1..], key);
      InsertIsStable(tasks[0], Sorted(tasks[1..]), key);
    }
  }

  lemma {:induction false} SortedFixesOrdered(tasks: seq<Task>)
    requires InOrder(tasks)
    ensures Sorted(tasks) == tasks
  {
    if tasks != [] {
      var rest := tasks[1..];
      assert InOrder(rest) by {
        forall i | 0 <= i < |rest| - 1 ensures PlaceLeq(SortKey(rest[i]), SortKey(rest[i + 1])) {
          assert rest[i] == tasks[i + 1] && rest[i + 1] == tasks[i + 2];
        }
      }
      SortedFixesOrdered(rest);
      assert rest != [] ==> rest[0] == tasks[1];
    }
  }

  lemma NumberingKeepsOrder(tasks: seq<Task>)
    requires InOrder(tasks)
    ensures InOrder(Numbered(tasks))
  {
    var after := Numbered(tasks);
    forall i | 0 <= i < |after| - 1 ensures PlaceLeq(SortKey(after[i]), SortKey(after[i + 1])) {
      PlaceExtend(Place(tasks[i]), tasks[i].sequence.GetOr(UNKNOWN), Place(tasks[i + 1]),
          tasks[i + 1].sequence.GetOr(UNKNOWN));
      PlaceExtend(Place(tasks[i]), i + 1, Place(tasks[i + 1]), i + 2);
      assert Place(after[i]) == Place(tasks[i]) && Place(after[i + 1]) == Place(tasks[i + 1]);
    }
  }

  /** The timeline is a permutation of the tasks in place order, numbered 1..n; sorting it again changes nothing. */
  lemma SortTimelineIsIdempotent(tasks: seq<Task>)
    ensures SortTimeline(SortTimeline(tasks)) == SortTimeline(tasks)
    ensures InOrder(SortTimeline(tasks)) && |SortTimeline(tasks)| == |tasks|
    ensures forall i :: 0 <= i < |tasks| ==> SortTimeline(tasks)[i].number == Some(i + 1)
    ensures multiset(Sorted(tasks)) == multiset(tasks)
  {
    SortedCorrect(tasks);
    SortedKeepsSize(tasks);
    NumberingKeepsOrder(Sorted(tasks));
    SortedFixesOrdered(SortTimeline(tasks));
    NumberedTwice(Sorted(tasks));
  }

  lemma SortedKeepsSize(tasks: seq<Task>)
    ensures |Sorted(tasks)| == |tasks|
  {
    SortedCorrect(tasks);
    assert |multiset(Sorted(tasks))| == |Sorted(tasks)| && |multiset(tasks)| == |tasks|;
  }

  lemma NumberedTwice(tasks: seq<Task>)
    ensures Numbered(Numbered(tasks)) == Numbered(tasks)
  {
  }

  // ----- the public projection -----

  predicate Visible(t: Task) { !t.state.Hidden? }

  function Project(tasks: seq<Task>): seq<Task> {
    if tasks == [] then []
    else Project(tasks[..|tasks| - 1]) + if Visible(tasks[|tasks| - 1]) then [tasks[|tasks| - 1]] else []
  }

  lemma {:induction false} ProjectKeepsVisible(tasks: seq<Task>)
    ensures forall t :: t in Project(tasks) <==> t in tasks && Visible(t)
  {
    if tasks != [] {
      ProjectKeepsVisible(tasks[..|tasks| - 1]);
      assert tasks == tasks[..|tasks| - 1] + [tasks[|tasks| - 1]];
    }
  }

  lemma {:induction false} ProjectSplits(a: seq<Task>, b: seq<Task>)
    ensures Project(a + b) == Project(a) + Project(b)
  {
    if b == [] {
      assert a + b == a;
    } else {
      var front := b[..|b| - 1];
      ProjectSplits(a, front);
      assert (a + b)[..|a + b| - 1] == a + front;
    }
  }

  /** Every visible task stands in the projection right after the visible tasks before it, so the order is kept. */
  lemma ProjectKeepsOrder(tasks: seq<Task>, j: nat)
    requires j < |tasks| && Visible(tasks[j])
    ensures Project(tasks) == Project(tasks[..j]) + [tasks[j]] + Project(tasks[j + 1..])
  {
    ProjectSplits(tasks[..j + 1], tasks[j + 1..]);
    assert tasks == tasks[..j + 1] + tasks[j + 1..];
    assert tasks[..j + 1][..j] == tasks[..j];
  }

  /** Work waiting behind an open fold is always shown: the gate moves it into a visible state. */
  lemma WaitingWorkIsShown(tasks: seq<Task>, order: seq<Period>, i: nat)
    requires GateOrder(tasks, order) && FirstOpen(tasks, order).Some? && i < |tasks|
    requires Later(tasks[i], FirstOpen(tasks, order).value) && !Terminal(tasks[i])
    ensures Gate(tasks, order)[i] in Project(Gate(tasks, order))
  {
    GateMakesOneLane(tasks, order);
    ProjectKeepsVisible(Gate(tasks, order));
    assert Gate(tasks, order)[i] in Gate(tasks, order);
  }

  // ----- the imperative form -----

  /** Sorts, then writes each task's number into it. */
  method SortAndNumber(tasks: seq<Task>) returns (sorted: seq<Task>)
    ensures sorted == SortTimeline(tasks)
  {
    hide Sorted;
    var start := Sorted(tasks);
    sorted := start;
    for i := 0 to |start|
      invariant |sorted| == |start|
      invariant forall j :: 0 <= j < i ==> sorted[j] == start[j].(sequence := Some(j + 1), number := Some(j + 1))
      invariant forall j :: i <= j < |start| ==> sorted[j] == start[j]
    {
      sorted := sorted[i := sorted[i].(sequence := Some(i + 1), number := Some(i + 1))];
    }
    assert sorted == Numbered(start);
  }

  method PeriodClosed(a: array<Task>, p: Period) returns (closed: bool)
    ensures closed == Closed(a[..], p)
  {
    for i := 0 to a.Length
      invariant forall j :: 0 <= j < i ==> a[j].period == p ==> Terminal(a[j])
    {
      if a[i].period == p && !Terminal(a[i]) {
        assert a[i] in a[..];
        return false;
      }
    }
    return true;
  }

  method FindFirstOpen(a: array<Task>, order: seq<Period>) returns (open: Option<Period>)
    ensures open == FirstOpen(a[..], order)
  {
    for i := 0 to |order|
      invariant FirstOpen(a[..], order) == FirstOpen(a[..], order[i..])
    {
      var closed := PeriodClosed(a, order[i]);
      assert order[i..][1..] == order[i + 1..];
      if !closed {
        return Some(order[i]);
      }
    }
    return None;
  }

  function OwnIn(t: Task, p: Period): Task { if t.period == p then Own(t) else t }

  method BlockOwn(a: array<Task>, p: Period)
    modifies a
    ensures forall j :: 0 <= j < a.Length ==> a[j] == OwnIn(old(a[j]), p)
  {
    for i := 0 to a.Length
      invariant forall j :: 0 <= j < i ==> a[j] == OwnIn(old(a[j]), p)
      invariant forall j :: i <= j < a.Length ==> a[j] == old(a[j])
    {
      if a[i].period == p && !Terminal(a[i]) && a[i].status.BlockedStatus? && !a[i].state.Current? {
        a[i] := a[i].(state := BlockedState);
      }
    }
  }

  function LaterIn(t: Task, p: Period): Task { if Later(t, p) then Waiting(t, p) else t }

  method BlockLater(a: array<Task>, p: Period)
    modifies a
    ensures forall j :: 0 <= j < a.Length ==> a[j] == LaterIn(old(a[j]), p)
  {
    hide LaterIn;
    for i := 0 to a.Length
      invariant forall j :: 0 <= j < i ==> a[j] == LaterIn(old(a[j]), p)
      invariant forall j :: i <= j < a.Length ==> a[j] == old(a[j])
    {
      var t := Visit(a[i], p);
      a[i] := t;
    }
  }

  method Visit(t: Task, p: Period) returns (u: Task)
    ensures u == LaterIn(t, p)
  {
    if !Later(t, p) || Terminal(t) {
      return t;
    }
    var blockers := t.blockers.GetOr([]);
    if PreviousFold(p) !in blockers {
      blockers := [PreviousFold(p)] + blockers;
    }
    u := t.(status := BlockedStatus, state := BlockedState, blockers := Some(blockers), blockedBy := Some(p));
  }

  lemma TwoPassesGate(t: Task, p: Period)
    ensures GateTask(t, p) == LaterIn(OwnIn(t, p), p)
  {
  }

  /** Updates the tasks in place: first the open fold's own, then everything after it. */
  method BlockTimeline(a: array<Task>, order: seq<Period>)
    modifies a
    ensures a[..] == Gate(old(a[..]), order)
  {
    var open := FindFirstOpen(a, order);
    if open.None? {
      return;
    }
    ghost var before := a[..];
    BlockOwn(a, open.value);
    BlockLater(a, open.value);
    forall j | 0 <= j < a.Length ensures a[j] == GateTask(before[j], open.value) {
      TwoPassesGate(before[j], open.value);
    }
  }
}
