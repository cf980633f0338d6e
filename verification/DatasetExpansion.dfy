/**
 The dataset expansion planner: layers in dependency order, each filling train, calibration, validation and test
 coverage, then a required forward holdout, then shadow monitoring once production is approved.
 */
module DatasetExpansion {
  import opened Wrappers

  datatype Role = Train | Calibration | Validation | Test | ForwardHoldout | ShadowMonitoring

  /** Normalised promotion gaps; the first six call for a forward holdout. */
  datatype Gap = Coverage | Drift | SplitStability | StaleHoldout | RegimeCoverage | BaselineInstability
               | MissingLabels | MissingEvalRun | OtherGap(text: string)

  datatype RoleEvidence = RoleEvidence(role: Role, months: int)
  datatype LayerEvidence = LayerEvidence(roles: seq<RoleEvidence>, gaps: set<Gap>, approved: bool)

  /** A layer's number and the numbers of the layers it depends on; layers are listed in increasing order. */
  datatype LayerMeta = LayerMeta(layer: nat, dependsOn: seq<nat>)

  datatype Minimums = Minimums(train: nat, calibration: nat, validation: nat, test: nat, holdout: nat, shadow: nat)
  datatype Choice = Choice(layer: nat, role: Role)

  type Evidence = map<nat, LayerEvidence>

  const LAYERS := [LayerMeta(1, []), LayerMeta(2, [1]), LayerMeta(3, [1, 2]), LayerMeta(4, [1, 2, 3]),
      LayerMeta(5, [4])]
  const DEFAULT_MINIMUMS := Minimums(60, 12, 12, 12, 6, 1)
  const BASE_ROLES := [Train, Calibration, Validation, Test]

  function Required(min: Minimums, role: Role): nat {
    match role
    case Train => min.train
    case Calibration => min.calibration
    case Validation => min.validation
    case Test => min.test
    case ForwardHoldout => min.holdout
    case ShadowMonitoring => min.shadow
  }

  /** A later entry for the same role wins; a role without an entry has no months. */
  function Months(roles: seq<RoleEvidence>, role: Role): int {
    if roles == [] then 0
    else if roles[|roles| - 1].role == role then roles[|roles| - 1].months
    else Months(roles[..|roles| - 1], role)
  }

  predicate Short(e: LayerEvidence, min: Minimums, role: Role) { Months(e.roles, role) < Required(min, role) }

  predicate MinimumsMet(e: LayerEvidence, min: Minimums) {
    forall r :: r in BASE_ROLES ==> !Short(e, min, r)
  }

  predicate NeedsHoldout(e: LayerEvidence) {
    e.gaps * {Coverage, Drift, SplitStability, StaleHoldout, RegimeCoverage, BaselineInstability} != {}
  }

  predicate UpstreamReady(meta: LayerMeta, ev: Evidence, min: Minimums)
    requires forall d :: d in meta.dependsOn ==> d in ev
  {
    forall d :: d in meta.dependsOn ==> MinimumsMet(ev[d], min)
  }

  // ----- the planner -----

  function FirstGap(e: LayerEvidence, min: Minimums): Option<Role> {
    if Short(e, min, Train) then Some(Train)
    else if Short(e, min, Calibration) then Some(Calibration)
    else if Short(e, min, Validation) then Some(Validation)
    else if Short(e, min, Test) then Some(Test)
    else if NeedsHoldout(e) && Short(e, min, ForwardHoldout) then Some(ForwardHoldout)
    else if e.approved && Short(e, min, ShadowMonitoring) then Some(ShadowMonitoring)
    else None
  }

  /** Every listed layer and every dependency has evidence, as the evidence loader provides. */
  predicate Covered(layers: seq<LayerMeta>, ev: Evidence) {
    forall i :: 0 <= i < |layers| ==> layers[i].layer in ev && forall d :: d in layers[i].dependsOn ==> d in ev
  }

  function DecideFrom(layers: seq<LayerMeta>, ev: Evidence, min: Minimums, i: nat): Option<Choice>
    requires Covered(layers, ev) && i <= |layers|
    decreases |layers| - i
  {
    if i == |layers| then None
    else if !UpstreamReady(layers[i], ev, min) then DecideFrom(layers, ev, min, i + 1)
    else
      var gap := FirstGap(ev[layers[i].layer], min);
      if gap.Some? then Some(Choice(layers[i].layer, gap.value)) else DecideFrom(layers, ev, min, i + 1)
  }

  function Decide(layers: seq<LayerMeta>, ev: Evidence, min: Minimums): Option<Choice>
    requires Covered(layers, ev)
  {
    DecideFrom(layers, ev, min, 0)
  }

  // ----- least gap, and completeness -----

  /** A layer's roles that its evidence obliges it to cover. */
  predicate Obliged(e: LayerEvidence, role: Role) {
    match role
    case ForwardHoldout => NeedsHoldout(e)
    case ShadowMonitoring => e.approved
    case _ => true
  }

  predicate Lacks(e: LayerEvidence, min: Minimums, role: Role) { Obliged(e, role) && Short(e, min, role) }

  function Rank(role: Role): nat {
    match role
    case Train => 0
    case Calibration => 1
    case Validation => 2
    case Test => 3
    case ForwardHoldout => 4
    case ShadowMonitoring => 5
  }

  lemma FirstGapIsLeast(e: LayerEvidence, min: Minimums)
    ensures match FirstGap(e, min)
            case Some(r) => Lacks(e, min, r) && forall q :: Lacks(e, min, q) ==> Rank(r) <= Rank(q)
            case None => (forall q :: !Lacks(e, min, q)) && MinimumsMet(e, min)
  {
  }

  /** Each layer depends only on layers listed before it, and each layer is listed once. */
  ghost predicate Chronological(layers: seq<LayerMeta>) {
    && (forall i, j :: 0 <= i < j < |layers| ==> layers[i].layer < layers[j].layer)
    && forall i, d :: 0 <= i < |layers| && d in layers[i].dependsOn ==> exists j :: 0 <= j < i && layers[j].layer == d
  }

  lemma LayersAreChronological()
    ensures Chronological(LAYERS)
  {
    forall i, d | 0 <= i < |LAYERS| && d in LAYERS[i].dependsOn ensures exists j :: 0 <= j < i && LAYERS[j].layer == d {
      assert LAYERS[0].layer == 1 && LAYERS[1].layer == 2 && LAYERS[2].layer == 3 && LAYERS[3].layer == 4;
      assert 0 <= d - 1 < i && LAYERS[d - 1].layer == d;
    }
  }

  /** Layer i lacks a role, nothing before it does, and the role is its first. */
  ghost predicate LeastGapAt(layers: seq<LayerMeta>, ev: Evidence, min: Minimums, i: nat, role: Role)
    requires Covered(layers, ev)
  {
    && i < |layers|
    && (forall j, q :: 0 <= j < i ==> !Lacks(ev[layers[j].layer], min, q))
    && Lacks(ev[layers[i].layer], min, role)
    && forall q :: Lacks(ev[layers[i].layer], min, q) ==> Rank(role) <= Rank(q)
  }

  lemma {:induction false} DecideFromFinds(layers: seq<LayerMeta>, ev: Evidence, min: Minimums, i: nat)
    requires Covered(layers, ev) && Chronological(layers) && i <= |layers|
    requires forall j :: 0 <= j < i ==> FirstGap(ev[layers[j].layer], min).None?
    ensures match DecideFrom(layers, ev, min, i)
            case Some(c) => exists k: nat :: LeastGapAt(layers, ev, min, k, c.role) && layers[k].layer == c.layer
                                             && UpstreamReady(layers[k], ev, min)
            case None => forall j, q :: 0 <= j < |layers| ==> !Lacks(ev[layers[j].layer], min, q)
    decreases |layers| - i
  {
    forall j | 0 <= j < i ensures MinimumsMet(ev[layers[j].layer], min)
        && forall q :: !Lacks(ev[layers[j].layer], min, q) {
      FirstGapIsLeast(ev[layers[j].layer], min);
    }
    if i < |layers| {
      assert UpstreamReady(layers[i], ev, min);
      FirstGapIsLeast(ev[layers[i].layer], min);
      var gap := FirstGap(ev[layers[i].layer], min);
      if gap.Some? {
        assert LeastGapAt(layers, ev, min, i, gap.value);
      } else {
        DecideFromFinds(layers, ev, min, i + 1);
      }
    }
  }

  /**
   The planner selects the first missing role of the first layer that lacks one, whose dependencies are then
   satisfied, and selects nothing exactly when no layer lacks anything it is obliged to cover.
   */
  lemma DecideIsLeastGap(layers: seq<LayerMeta>, ev: Evidence, min: Minimums)
    requires Covered(layers, ev) && Chronological(layers)
    ensures match Decide(layers, ev, min)
            case Some(c) => exists k: nat :: LeastGapAt(layers, ev, min, k, c.role) && layers[k].layer == c.layer
                                             && UpstreamReady(layers[k], ev, min)
            case None => forall j, q :: 0 <= j < |layers| ==> !Lacks(ev[layers[j].layer], min, q)
  {
    DecideFromFinds(layers, ev, min, 0);
  }

  // ----- the minimums, field by field -----

  /** The four base roles against their own minimums. */
  ghost predicate BaseMet(e: LayerEvidence, min: Minimums) {
    && Months(e.roles, Train) >= min.train && Months(e.roles, Calibration) >= min.calibration
    && Months(e.roles, Validation) >= min.validation && Months(e.roles, Test) >= min.test
  }

  /** One of the six gaps that ask for new months kept apart. */
  ghost predicate HoldoutAsked(e: LayerEvidence) {
    Coverage in e.gaps || Drift in e.gaps || SplitStability in e.gaps || StaleHoldout in e.gaps
    || RegimeCoverage in e.gaps || BaselineInstability in e.gaps
  }

  lemma NeedsHoldoutIff(e: LayerEvidence)
    ensures NeedsHoldout(e) <==> HoldoutAsked(e)
  {
    var asking := {Coverage, Drift, SplitStability, StaleHoldout, RegimeCoverage, BaselineInstability};
    assert forall g :: g in e.gaps * asking <==> g in e.gaps && g in asking;
    if HoldoutAsked(e) {
      var g :| g in e.gaps && g in asking;
      assert g in e.gaps * asking;
    }
  }

  ghost predicate LastEntry(roles: seq<RoleEvidence>, role: Role, i: nat) {
    i < |roles| && roles[i].role == role && forall j :: i < j < |roles| ==> roles[j].role != role
  }

  /** The months of a role are those of its last entry, and none without an entry. */
  lemma {:induction false} MonthsSay(roles: seq<RoleEvidence>, role: Role, i: nat)
    ensures (forall r :: r in roles ==> r.role != role) ==> Months(roles, role) == 0
    ensures LastEntry(roles, role, i) ==> Months(roles, role) == roles[i].months
  {
    if roles != [] {
      var n := |roles| - 1;
      MonthsSay(roles[..n], role, i);
      assert roles[n] in roles;
    }
  }

  /** Nothing is missing: the base roles, a holdout if a gap calls for one, shadow monitoring if approved. */
  ghost predicate AllMet(e: LayerEvidence, min: Minimums) {
    && BaseMet(e, min)
    && (HoldoutAsked(e) ==> Months(e.roles, ForwardHoldout) >= min.holdout)
    && (e.approved ==> Months(e.roles, ShadowMonitoring) >= min.shadow)
  }

  /**
   What the first missing role says about the months: the roles ahead of it have what their own minimums ask, it has
   fewer, and a holdout or shadow role is only chosen when it is called for.
   */
  ghost predicate FirstShort(e: LayerEvidence, min: Minimums, role: Role) {
    match role
    case Train => Months(e.roles, Train) < min.train
    case Calibration => Months(e.roles, Train) >= min.train && Months(e.roles, Calibration) < min.calibration
    case Validation =>
      && Months(e.roles, Train) >= min.train && Months(e.roles, Calibration) >= min.calibration
      && Months(e.roles, Validation) < min.validation
    case Test =>
      && Months(e.roles, Train) >= min.train && Months(e.roles, Calibration) >= min.calibration
      && Months(e.roles, Validation) >= min.validation && Months(e.roles, Test) < min.test
    case ForwardHoldout =>
      BaseMet(e, min) && HoldoutAsked(e) && Months(e.roles, ForwardHoldout) < min.holdout
    case ShadowMonitoring =>
      && BaseMet(e, min) && (HoldoutAsked(e) ==> Months(e.roles, ForwardHoldout) >= min.holdout)
      && e.approved && Months(e.roles, ShadowMonitoring) < min.shadow
  }

  lemma MinimumsMetIff(e: LayerEvidence, min: Minimums)
    ensures MinimumsMet(e, min) <==> BaseMet(e, min)
  {
    assert Train in BASE_ROLES && Calibration in BASE_ROLES && Validation in BASE_ROLES && Test in BASE_ROLES;
  }

  lemma NoLackIff(e: LayerEvidence, min: Minimums)
    ensures (forall q :: !Lacks(e, min, q)) <==> AllMet(e, min)
  {
    NeedsHoldoutIff(e);
    hide NeedsHoldout, HoldoutAsked;
    if forall q :: !Lacks(e, min, q) {
      assert !Lacks(e, min, Train) && !Lacks(e, min, Calibration) && !Lacks(e, min, Validation)
          && !Lacks(e, min, Test) && !Lacks(e, min, ForwardHoldout) && !Lacks(e, min, ShadowMonitoring);
    }
  }

  ghost predicate LeastLack(e: LayerEvidence, min: Minimums, role: Role) {
    Lacks(e, min, role) && forall q :: Lacks(e, min, q) ==> Rank(role) <= Rank(q)
  }

  lemma LeastLackIff(e: LayerEvidence, min: Minimums, role: Role)
    ensures LeastLack(e, min, role) <==> FirstShort(e, min, role)
  {
    NeedsHoldoutIff(e);
    hide NeedsHoldout, HoldoutAsked;
    if LeastLack(e, min, role) {
      assert Rank(role) > 0 ==> !Lacks(e, min, Train);
      assert Rank(role) > 1 ==> !Lacks(e, min, Calibration);
      assert Rank(role) > 2 ==> !Lacks(e, min, Validation);
      assert Rank(role) > 3 ==> !Lacks(e, min, Test);
      assert Rank(role) > 4 ==> !Lacks(e, min, ForwardHoldout);
    }
  }

  lemma ShortIsNotMet(e: LayerEvidence, min: Minimums, r: Role, q: Role)
    requires FirstShort(e, min, r)
    ensures !AllMet(e, min) && (FirstShort(e, min, q) ==> r == q)
  {
  }

  /** Layer k is the first with anything missing, and the role is its first short one. */
  ghost predicate FirstShortAt(layers: seq<LayerMeta>, ev: Evidence, min: Minimums, k: nat, role: Role)
    requires Covered(layers, ev)
  {
    && k < |layers| && FirstShort(ev[layers[k].layer], min, role)
    && forall j :: 0 <= j < k ==> AllMet(ev[layers[j].layer], min)
  }

  lemma LeastGapByField(layers: seq<LayerMeta>, ev: Evidence, min: Minimums, k: nat, role: Role)
    requires Covered(layers, ev)
    ensures LeastGapAt(layers, ev, min, k, role) <==> FirstShortAt(layers, ev, min, k, role)
  {
    hide Lacks, AllMet, FirstShort;
    if k < |layers| {
      LeastLackIff(ev[layers[k].layer], min, role);
      forall j | 0 <= j < k {
        NoLackIff(ev[layers[j].layer], min);
      }
    }
  }

  lemma OneShortAt(layers: seq<LayerMeta>, ev: Evidence, min: Minimums, k: nat, r: Role, m: nat, q: Role)
    requires Covered(layers, ev) && FirstShortAt(layers, ev, min, k, r) && FirstShortAt(layers, ev, min, m, q)
    ensures k == m && r == q
  {
    hide AllMet, FirstShort;
    ShortIsNotMet(ev[layers[k].layer], min, r, q);
    ShortIsNotMet(ev[layers[m].layer], min, q, r);
  }

  ghost predicate ShortChoice(layers: seq<LayerMeta>, ev: Evidence, min: Minimums, c: Choice)
    requires Covered(layers, ev)
  {
    exists k: nat :: FirstShortAt(layers, ev, min, k, c.role) && layers[k].layer == c.layer
                     && forall d :: d in layers[k].dependsOn ==> BaseMet(ev[d], min)
  }

  /**
   The planner's choice by the months and the fields of the minimums: it chooses a role of a layer exactly when that
   is the first short one, whose dependencies then have their four base minimums, and it chooses nothing exactly when
   every layer has all it is asked for.
   */
  lemma DecideByField(layers: seq<LayerMeta>, ev: Evidence, min: Minimums)
    requires Covered(layers, ev) && Chronological(layers)
    ensures Decide(layers, ev, min).None? <==> forall j :: 0 <= j < |layers| ==> AllMet(ev[layers[j].layer], min)
    ensures forall c :: Decide(layers, ev, min) == Some(c) <==> ShortChoice(layers, ev, min, c)
  {
    hide Decide, Lacks, AllMet, FirstShort, BaseMet, MinimumsMet, Chronological;
    DecideIsLeastGap(layers, ev, min);
    if Decide(layers, ev, min).Some? {
      var c := Decide(layers, ev, min).value;
      var k: nat :| LeastGapAt(layers, ev, min, k, c.role) && layers[k].layer == c.layer
                    && UpstreamReady(layers[k], ev, min);
      LeastGapByField(layers, ev, min, k, c.role);
      forall d | d in layers[k].dependsOn ensures BaseMet(ev[d], min) {
        MinimumsMetIff(ev[d], min);
      }
      assert ShortChoice(layers, ev, min, c);
      forall b | ShortChoice(layers, ev, min, b) ensures b == c {
        var m: nat :| FirstShortAt(layers, ev, min, m, b.role) && layers[m].layer == b.layer;
        OneShortAt(layers, ev, min, k, c.role, m, b.role);
      }
      ShortLayer(layers, ev, min, k, c.role);
    } else {
      forall j | 0 <= j < |layers| ensures AllMet(ev[layers[j].layer], min) {
        NoLackIff(ev[layers[j].layer], min);
      }
      forall k: nat, role ensures !FirstShortAt(layers, ev, min, k, role) {
        if FirstShortAt(layers, ev, min, k, role) {
          ShortLayer(layers, ev, min, k, role);
        }
      }
    }
  }

  /** The configured layers: the first four depend on all earlier ones, the fifth on the fourth alone. */
  lemma ConfiguredDependencies(i: nat, d: nat)
    requires i < |LAYERS|
    ensures LAYERS[i].layer == i + 1
    ensures d in LAYERS[i].dependsOn <==> 1 <= d <= i && (i == 4 ==> d == 4)
  {
  }

  /** What the default minimums ask of one layer. */
  ghost predicate DefaultsMet(e: LayerEvidence) {
    && Months(e.roles, Train) >= 60 && Months(e.roles, Calibration) >= 12
    && Months(e.roles, Validation) >= 12 && Months(e.roles, Test) >= 12
    && (HoldoutAsked(e) ==> Months(e.roles, ForwardHoldout) >= 6)
    && (e.approved ==> Months(e.roles, ShadowMonitoring) >= 1)
  }

  /** The configured plan with the default minimums: it starts by filling five years of training for layer 1. */
  lemma DefaultPlan(ev: Evidence)
    requires Covered(LAYERS, ev) && 1 in ev && 2 in ev && 3 in ev && 4 in ev && 5 in ev
    ensures Decide(LAYERS, ev, DEFAULT_MINIMUMS) == Some(Choice(1, Train)) <==> Months(ev[1].roles, Train) < 60
    ensures Decide(LAYERS, ev, DEFAULT_MINIMUMS).None?
       <==> DefaultsMet(ev[1]) && DefaultsMet(ev[2]) && DefaultsMet(ev[3]) && DefaultsMet(ev[4]) && DefaultsMet(ev[5])
  {
    hide Decide, HoldoutAsked;
    LayersAreChronological();
    DecideByField(LAYERS, ev, DEFAULT_MINIMUMS);
    assert LAYERS[0].layer == 1 && LAYERS[1].layer == 2 && LAYERS[2].layer == 3 && LAYERS[3].layer == 4
        && LAYERS[4].layer == 5 && LAYERS[0].dependsOn == [];
    if Months(ev[1].roles, Train) < 60 {
      assert FirstShortAt(LAYERS, ev, DEFAULT_MINIMUMS, 0, Train);
      assert ShortChoice(LAYERS, ev, DEFAULT_MINIMUMS, Choice(1, Train));
    }
    if ShortChoice(LAYERS, ev, DEFAULT_MINIMUMS, Choice(1, Train)) {
      var k: nat :| FirstShortAt(LAYERS, ev, DEFAULT_MINIMUMS, k, Train) && LAYERS[k].layer == 1;
      ConfiguredDependencies(k, 0);
    }
  }

  lemma ShortLayer(layers: seq<LayerMeta>, ev: Evidence, min: Minimums, k: nat, role: Role)
    requires Covered(layers, ev) && FirstShortAt(layers, ev, min, k, role)
    ensures k < |layers| && !AllMet(ev[layers[k].layer], min)
  {
    ShortIsNotMet(ev[layers[k].layer], min, role, role);
  }

  /** The walk without the upstream check. */
  function PlainWalk(layers: seq<LayerMeta>, ev: Evidence, min: Minimums, i: nat): Option<Choice>
    requires Covered(layers, ev) && i <= |layers|
    decreases |layers| - i
  {
    if i == |layers| then None
    else
      var gap := FirstGap(ev[layers[i].layer], min);
      if gap.Some? then Some(Choice(layers[i].layer, gap.value)) else PlainWalk(layers, ev, min, i + 1)
  }

  /** In dependency order the upstream check never skips a layer: it changes no decision. */
  lemma {:induction false} UpstreamCheckIsRedundant(layers: seq<LayerMeta>, ev: Evidence, min: Minimums, i: nat)
    requires Covered(layers, ev) && Chronological(layers) && i <= |layers|
    requires forall j :: 0 <= j < i ==> FirstGap(ev[layers[j].layer], min).None?
    ensures DecideFrom(layers, ev, min, i) == PlainWalk(layers, ev, min, i)
    decreases |layers| - i
  {
    forall j | 0 <= j < i ensures MinimumsMet(ev[layers[j].layer], min) {
      FirstGapIsLeast(ev[layers[j].layer], min);
    }
    if i < |layers| {
      assert UpstreamReady(layers[i], ev, min);
      if FirstGap(ev[layers[i].layer], min).None? {
        UpstreamCheckIsRedundant(layers, ev, min, i + 1);
      }
    }
  }

  // ----- iterating the planner -----

  /** The chosen role of the chosen layer gained at least one month; nothing else changed. */
  ghost predicate Grew(before: Evidence, after: Evidence, c: Choice) {
    && c.layer in before && before.Keys == after.Keys
    && (forall l :: l in before && l != c.layer ==> after[l] == before[l])
    && after[c.layer].gaps == before[c.layer].gaps && after[c.layer].approved == before[c.layer].approved
    && Months(after[c.layer].roles, c.role) > Months(before[c.layer].roles, c.role)
    && forall q :: q != c.role ==> Months(after[c.layer].roles, q) == Months(before[c.layer].roles, q)
  }

  function Deficit(e: LayerEvidence, min: Minimums, role: Role): nat {
    if Lacks(e, min, role) then Required(min, role) - Months(e.roles, role) else 0
  }

  function LayerDeficit(e: LayerEvidence, min: Minimums): nat {
    Deficit(e, min, Train) + Deficit(e, min, Calibration) + Deficit(e, min, Validation) + Deficit(e, min, Test)
    + Deficit(e, min, ForwardHoldout) + Deficit(e, min, ShadowMonitoring)
  }

  function TotalDeficit(layers: seq<LayerMeta>, ev: Evidence, min: Minimums): nat
    requires Covered(layers, ev)
  {
    if layers == [] then 0
    else TotalDeficit(layers[..|layers| - 1], ev, min) + LayerDeficit(ev[layers[|layers| - 1].layer], min)
  }

  lemma LayerDeficitDrops(before: LayerEvidence, after: LayerEvidence, min: Minimums, role: Role)
    requires Lacks(before, min, role) && after.gaps == before.gaps && after.approved == before.approved
    requires Months(after.roles, role) > Months(before.roles, role)
    requires forall q :: q != role ==> Months(after.roles, q) == Months(before.roles, q)
    ensures LayerDeficit(after, min) < LayerDeficit(before, min)
  {
    assert Deficit(after, min, role) < Deficit(before, min, role);
    assert forall q :: q != role ==> Deficit(after, min, q) == Deficit(before, min, q);
  }

  lemma {:induction false} DeficitDrops(layers: seq<LayerMeta>, before: Evidence, after: Evidence, min: Minimums,
        c: Choice)
    requires Covered(layers, before) && Covered(layers, after) && Grew(before, after, c)
    requires Lacks(before[c.layer], min, c.role)
    requires forall i, j :: 0 <= i < j < |layers| ==> layers[i].layer < layers[j].layer
    ensures TotalDeficit(layers, after, min) <= TotalDeficit(layers, before, min)
    ensures (exists i :: 0 <= i < |layers| && layers[i].layer == c.layer)
        ==> TotalDeficit(layers, after, min) < TotalDeficit(layers, before, min)
  {
    if layers != [] {
      var n := |layers| - 1;
      DeficitDrops(layers[..n], before, after, min, c);
      if layers[n].layer == c.layer {
        LayerDeficitDrops(before[c.layer], after[c.layer], min, c.role);
      } else if i :| 0 <= i < |layers| && layers[i].layer == c.layer {
        assert layers[..n][i].layer == c.layer;
      }
    }
  }

  /** A run of the planner: each state grows where the planner chose in the state before. */
  ghost predicate PlannedRun(layers: seq<LayerMeta>, min: Minimums, run: seq<Evidence>) {
    && (forall i :: 0 <= i < |run| ==> Covered(layers, run[i]))
    && forall i: nat :: i < |run| - 1 ==> PlannedAt(layers, min, run, i)
  }

  ghost predicate PlannedAt(layers: seq<LayerMeta>, min: Minimums, run: seq<Evidence>, i: nat)
    requires i < |run| - 1 && forall j :: 0 <= j < |run| ==> Covered(layers, run[j])
  {
    Decide(layers, run[i], min).Some? && Grew(run[i], run[i + 1], Decide(layers, run[i], min).value)
  }

  lemma ChoiceLacks(layers: seq<LayerMeta>, ev: Evidence, min: Minimums)
    requires Covered(layers, ev) && Chronological(layers) && Decide(layers, ev, min).Some?
    ensures var c := Decide(layers, ev, min).value;
            && c.layer in ev && Lacks(ev[c.layer], min, c.role)
            && exists i :: 0 <= i < |layers| && layers[i].layer == c.layer
  {
    DecideIsLeastGap(layers, ev, min);
  }

  /** Every step strictly lowers the total deficit, so a run is no longer than the deficit it starts with. */
  lemma {:induction false} RunIsBounded(layers: seq<LayerMeta>, min: Minimums, run: seq<Evidence>)
    requires Chronological(layers) && PlannedRun(layers, min, run) && run != []
    ensures TotalDeficit(layers, run[|run| - 1], min) + (|run| - 1) <= TotalDeficit(layers, run[0], min)
  {
    if |run| > 1 {
      var n := |run| - 1;
      forall i: nat | i < n - 1 ensures PlannedAt(layers, min, run[..n], i) {
        assert PlannedAt(layers, min, run, i);
      }
      RunIsBounded(layers, min, run[..n]);
      PlannedStepDrops(layers, min, run, n - 1);
    }
  }

  lemma PlannedStepDrops(layers: seq<LayerMeta>, min: Minimums, run: seq<Evidence>, i: nat)
    requires Chronological(layers) && PlannedRun(layers, min, run) && i < |run| - 1
    ensures TotalDeficit(layers, run[i + 1], min) < TotalDeficit(layers, run[i], min)
  {
    hide Decide, TotalDeficit, Lacks, Grew;
    assert PlannedAt(layers, min, run, i);
    ChoiceLacks(layers, run[i], min);
    DeficitDrops(layers, run[i], run[i + 1], min, Decide(layers, run[i], min).value);
  }

  lemma {:induction false} NoLackNoDeficit(layers: seq<LayerMeta>, ev: Evidence, min: Minimums)
    requires Covered(layers, ev) && forall j, q :: 0 <= j < |layers| ==> !Lacks(ev[layers[j].layer], min, q)
    ensures TotalDeficit(layers, ev, min) == 0
  {
    if layers != [] {
      NoLackNoDeficit(layers[..|layers| - 1], ev, min);
      assert !Lacks(ev[layers[|layers| - 1].layer], min, Train);
    }
  }

  lemma {:induction false} LackHasDeficit(layers: seq<LayerMeta>, ev: Evidence, min: Minimums, j: nat, role: Role)
    requires Covered(layers, ev) && j < |layers| && Lacks(ev[layers[j].layer], min, role)
    ensures TotalDeficit(layers, ev, min) > 0
  {
    if j < |layers| - 1 {
      LackHasDeficit(layers[..|layers| - 1], ev, min, j, role);
    } else {
      assert Deficit(ev[layers[j].layer], min, role) > 0;
    }
  }

  /** The planner rests exactly when there is no deficit left anywhere. */
  lemma RestsIffNoDeficit(layers: seq<LayerMeta>, ev: Evidence, min: Minimums)
    requires Covered(layers, ev) && Chronological(layers)
    ensures Decide(layers, ev, min).None? <==> TotalDeficit(layers, ev, min) == 0
  {
    DecideIsLeastGap(layers, ev, min);
    if Decide(layers, ev, min).None? {
      NoLackNoDeficit(layers, ev, min);
    } else {
      var c := Decide(layers, ev, min).value;
      var k: nat :| LeastGapAt(layers, ev, min, k, c.role) && layers[k].layer == c.layer;
      LackHasDeficit(layers, ev, min, k, c.role);
    }
  }

  /** Layers, then roles within a layer, in the planner's order. */
  predicate NotBefore(a: Choice, b: Choice) {
    a.layer < b.layer || (a.layer == b.layer && Rank(a.role) <= Rank(b.role))
  }

  lemma GrowthKeepsLacks(before: Evidence, after: Evidence, min: Minimums, c: Choice, l: nat, role: Role)
    requires Grew(before, after, c) && l in before && Lacks(after[l], min, role)
    ensures Lacks(before[l], min, role)
  {
  }

  /** Successive choices never go back: layer by layer, and role by role within a layer. */
  lemma ChoicesRise(layers: seq<LayerMeta>, before: Evidence, after: Evidence, min: Minimums)
    requires Chronological(layers) && Covered(layers, before) && Covered(layers, after)
    requires Decide(layers, before, min).Some? && Decide(layers, after, min).Some?
    requires Grew(before, after, Decide(layers, before, min).value)
    ensures NotBefore(Decide(layers, before, min).value, Decide(layers, after, min).value)
  {
    var c, d := Decide(layers, before, min).value, Decide(layers, after, min).value;
    DecideIsLeastGap(layers, before, min);
    DecideIsLeastGap(layers, after, min);
    var k: nat :| LeastGapAt(layers, before, min, k, c.role) && layers[k].layer == c.layer;
    var m: nat :| LeastGapAt(layers, after, min, m, d.role) && layers[m].layer == d.layer;
    GrowthKeepsLacks(before, after, min, c, d.layer, d.role);
  }

  /** A layer is only ever extended while everything it depends on meets all four minimums. */
  lemma ExtensionsFollowDependencies(layers: seq<LayerMeta>, min: Minimums, run: seq<Evidence>, i: nat)
    requires Chronological(layers) && PlannedRun(layers, min, run) && i < |run| - 1
    ensures Decide(layers, run[i], min).Some?
    ensures exists k :: 0 <= k < |layers| && layers[k].layer == Decide(layers, run[i], min).value.layer
                        && UpstreamReady(layers[k], run[i], min)
  {
    assert PlannedAt(layers, min, run, i);
    DecideIsLeastGap(layers, run[i], min);
  }
}
