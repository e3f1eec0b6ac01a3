/**
 The correction of a recommended replica count by the scaling behavior
 (pkg/autoscaler/algorithm/revision.go).

 int32 values are unbounded integers here; the two saturation constants of the
 source stay, because an unknown select policy uses them as "no limit".
 */
module Revision {
  import opened Common
  import opened SlidingWindow

  datatype SelectPolicy = Or | And | Unset

  /** Durations are in milliseconds; an omitted one is zero. */
  datatype StablePolicy = StablePolicy(instances: int, percent: int, period: int, select: SelectPolicy, stabilization: int)

  datatype Behavior = Behavior(
    scaleUp: StablePolicy,
    scaleDown: StablePolicy,
    panicPercent: int,
    panicPeriod: int,
    panicThreshold: Option<int>,
    panicHold: int)

  // ----- The arithmetic of the limits -----

  function ScaleDownConstraint(p: StablePolicy, past: int): int {
    var absolute := past - p.instances;
    var relative := past - TruncDiv(past * p.percent, 100);
    match p.select
    case Or => Min(absolute, relative)
    case And => Max(absolute, relative)
    case Unset => MIN_INT32
  }

  function ScaleUpConstraint(p: StablePolicy, past: int): int {
    var absolute := past + p.instances;
    var relative := past + TruncDiv(past * p.percent, 100);
    match p.select
    case Or => Max(absolute, relative)
    case And => Min(absolute, relative)
    case Unset => MAX_INT32
  }

  function PanicConstraint(percent: int, past: int): int {
    past + TruncDiv(past * percent, 100)
  }

  lemma {:induction false} ShareGrowsSlowly(percent: int, v: int, w: int)
    requires 0 <= percent && 0 <= v <= w
    ensures v * percent / 100 <= w * percent / 100
    ensures percent <= 100 ==> w * percent / 100 - v * percent / 100 <= w - v
    ensures percent >= 100 ==> v <= v * percent / 100
    ensures 0 <= v * percent / 100
  {
    assert w * percent - v * percent == (w - v) * percent;
    assert 0 <= (w - v) * percent && 0 <= v * percent;
    assert percent <= 100 ==> (w - v) * percent <= (w - v) * 100;
    assert percent >= 100 ==> v * 100 <= v * percent;
  }

  /** A larger past value limits at least as strongly, down to zero, whatever the percentage. */
  lemma {:induction false} ScaleDownConstraintMonotone(p: StablePolicy, v: int, past: int)
    requires p.instances >= 0 && p.percent >= 0 && 0 <= v <= past
    ensures ScaleDownConstraint(p, v) <= Max(0, ScaleDownConstraint(p, past))
    ensures ScaleDownConstraint(p, v) <= v
  {
    ShareGrowsSlowly(p.percent, v, past);
    assert 0 <= v * p.percent && 0 <= past * p.percent;
  }

  /** A smaller past value limits at least as strongly. */
  lemma {:induction false} ScaleUpConstraintMonotone(p: StablePolicy, v: int, past: int)
    requires p.instances >= 0 && p.percent >= 0 && 0 <= past <= v <= MAX_INT32
    ensures ScaleUpConstraint(p, past) <= ScaleUpConstraint(p, v)
    ensures v <= ScaleUpConstraint(p, v)
  {
    ShareGrowsSlowly(p.percent, past, v);
    assert 0 <= v * p.percent && 0 <= past * p.percent;
  }

  // ----- What is corrected to, as a function of everything recorded so far -----

  ghost function RecordAnswer(goal: Goal, h: seq<Record<int>>, span: int, now: int): Option<int> {
    if span == 0 then None else BestFresh(goal, h, span, now)
  }

  ghost function ChartAnswer(goal: Goal, h: seq<Record<int>>, span: int, now: int, current: int): Option<int> {
    if span == 0 then None else Some(ChartBest(goal, h, span, now, current, |h|))
  }

  ghost function ScaledDown(b: Behavior, recs: seq<Record<int>>, cors: seq<Record<int>>, now: int, current: int, recommended: int): int {
    var peak := RecordAnswer(Maximum, recs, b.scaleDown.stabilization, now);
    var c := if peak.Some? then Max(recommended, peak.value) else recommended;
    var past := ChartAnswer(Maximum, cors, b.scaleDown.period, now, current);
    Min(if past.Some? then Max(c, ScaleDownConstraint(b.scaleDown, past.value)) else c, current)
  }

  ghost function ScaledUp(b: Behavior, recs: seq<Record<int>>, cors: seq<Record<int>>, now: int, current: int, recommended: int): int {
    var dip := RecordAnswer(Minimum, recs, b.scaleUp.stabilization, now);
    var c := if dip.Some? then Min(recommended, dip.value) else recommended;
    var past := ChartAnswer(Minimum, cors, b.scaleUp.period, now, current);
    Max(if past.Some? then Min(c, ScaleUpConstraint(b.scaleUp, past.value)) else c, current)
  }

  ghost function ScaledInPanic(b: Behavior, cors: seq<Record<int>>, now: int, current: int, recommended: int): int {
    var past := ChartAnswer(Minimum, cors, b.panicPeriod, now, current);
    Max(if past.Some? && past.value > 0 then Min(recommended, PanicConstraint(b.panicPercent, past.value)) else recommended, current)
  }

  ghost function Corrected(b: Behavior, isPanic: bool, recs: seq<Record<int>>, cors: seq<Record<int>>,
                           min: int, max: int, now: int, current: int, recommended: int): int {
    var corrected :=
      if isPanic then ScaledInPanic(b, cors, now, current, recommended)
      else if recommended < current then ScaledDown(b, recs, cors, now, current, recommended)
      else if recommended > current then ScaledUp(b, recs, cors, now, current, recommended)
      else recommended;
    Clamp(corrected, min, max)
  }

  // ----- One decision against the records -----

  /** The window of length `period` still sees the count `v`: the current one, or that of a decision in effect. */
  ghost predicate Seen(cors: seq<Record<int>>, period: int, now: int, current: int, v: int) {
    v == current || exists i :: 0 <= i < |cors| && InEffect(cors, i, period, now) && cors[i].value == v
  }

  /** No decision undercuts the scale-down limit of a value in effect, if the current count respects it. */
  lemma {:induction false} CorrectedKeepsDownLimit(b: Behavior, isPanic: bool, recs: seq<Record<int>>, cors: seq<Record<int>>,
                                min: int, max: int, now: int, current: int, recommended: int, v: int)
    requires b.scaleDown.instances >= 0 && b.scaleDown.percent >= 0 && b.scaleDown.period > 0
    requires 0 <= min <= max && min <= recommended <= max && 0 <= v
    requires Seen(cors, b.scaleDown.period, now, current, v)
    requires ScaleDownConstraint(b.scaleDown, v) <= current
    ensures Corrected(b, isPanic, recs, cors, min, max, now, current, recommended) >= Min(max, ScaleDownConstraint(b.scaleDown, v))
  {
    ChartBestIsBest(Maximum, cors, b.scaleDown.period, now, current, |cors|);
    ScaleDownConstraintMonotone(b.scaleDown, v, ChartBest(Maximum, cors, b.scaleDown.period, now, current, |cors|));
  }

  /** Dually, outside panic no decision exceeds the scale-up limit of a value in effect. */
  lemma {:induction false} CorrectedKeepsUpLimit(b: Behavior, recs: seq<Record<int>>, cors: seq<Record<int>>,
                              min: int, max: int, now: int, current: int, recommended: int, v: int)
    requires b.scaleUp.instances >= 0 && b.scaleUp.percent >= 0 && b.scaleUp.period > 0
    requires 0 <= min <= max && min <= recommended <= max && 0 <= current && 0 <= v <= MAX_INT32
    requires forall i :: 0 <= i < |cors| ==> cors[i].value >= 0
    requires Seen(cors, b.scaleUp.period, now, current, v)
    requires current <= ScaleUpConstraint(b.scaleUp, v)
    ensures Corrected(b, false, recs, cors, min, max, now, current, recommended) <= Max(min, ScaleUpConstraint(b.scaleUp, v))
  {
    ChartBestIsBest(Minimum, cors, b.scaleUp.period, now, current, |cors|);
    ScaleUpConstraintMonotone(b.scaleUp, v, ChartBest(Minimum, cors, b.scaleUp.period, now, current, |cors|));
  }

  /** A panic decision is within the panic percentage of `v`, or keeps the count. */
  ghost predicate WithinPanicLimit(b: Behavior, current: int, corrected: int, v: int) {
    corrected <= Max(current, PanicConstraint(b.panicPercent, v))
  }

  /** While the window sees no zero, the jump is limited by every count it sees. */
  lemma {:induction false} CorrectedKeepsPanicLimit(b: Behavior, recs: seq<Record<int>>, cors: seq<Record<int>>,
                                 min: int, max: int, now: int, current: int, recommended: int, v: int)
    requires b.panicPercent >= 0 && b.panicPeriod > 0
    requires 0 <= min <= max && min <= recommended <= max && min <= current
    requires forall i :: 0 <= i < |cors| ==> cors[i].value >= 0
    requires Seen(cors, b.panicPeriod, now, current, v) && !Seen(cors, b.panicPeriod, now, current, 0)
    ensures WithinPanicLimit(b, current, Corrected(b, true, recs, cors, min, max, now, current, recommended), v)
  {
    ChartBestIsBest(Minimum, cors, b.panicPeriod, now, current, |cors|);
    var past := ChartBest(Minimum, cors, b.panicPeriod, now, current, |cors|);
    ShareGrowsSlowly(b.panicPercent, past, v);
    assert 0 <= past * b.panicPercent && 0 <= v * b.panicPercent;
  }

  /** One zero in the window lifts the limit. */
  lemma {:induction false} ZeroLiftsPanicLimit(b: Behavior, recs: seq<Record<int>>, cors: seq<Record<int>>,
                                 min: int, max: int, now: int, current: int, recommended: int)
    requires b.panicPeriod > 0 && min <= current && min <= recommended
    requires 0 <= current && forall i :: 0 <= i < |cors| ==> cors[i].value >= 0
    requires Seen(cors, b.panicPeriod, now, current, 0)
    ensures Corrected(b, true, recs, cors, min, max, now, current, recommended) == Min(max, Max(recommended, current))
  {
    ChartBestIsBest(Minimum, cors, b.panicPeriod, now, current, |cors|);
  }

  /** Exactly when a panic decision is limited by every count the window sees. */
  lemma {:induction false} PanicLimitIff(b: Behavior, recs: seq<Record<int>>, cors: seq<Record<int>>,
                                 min: int, max: int, now: int, current: int, recommended: int)
    requires b.panicPercent >= 0 && b.panicPeriod > 0
    requires 0 <= min <= max && min <= recommended <= max && min <= current
    requires forall i :: 0 <= i < |cors| ==> cors[i].value >= 0
    ensures (forall v :: Seen(cors, b.panicPeriod, now, current, v) ==>
               WithinPanicLimit(b, current, Corrected(b, true, recs, cors, min, max, now, current, recommended), v))
            <==> !Seen(cors, b.panicPeriod, now, current, 0) || recommended <= current
  {
    var corrected := Corrected(b, true, recs, cors, min, max, now, current, recommended);
    if Seen(cors, b.panicPeriod, now, current, 0) {
      ZeroLiftsPanicLimit(b, recs, cors, min, max, now, current, recommended);
      assert WithinPanicLimit(b, current, corrected, 0) <==> corrected <= current;
    } else {
      forall v | Seen(cors, b.panicPeriod, now, current, v) ensures WithinPanicLimit(b, current, corrected, v) {
        CorrectedKeepsPanicLimit(b, recs, cors, min, max, now, current, recommended, v);
      }
    }
  }

  /** Stabilization: a decrease stops at every recent recommendation, and outside panic so does an increase. */
  lemma {:induction false} CorrectedIsStabilized(b: Behavior, isPanic: bool, recs: seq<Record<int>>, cors: seq<Record<int>>,
                              min: int, max: int, now: int, current: int, recommended: int, j: int)
    requires min <= recommended <= max && 0 <= j < |recs| && min <= recs[j].value <= max
    ensures var result := Corrected(b, isPanic, recs, cors, min, max, now, current, recommended);
      && (b.scaleDown.stabilization != 0 && IsFresh(b.scaleDown.stabilization, now, recs[j].time) ==>
            result >= Min(current, recs[j].value))
      && (!isPanic && b.scaleUp.stabilization != 0 && IsFresh(b.scaleUp.stabilization, now, recs[j].time) ==>
            result <= Max(current, recs[j].value))
  {
    BestFreshIsBest(Maximum, recs, b.scaleDown.stabilization, now);
    BestFreshIsBest(Minimum, recs, b.scaleUp.stabilization, now);
  }

  // ----- What a decision is, without the steps that compute it -----

  /** The policy lets a count of `past` reach `v`: by the number of instances, by the percentage of `past`, or by both. */
  ghost predicate MayRise(p: StablePolicy, past: int, v: int) {
    match p.select
    case Or => v - past <= p.instances || 100 * (v - past) <= past * p.percent
    case And => v - past <= p.instances && 100 * (v - past) <= past * p.percent
    case Unset => v <= MAX_INT32
  }

  ghost predicate MayFall(p: StablePolicy, past: int, v: int) {
    match p.select
    case Or => past - v <= p.instances || 100 * (past - v) <= past * p.percent
    case And => past - v <= p.instances && 100 * (past - v) <= past * p.percent
    case Unset => v >= MIN_INT32
  }

  ghost predicate MayJump(percent: int, past: int, v: int) { 100 * (v - past) <= past * percent }

  lemma {:induction false} ShareBounds(past: int, percent: int, step: int)
    requires past >= 0 && percent >= 0
    ensures step <= TruncDiv(past * percent, 100) <==> 100 * step <= past * percent
  {
    assert past * percent >= 0;
  }

  /** The constraints are the greatest and the least count that the policy allows. */
  lemma {:induction false} ConstraintsBound(p: StablePolicy, past: int, v: int)
    requires past >= 0 && p.percent >= 0
    ensures MayRise(p, past, v) <==> v <= ScaleUpConstraint(p, past)
    ensures MayFall(p, past, v) <==> v >= ScaleDownConstraint(p, past)
  {
    ShareBounds(past, p.percent, v - past);
    ShareBounds(past, p.percent, past - v);
  }

  /** What is allowed from a smaller count is allowed from a larger one. */
  lemma {:induction false} MayRiseFromMore(p: StablePolicy, past: int, more: int, v: int)
    requires 0 <= past <= more && p.percent >= 0 && MayRise(p, past, v)
    ensures MayRise(p, more, v)
  {
    assert past * p.percent <= more * p.percent;
  }

  lemma {:induction false} MayFallFromLess(p: StablePolicy, past: int, less: int, v: int)
    requires 0 <= less <= past && p.percent >= 0 && v >= 0 && MayFall(p, past, v)
    ensures MayFall(p, less, v)
  {
    if 100 * (past - v) <= past * p.percent {
      assert past * (100 - p.percent) <= 100 * v;
      assert p.percent <= 100 ==> less * (100 - p.percent) <= past * (100 - p.percent);
      assert p.percent > 100 ==> less * (100 - p.percent) <= 0;
      assert less * (100 - p.percent) == 100 * less - less * p.percent;
    }
  }

  lemma {:induction false} MayJumpFromMore(percent: int, past: int, more: int, v: int)
    requires 0 <= past <= more && percent >= 0 && MayJump(percent, past, v)
    ensures MayJump(percent, more, v)
  {
    assert past * percent <= more * percent;
  }

  ghost predicate NoNegatives(cors: seq<Record<int>>) { forall i :: 0 <= i < |cors| ==> cors[i].value >= 0 }

  /** `v` exceeds no recommendation of the stabilization window and is allowed from every count the period sees. */
  ghost predicate RisesTo(p: StablePolicy, recs: seq<Record<int>>, cors: seq<Record<int>>, now: int, current: int, v: int) {
    && (p.stabilization != 0 ==> forall j :: 0 <= j < |recs| && recs[j].time + p.stabilization >= now ==> v <= recs[j].value)
    && (p.period != 0 ==> forall past :: Seen(cors, p.period, now, current, past) ==> MayRise(p, past, v))
  }

  ghost predicate FallsTo(p: StablePolicy, recs: seq<Record<int>>, cors: seq<Record<int>>, now: int, current: int, v: int) {
    && (p.stabilization != 0 ==> forall j :: 0 <= j < |recs| && recs[j].time + p.stabilization >= now ==> v >= recs[j].value)
    && (p.period != 0 ==> forall past :: Seen(cors, p.period, now, current, past) ==> MayFall(p, past, v))
  }

  /** The panic percentage allows `v` from every count the panic period sees, or a zero among them lifts the limit. */
  ghost predicate JumpsTo(b: Behavior, cors: seq<Record<int>>, now: int, current: int, v: int) {
    || b.panicPeriod == 0 || Seen(cors, b.panicPeriod, now, current, 0)
    || forall past :: Seen(cors, b.panicPeriod, now, current, past) ==> MayJump(b.panicPercent, past, v)
  }

  /** The lowest count the period sees decides what all of them allow. */
  lemma {:induction false} LowestDecides(cors: seq<Record<int>>, period: int, now: int, current: int)
    requires NoNegatives(cors) && current >= 0
    ensures var low := ChartBest(Minimum, cors, period, now, current, |cors|);
      low >= 0 && Seen(cors, period, now, current, low) && forall past :: Seen(cors, period, now, current, past) ==> low <= past
  {
    ChartBestIsBest(Minimum, cors, period, now, current, |cors|);
  }

  lemma {:induction false} HighestDecides(cors: seq<Record<int>>, period: int, now: int, current: int)
    requires NoNegatives(cors) && current >= 0
    ensures var high := ChartBest(Maximum, cors, period, now, current, |cors|);
      high >= 0 && Seen(cors, period, now, current, high) && forall past :: Seen(cors, period, now, current, past) ==> past <= high
  {
    ChartBestIsBest(Maximum, cors, period, now, current, |cors|);
  }

  lemma {:induction false} ScaledUpIs(b: Behavior, recs: seq<Record<int>>, cors: seq<Record<int>>, now: int, current: int, recommended: int, v: int)
    requires b.scaleUp.percent >= 0 && current >= 0 && NoNegatives(cors) && current < v <= recommended
    ensures RisesTo(b.scaleUp, recs, cors, now, current, v) <==> v <= ScaledUp(b, recs, cors, now, current, recommended)
  {
    var p := b.scaleUp;
    BestFreshIsBest(Minimum, recs, p.stabilization, now);
    LowestDecides(cors, p.period, now, current);
    var low := ChartBest(Minimum, cors, p.period, now, current, |cors|);
    ConstraintsBound(p, low, v);
    if MayRise(p, low, v) {
      forall past | Seen(cors, p.period, now, current, past) ensures MayRise(p, past, v) {
        MayRiseFromMore(p, low, past, v);
      }
    }
  }

  lemma {:induction false} ScaledDownIs(b: Behavior, recs: seq<Record<int>>, cors: seq<Record<int>>, now: int, current: int, recommended: int, v: int)
    requires b.scaleDown.percent >= 0 && NoNegatives(cors) && 0 <= v && recommended <= v < current
    ensures FallsTo(b.scaleDown, recs, cors, now, current, v) <==> v >= ScaledDown(b, recs, cors, now, current, recommended)
  {
    var p := b.scaleDown;
    BestFreshIsBest(Maximum, recs, p.stabilization, now);
    HighestDecides(cors, p.period, now, current);
    var high := ChartBest(Maximum, cors, p.period, now, current, |cors|);
    ConstraintsBound(p, high, v);
    if MayFall(p, high, v) {
      forall past | Seen(cors, p.period, now, current, past) ensures MayFall(p, past, v) {
        MayFallFromLess(p, high, past, v);
      }
    }
  }

  lemma {:induction false} ScaledInPanicIs(b: Behavior, cors: seq<Record<int>>, now: int, current: int, recommended: int, v: int)
    requires b.panicPercent >= 0 && current >= 0 && NoNegatives(cors) && current < v <= recommended
    ensures JumpsTo(b, cors, now, current, v) <==> v <= ScaledInPanic(b, cors, now, current, recommended)
  {
    LowestDecides(cors, b.panicPeriod, now, current);
    var low := ChartBest(Minimum, cors, b.panicPeriod, now, current, |cors|);
    ShareBounds(low, b.panicPercent, v - low);
    if MayJump(b.panicPercent, low, v) {
      forall past | Seen(cors, b.panicPeriod, now, current, past) ensures MayJump(b.panicPercent, past, v) {
        MayJumpFromMore(b.panicPercent, low, past, v);
      }
    }
  }

  /**
   Scaling up outside panic: between the current count and the recommendation, the decision is the greatest count that
   the recent recommendations and the counts in effect allow.  Bounds apply to all three.
   */
  lemma {:induction false} ScaleUpIsGreatest(b: Behavior, recs: seq<Record<int>>, cors: seq<Record<int>>,
                                             min: int, max: int, now: int, current: int, recommended: int)
    requires b.scaleUp.percent >= 0 && 0 <= current < recommended && NoNegatives(cors) && min <= max
    ensures var r := Corrected(b, false, recs, cors, min, max, now, current, recommended);
      && Clamp(current, min, max) <= r <= Clamp(recommended, min, max)
      && forall v :: Clamp(current, min, max) < v <= Clamp(recommended, min, max) ==>
           (v <= r <==> RisesTo(b.scaleUp, recs, cors, now, current, v))
  {
    forall v | Clamp(current, min, max) < v <= Clamp(recommended, min, max)
      ensures RisesTo(b.scaleUp, recs, cors, now, current, v) <==> v <= ScaledUp(b, recs, cors, now, current, recommended)
    {
      ScaledUpIs(b, recs, cors, now, current, recommended, v);
    }
  }

  /** Scaling down outside panic: dually the least such count. */
  lemma {:induction false} ScaleDownIsLeast(b: Behavior, recs: seq<Record<int>>, cors: seq<Record<int>>,
                                            min: int, max: int, now: int, current: int, recommended: int)
    requires b.scaleDown.percent >= 0 && recommended < current && NoNegatives(cors) && 0 <= min <= max
    ensures var r := Corrected(b, false, recs, cors, min, max, now, current, recommended);
      && Clamp(recommended, min, max) <= r <= Clamp(current, min, max)
      && forall v :: Clamp(recommended, min, max) <= v < Clamp(current, min, max) ==>
           (v >= r <==> FallsTo(b.scaleDown, recs, cors, now, current, v))
  {
    forall v | Clamp(recommended, min, max) <= v < Clamp(current, min, max) && recommended <= v
      ensures FallsTo(b.scaleDown, recs, cors, now, current, v) <==> v >= ScaledDown(b, recs, cors, now, current, recommended)
    {
      ScaledDownIs(b, recs, cors, now, current, recommended, v);
    }
  }

  /** In panic: the greatest count the panic percentage allows, and the current count if less is recommended. */
  lemma {:induction false} PanicJumpIsGreatest(b: Behavior, recs: seq<Record<int>>, cors: seq<Record<int>>,
                                               min: int, max: int, now: int, current: int, recommended: int)
    requires b.panicPercent >= 0 && 0 <= current && NoNegatives(cors) && min <= max
    ensures var r := Corrected(b, true, recs, cors, min, max, now, current, recommended);
      && Clamp(current, min, max) <= r <= Clamp(Max(current, recommended), min, max)
      && forall v :: Clamp(current, min, max) < v <= Clamp(recommended, min, max) ==>
           (v <= r <==> JumpsTo(b, cors, now, current, v))
  {
    forall v | Clamp(current, min, max) < v <= Clamp(recommended, min, max)
      ensures JumpsTo(b, cors, now, current, v) <==> v <= ScaledInPanic(b, cors, now, current, recommended)
    {
      ScaledInPanicIs(b, cors, now, current, recommended, v);
    }
  }
}
