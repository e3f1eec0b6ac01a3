/**
 Whole runs of the homogeneous autoscaler: the status object with its five windows,
 one reconcile cycle, and what holds over every sequence of cycles
 (pkg/autoscaler/autoscaler/status.go and scaler.go).

 The recommendation of a cycle is an input: any value within the replica bounds, or
 none when the cycle is skipped.  One clock value is used per cycle.
 */
module AutoscalerRun {
  import opened Common
  import opened SlidingWindow
  import opened Revision

  datatype Policy = Policy(behavior: Behavior, min: int, max: int)

  /** One recorded reconcile cycle. */
  datatype Cycle = Cycle(time: int, current: int, recommended: int, corrected: int)

  /** The recommendation is far enough above the current count to start panic mode. */
  predicate Triggers(b: Behavior, current: int, recommended: int) {
    b.panicThreshold.Some? && recommended * 100 >= current * b.panicThreshold.value
  }

  ghost function Recommendations(tr: seq<Cycle>): seq<Record<int>> {
    seq(|tr|, i requires 0 <= i < |tr| => Record(tr[i].time, tr[i].recommended))
  }

  ghost function Decisions(tr: seq<Cycle>): seq<Record<int>> {
    seq(|tr|, i requires 0 <= i < |tr| => Record(tr[i].time, tr[i].corrected))
  }

  /** Until when panic mode lasts after the cycles `tr`. */
  ghost function PanicEnd(b: Behavior, tr: seq<Cycle>): int {
    if tr == [] then 0 else
      var last := tr[|tr| - 1];
      if Triggers(b, last.current, last.recommended) then (if b.panicHold == 0 then 0 else last.time + b.panicHold)
      else PanicEnd(b, tr[..|tr| - 1])
  }

  ghost predicate InPanic(b: Behavior, tr: seq<Cycle>, now: int, current: int, recommended: int) {
    b.panicHold > 0 && (Triggers(b, current, recommended) || now <= PanicEnd(b, tr))
  }

  ghost function Decide(p: Policy, tr: seq<Cycle>, now: int, current: int, recommended: int): int {
    Corrected(p.behavior, InPanic(p.behavior, tr, now, current, recommended), Recommendations(tr), Decisions(tr),
              p.min, p.max, now, current, recommended)
  }

  // ----- Runs -----

  ghost predicate IsStep(p: Policy, tr: seq<Cycle>, n: int)
    requires 0 <= n < |tr|
  {
    var c := tr[n];
    && 0 < c.time && (n > 0 ==> tr[n - 1].time <= c.time)
    && p.min <= c.recommended <= p.max
    && c.corrected == Decide(p, tr[..n], c.time, c.current, c.recommended)
  }

  ghost predicate IsRun(p: Policy, tr: seq<Cycle>) {
    forall n :: 0 <= n < |tr| ==> IsStep(p, tr, n)
  }

  /** Every decision was carried out before the next recorded cycle. */
  ghost predicate Applied(tr: seq<Cycle>) {
    forall m, n :: 0 <= m && n == m + 1 < |tr| ==> tr[n].current == tr[m].corrected
  }

  lemma {:induction false} RunIsOrdered(p: Policy, tr: seq<Cycle>, i: nat, j: nat)
    requires IsRun(p, tr) && i <= j < |tr|
    ensures tr[i].time <= tr[j].time
    decreases j
  {
    if i < j {
      assert IsStep(p, tr, j);
      RunIsOrdered(p, tr, i, j - 1);
    }
  }

  lemma {:induction false} RunIsBounded(p: Policy, tr: seq<Cycle>, n: nat)
    requires IsRun(p, tr) && n < |tr| && p.min <= p.max
    ensures p.min <= tr[n].corrected <= p.max && p.min <= tr[n].recommended <= p.max
  {
    assert IsStep(p, tr, n);
  }

  /** The decision `k` was in effect at some moment of the last `period` before cycle `n`, and had not drifted too long. */
  ghost predicate InEffectAt(tr: seq<Cycle>, k: int, n: int, period: int)
    requires 0 <= k < n < |tr|
  {
    || k == n - 1
    || (tr[k + 1].time + period >= tr[n].time && tr[k + 1].time - tr[k].time <= 2 * period)
  }

  lemma {:induction false} WindowEffect(tr: seq<Cycle>, k: int, n: int, period: int)
    requires 0 <= k < n < |tr|
    ensures Decisions(tr[..n])[k].value == tr[k].corrected
    ensures k < n - 1 ==> (InEffect(Decisions(tr[..n]), k, period, tr[n].time) <==> InEffectAt(tr, k, n, period))
  {
    var h := Decisions(tr[..n]);
    assert h[k] == Record(tr[k].time, tr[k].corrected);
    assert k < n - 1 ==> h[k + 1].time == tr[k + 1].time;
  }

  /** Some decision in effect at cycle `n` is `v`. */
  ghost predicate HasEffect(tr: seq<Cycle>, n: int, period: int, v: int)
    requires 0 < n < |tr|
  {
    exists k :: 0 <= k < n && InEffectAt(tr, k, n, period) && tr[k].corrected == v
  }

  /** The windows see exactly the counts of the decisions in effect. */
  lemma {:induction false} EffectIsSeen(tr: seq<Cycle>, n: int, period: int, v: int)
    requires 0 < n < |tr| && Applied(tr)
    ensures Seen(Decisions(tr[..n]), period, tr[n].time, tr[n].current, v) <==> HasEffect(tr, n, period, v)
  {
    var h := Decisions(tr[..n]);
    assert InEffectAt(tr, n - 1, n, period) && tr[n].current == tr[n - 1].corrected;
    if HasEffect(tr, n, period, v) {
      var k :| 0 <= k < n && InEffectAt(tr, k, n, period) && tr[k].corrected == v;
      WindowEffect(tr, k, n, period);
    } else if v != tr[n].current {
      forall k | 0 <= k < n && InEffect(h, k, period, tr[n].time) ensures h[k].value != v {
        WindowEffect(tr, k, n, period);
      }
    }
  }

  /**
   The rate limit of scaling down, over whole runs: no decision goes below what the
   scale-down policy allows from any earlier decision still in effect during the last
   period, panic or not, and for every non-negative percentage.
   */
  lemma {:induction false} ScaleDownRateLimit(p: Policy, tr: seq<Cycle>, n: nat, k: nat)
    requires IsRun(p, tr) && Applied(tr)
    requires 0 <= p.min <= p.max
    requires p.behavior.scaleDown.instances >= 0 && p.behavior.scaleDown.percent >= 0 && p.behavior.scaleDown.period > 0
    requires k < n < |tr| && InEffectAt(tr, k, n, p.behavior.scaleDown.period)
    ensures tr[n].corrected >= ScaleDownConstraint(p.behavior.scaleDown, tr[k].corrected)
    decreases n
  {
    var b, v, c := p.behavior, tr[k].corrected, tr[n];
    RunIsBounded(p, tr, n - 1);
    RunIsBounded(p, tr, k);
    assert c.current == tr[n - 1].corrected;
    assert ScaleDownConstraint(b.scaleDown, v) <= c.current by {
      if k < n - 1 {
        RunIsOrdered(p, tr, n - 1, n);
        ScaleDownRateLimit(p, tr, n - 1, k);
      } else {
        ScaleDownConstraintMonotone(b.scaleDown, v, v);
      }
    }
    assert HasEffect(tr, n, b.scaleDown.period, v);
    EffectIsSeen(tr, n, b.scaleDown.period, v);
    assert IsStep(p, tr, n);
    CorrectedKeepsDownLimit(b, InPanic(b, tr[..n], c.time, c.current, c.recommended), Recommendations(tr[..n]), Decisions(tr[..n]),
                            p.min, p.max, c.time, c.current, c.recommended, v);
  }

  /** Cycle `i` was decided outside panic mode. */
  ghost predicate Calm(p: Policy, tr: seq<Cycle>, i: int)
    requires 0 <= i < |tr|
  {
    !InPanic(p.behavior, tr[..i], tr[i].time, tr[i].current, tr[i].recommended)
  }

  /** The rate limit of scaling up over whole runs, against every decision after which no cycle was in panic. */
  lemma {:induction false} ScaleUpRateLimit(p: Policy, tr: seq<Cycle>, n: nat, k: nat)
    requires IsRun(p, tr) && Applied(tr)
    requires 0 <= p.min <= p.max <= MAX_INT32
    requires p.behavior.scaleUp.instances >= 0 && p.behavior.scaleUp.percent >= 0 && p.behavior.scaleUp.period > 0
    requires k < n < |tr| && InEffectAt(tr, k, n, p.behavior.scaleUp.period)
    requires forall i :: k < i <= n ==> Calm(p, tr, i)
    ensures tr[n].corrected <= ScaleUpConstraint(p.behavior.scaleUp, tr[k].corrected)
    decreases n
  {
    var b, v, c := p.behavior, tr[k].corrected, tr[n];
    forall i | 0 <= i < n ensures p.min <= tr[i].corrected <= p.max { RunIsBounded(p, tr, i); }
    assert c.current == tr[n - 1].corrected;
    assert c.current <= ScaleUpConstraint(b.scaleUp, v) by {
      if k < n - 1 {
        RunIsOrdered(p, tr, n - 1, n);
        ScaleUpRateLimit(p, tr, n - 1, k);
      } else {
        ScaleUpConstraintMonotone(b.scaleUp, v, v);
      }
    }
    assert HasEffect(tr, n, b.scaleUp.period, v);
    EffectIsSeen(tr, n, b.scaleUp.period, v);
    assert IsStep(p, tr, n) && Calm(p, tr, n);
    CorrectedKeepsUpLimit(b, Recommendations(tr[..n]), Decisions(tr[..n]), p.min, p.max, c.time, c.current, c.recommended, v);
  }

  /**
   In panic mode a decision is limited by the panic percentage of every decision in effect exactly when none of them
   was zero or nothing more is recommended; a zero among them lifts the limit altogether.
   */
  lemma {:induction false} PanicRateLimit(p: Policy, tr: seq<Cycle>, n: nat)
    requires IsRun(p, tr) && Applied(tr)
    requires 0 <= p.min <= p.max && p.behavior.panicPercent >= 0 && p.behavior.panicPeriod > 0
    requires 0 < n < |tr| && !Calm(p, tr, n)
    ensures var c, period := tr[n], p.behavior.panicPeriod;
      var fromZero := HasEffect(tr, n, period, 0);
      && ((forall k :: 0 <= k < n && InEffectAt(tr, k, n, period) ==>
             WithinPanicLimit(p.behavior, c.current, c.corrected, tr[k].corrected)) <==> !fromZero || c.recommended <= c.current)
      && (fromZero ==> c.corrected == Max(c.recommended, c.current))
  {
    var b, c, h := p.behavior, tr[n], Decisions(tr[..n]);
    forall i | 0 <= i < n ensures p.min <= tr[i].corrected <= p.max && h[i].value >= 0 { RunIsBounded(p, tr, i); }
    assert c.current == tr[n - 1].corrected;
    forall v { EffectIsSeen(tr, n, b.panicPeriod, v); }
    assert IsStep(p, tr, n);
    PanicLimitIff(b, Recommendations(tr[..n]), h, p.min, p.max, c.time, c.current, c.recommended);
    if Seen(h, b.panicPeriod, c.time, c.current, 0) {
      ZeroLiftsPanicLimit(b, Recommendations(tr[..n]), h, p.min, p.max, c.time, c.current, c.recommended);
    }
  }

  /** Over a stretch of panic cycles without a zero, the panic percentage of the decision before it is not exceeded at all. */
  lemma {:induction false} PanicStretchLimit(p: Policy, tr: seq<Cycle>, n: nat, k: nat)
    requires IsRun(p, tr) && Applied(tr)
    requires 0 <= p.min <= p.max && p.behavior.panicPercent >= 0 && p.behavior.panicPeriod > 0
    requires k < n < |tr| && InEffectAt(tr, k, n, p.behavior.panicPeriod)
    requires forall i :: k < i <= n ==> !Calm(p, tr, i) && !HasEffect(tr, i, p.behavior.panicPeriod, 0)
    ensures tr[n].corrected <= PanicConstraint(p.behavior.panicPercent, tr[k].corrected)
    decreases n
  {
    var b, v, c := p.behavior, tr[k].corrected, tr[n];
    assert c.current == tr[n - 1].corrected;
    RunIsBounded(p, tr, k);
    assert c.current <= PanicConstraint(b.panicPercent, v) by {
      if k < n - 1 {
        RunIsOrdered(p, tr, n - 1, n);
        PanicStretchLimit(p, tr, n - 1, k);
      } else {
        ShareGrowsSlowly(b.panicPercent, v, v);
        assert 0 <= v * b.panicPercent;
      }
    }
    PanicRateLimit(p, tr, n);
    assert WithinPanicLimit(b, c.current, c.corrected, v);
  }

  /** It happens: a service that started from zero a moment ago may jump tenfold although 100 percent is the limit. */
  lemma {:induction false} ZeroBreaksPanicLimit() returns (p: Policy, tr: seq<Cycle>)
    ensures IsRun(p, tr) && Applied(tr) && |tr| == 3 && p.min == 0 && p.behavior.panicPercent == 100 && !Calm(p, tr, 2)
    ensures tr[1].corrected == 10 && InEffectAt(tr, 1, 2, p.behavior.panicPeriod)
    ensures tr[2].corrected == 100 && !WithinPanicLimit(p.behavior, tr[2].current, tr[2].corrected, tr[1].corrected)
  {
    var free := StablePolicy(0, 0, 0, Unset, 0);
    p := Policy(Behavior(free, free, 100, 100, Some(200), 1000), 0, 100);
    tr := [Cycle(1, 0, 0, 0), Cycle(2, 0, 10, 10), Cycle(3, 10, 100, 100)];
    var h1, h2 := Decisions(tr[..1]), Decisions(tr[..2]);
    assert InEffect(h2, 0, 100, 3) && h2[0].value == 0;
    assert Seen(h2, 100, 3, 10, 0) && Seen(h1, 100, 2, 0, 0) && Seen([], 100, 1, 0, 0);
    ZeroLiftsPanicLimit(p.behavior, [], [], 0, 100, 1, 0, 0);
    ZeroLiftsPanicLimit(p.behavior, Recommendations(tr[..1]), h1, 0, 100, 2, 0, 10);
    ZeroLiftsPanicLimit(p.behavior, Recommendations(tr[..2]), h2, 0, 100, 3, 10, 100);
    assert tr[..0] == [] && Recommendations([]) == [] && Decisions([]) == [];
    assert IsStep(p, tr, 0) && IsStep(p, tr, 1) && IsStep(p, tr, 2);
  }

  /**
   The count before the first recorded cycle is in no window.  The first decision respects its limit; a later one,
   while the first is in effect, the limit of that limit.
   */
  lemma {:induction false} FirstCountDownLimit(p: Policy, tr: seq<Cycle>, n: nat)
    requires IsRun(p, tr) && Applied(tr) && n < |tr|
    requires 0 <= p.min <= p.max && 0 <= tr[0].current
    requires p.behavior.scaleDown.instances >= 0 && p.behavior.scaleDown.percent >= 0 && p.behavior.scaleDown.period > 0
    requires n > 0 ==> InEffectAt(tr, 0, n, p.behavior.scaleDown.period)
    ensures var once := Min(p.max, ScaleDownConstraint(p.behavior.scaleDown, tr[0].current));
      tr[n].corrected >= if n == 0 then once else ScaleDownConstraint(p.behavior.scaleDown, Max(0, once))
  {
    var b, c := p.behavior, tr[0];
    assert IsStep(p, tr, 0);
    ScaleDownConstraintMonotone(b.scaleDown, c.current, c.current);
    CorrectedKeepsDownLimit(b, InPanic(b, tr[..0], c.time, c.current, c.recommended), Recommendations(tr[..0]), Decisions(tr[..0]),
                            p.min, p.max, c.time, c.current, c.recommended, c.current);
    if n > 0 {
      RunIsBounded(p, tr, 0);
      RunIsBounded(p, tr, n);
      ScaleDownRateLimit(p, tr, n, 0);
      ScaleDownConstraintMonotone(b.scaleDown, Max(0, Min(p.max, ScaleDownConstraint(b.scaleDown, c.current))), tr[0].corrected);
    }
  }

  /** The least that the cycle after the first can be decided to. */
  lemma {:induction false} SecondDecision(p: Policy, c: Cycle, now: int, recommended: int)
    requires IsRun(p, [c]) && 0 <= p.min <= p.max && p.min <= recommended <= p.max && c.time <= now
    requires p.behavior.scaleDown.instances >= 0 && p.behavior.scaleDown.percent >= 0 && p.behavior.scaleDown.period > 0
    ensures var floor := Max(p.min, ScaleDownConstraint(p.behavior.scaleDown, c.corrected));
      && Decide(p, [c], now, c.corrected, recommended) >= floor
      && (p.behavior.panicHold == 0 && p.behavior.scaleDown.stabilization == 0 && recommended == p.min ==>
            Decide(p, [c], now, c.corrected, recommended) == floor)
  {
    var b, h := p.behavior, Decisions([c]);
    RunIsBounded(p, [c], 0);
    ScaleDownConstraintMonotone(b.scaleDown, c.corrected, c.corrected);
    ChartBestIsBest(Maximum, h, b.scaleDown.period, now, c.corrected, |h|);
    CorrectedKeepsDownLimit(b, InPanic(b, [c], now, c.corrected, recommended), Recommendations([c]), h,
                            p.min, p.max, now, c.corrected, recommended, c.corrected);
  }

  /**
   When the limit of the first count survives the next decision, whatever is recommended: exactly when it is below the
   minimum or below the limit of the first decision.
   */
  lemma {:induction false} FirstCountSurvivesIff(p: Policy, c: Cycle)
    requires IsRun(p, [c]) && 0 <= p.min <= p.max && p.behavior.panicHold == 0 && p.behavior.scaleDown.stabilization == 0
    requires p.behavior.scaleDown.instances >= 0 && p.behavior.scaleDown.percent >= 0 && p.behavior.scaleDown.period > 0
    ensures var limit := ScaleDownConstraint(p.behavior.scaleDown, c.current);
      (forall now, recommended :: c.time <= now && p.min <= recommended <= p.max ==>
         Decide(p, [c], now, c.corrected, recommended) >= limit)
      <==> limit <= Max(p.min, ScaleDownConstraint(p.behavior.scaleDown, c.corrected))
  {
    forall now, recommended | c.time <= now && p.min <= recommended <= p.max
      ensures Decide(p, [c], now, c.corrected, recommended) >= Max(p.min, ScaleDownConstraint(p.behavior.scaleDown, c.corrected))
    {
      SecondDecision(p, c, now, recommended);
    }
    SecondDecision(p, c, c.time, p.min);
  }

  /** The second decision may go below the limit of the first count: at one replica a period, from 10 to 8. */
  lemma {:induction false} FirstCountIsForgotten(period: int) returns (p: Policy, tr: seq<Cycle>)
    requires 1 < period
    ensures IsRun(p, tr) && Applied(tr) && |tr| == 2 && p.behavior.scaleDown.period == period && InEffectAt(tr, 0, 1, period)
    ensures tr[1].time - tr[0].time < period && tr[1].corrected < ScaleDownConstraint(p.behavior.scaleDown, tr[0].current)
  {
    var oneAtATime := StablePolicy(1, 100, period, And, 0);
    p := Policy(Behavior(oneAtATime, oneAtATime, 0, 0, None, 0), 0, 100);
    tr := [Cycle(1, 10, 0, 9), Cycle(2, 9, 0, 8)];
    var h0, h1 := Decisions(tr[..0]), Decisions(tr[..1]);
    assert ChartBest(Maximum, h0, period, 1, 10, 0) == 10;
    assert ChartBest(Maximum, h1, period, 2, 9, 1) == 9;
    assert IsStep(p, tr, 0) && IsStep(p, tr, 1);
  }

  /** Dually for scaling up, outside panic. */
  lemma {:induction false} FirstCountUpLimit(p: Policy, tr: seq<Cycle>, n: nat)
    requires IsRun(p, tr) && Applied(tr) && n < |tr|
    requires 0 <= p.min <= p.max <= MAX_INT32 && 0 <= tr[0].current <= MAX_INT32
    requires p.behavior.scaleUp.instances >= 0 && p.behavior.scaleUp.percent >= 0 && p.behavior.scaleUp.period > 0
    requires n > 0 ==> InEffectAt(tr, 0, n, p.behavior.scaleUp.period)
    requires forall i :: 0 <= i <= n ==> Calm(p, tr, i)
    ensures var once := Max(p.min, ScaleUpConstraint(p.behavior.scaleUp, tr[0].current));
      tr[n].corrected <= if n == 0 then once else ScaleUpConstraint(p.behavior.scaleUp, Min(p.max, once))
  {
    var b, c := p.behavior, tr[0];
    assert IsStep(p, tr, 0) && Calm(p, tr, 0);
    ScaleUpConstraintMonotone(b.scaleUp, c.current, c.current);
    CorrectedKeepsUpLimit(b, Recommendations(tr[..0]), Decisions(tr[..0]), p.min, p.max, c.time, c.current, c.recommended, c.current);
    if n > 0 {
      RunIsBounded(p, tr, 0);
      ScaleUpRateLimit(p, tr, n, 0);
      ScaleUpConstraintMonotone(b.scaleUp, Min(p.max, Max(p.min, ScaleUpConstraint(b.scaleUp, c.current))), tr[0].corrected);
    }
  }

  /** Stabilization over whole runs, whether or not decisions are carried out. */
  lemma {:induction false} Stabilization(p: Policy, tr: seq<Cycle>, n: nat, j: nat)
    requires IsRun(p, tr) && p.min <= p.max && j < n < |tr|
    ensures p.behavior.scaleDown.stabilization != 0 && tr[j].time + p.behavior.scaleDown.stabilization >= tr[n].time ==>
              tr[n].corrected >= Min(tr[n].current, tr[j].recommended)
    ensures p.behavior.scaleUp.stabilization != 0 && tr[j].time + p.behavior.scaleUp.stabilization >= tr[n].time
            && !InPanic(p.behavior, tr[..n], tr[n].time, tr[n].current, tr[n].recommended) ==>
              tr[n].corrected <= Max(tr[n].current, tr[j].recommended)
  {
    var b, c := p.behavior, tr[n];
    RunIsBounded(p, tr, j);
    assert IsStep(p, tr, n);
    CorrectedIsStabilized(b, InPanic(b, tr[..n], c.time, c.current, c.recommended), Recommendations(tr[..n]), Decisions(tr[..n]),
                          p.min, p.max, c.time, c.current, c.recommended, j);
  }

  /** Cycle `c` triggered panic mode, which it keeps on at `now`. */
  ghost predicate KeepsPanic(b: Behavior, c: Cycle, now: int) {
    Triggers(b, c.current, c.recommended) && now <= c.time + b.panicHold
  }

  lemma {:induction false} PanicEndIsLastTrigger(b: Behavior, tr: seq<Cycle>, now: int)
    requires b.panicHold > 0 && 0 < now && forall i, j :: 0 <= i < j < |tr| ==> tr[i].time <= tr[j].time
    ensures now <= PanicEnd(b, tr) <==> exists j :: 0 <= j < |tr| && KeepsPanic(b, tr[j], now)
  {
    if tr != [] {
      var last, front := |tr| - 1, tr[..|tr| - 1];
      PanicEndIsLastTrigger(b, front, now);
      forall j | 0 <= j < last && KeepsPanic(b, front[j], now) ensures KeepsPanic(b, tr[j], now) {
      }
      forall j | 0 <= j < last && KeepsPanic(b, tr[j], now) ensures KeepsPanic(b, front[j], now) {
      }
      assert Triggers(b, tr[last].current, tr[last].recommended) ==>
          (now <= PanicEnd(b, tr) <==> KeepsPanic(b, tr[last], now));
    }
  }

  /** Panic mode is on exactly while some trigger is at most `panicHold` old. */
  lemma {:induction false} PanicIsHeld(p: Policy, tr: seq<Cycle>, now: int)
    requires IsRun(p, tr) && p.behavior.panicHold > 0 && 0 < now
    ensures now <= PanicEnd(p.behavior, tr) <==> exists j :: 0 <= j < |tr| && KeepsPanic(p.behavior, tr[j], now)
  {
    forall i, j | 0 <= i < j < |tr| ensures tr[i].time <= tr[j].time {
      RunIsOrdered(p, tr, i, j);
    }
    PanicEndIsLastTrigger(p.behavior, tr, now);
  }

  /**
   Twice the period is exactly how far recorded cycles may be apart: for every longer gap
   there is a run in which a decision in effect until a moment ago is already forgotten.
   */
  lemma {:induction false} LongGapBreaksRateLimit(period: int, gap: int) returns (p: Policy, tr: seq<Cycle>)
    requires 0 < period && 2 * period < gap
    ensures IsRun(p, tr) && Applied(tr) && |tr| == 3 && 0 <= p.min <= p.max
    ensures p.behavior.scaleDown.period == period && p.behavior.scaleDown.instances >= 0 && p.behavior.scaleDown.percent >= 0
    ensures tr[1].time - tr[0].time == gap && tr[1].time + period >= tr[2].time
    ensures tr[2].corrected < ScaleDownConstraint(p.behavior.scaleDown, tr[0].corrected)
  {
    var oneAtATime := StablePolicy(1, 100, period, And, 0);
    p := Policy(Behavior(oneAtATime, oneAtATime, 0, 0, None, 0), 0, 100);
    tr := [Cycle(1, 10, 10, 10), Cycle(1 + gap, 10, 0, 9), Cycle(2 + gap, 9, 0, 8)];
    var h1, h2 := Decisions(tr[..1]), Decisions(tr[..2]);
    assert ChartBest(Maximum, h1, period, 1 + gap, 10, 1) == 10;
    assert !InEffect(h2, 0, period, 2 + gap);
    assert ChartBest(Maximum, h2, period, 2 + gap, 9, 1) == 9;
    assert ChartBest(Maximum, h2, period, 2 + gap, 9, 2) == 9;
    assert IsStep(p, tr, 0) && IsStep(p, tr, 1) && IsStep(p, tr, 2);
  }

  // ----- What every decision of a run is -----

  /** Cycle `j` reached the panic threshold, and the hold time has not passed since at cycle `n`. */
  ghost predicate Alarms(b: Behavior, tr: seq<Cycle>, j: int, n: int)
    requires 0 <= j <= n < |tr|
  {
    && b.panicThreshold.Some? && tr[j].recommended * 100 >= tr[j].current * b.panicThreshold.value
    && tr[n].time <= tr[j].time + b.panicHold
  }

  /** A cycle is decided in panic mode exactly when one so far, itself included, reached the threshold within the hold time. */
  lemma {:induction false} PanicIff(p: Policy, tr: seq<Cycle>, n: nat)
    requires IsRun(p, tr) && n < |tr|
    ensures !Calm(p, tr, n) <==> p.behavior.panicHold > 0 && exists j :: 0 <= j <= n && Alarms(p.behavior, tr, j, n)
  {
    var b, c := p.behavior, tr[n];
    if b.panicHold > 0 {
      assert IsStep(p, tr, n);
      forall i | 0 <= i < n ensures IsStep(p, tr[..n], i) {
        assert IsStep(p, tr, i) && tr[..n][..i] == tr[..i];
      }
      PanicIsHeld(p, tr[..n], c.time);
      assert forall j :: 0 <= j < n ==> (KeepsPanic(b, tr[..n][j], c.time) <==> Alarms(b, tr, j, n));
      assert Triggers(b, c.current, c.recommended) <==> Alarms(b, tr, n, n);
    }
  }

  /** The count `v` is the current one at cycle `n`, or that of a decision that was in effect in the last `period`. */
  ghost predicate SeenAt(tr: seq<Cycle>, n: int, period: int, v: int)
    requires 0 <= n < |tr|
  {
    || v == tr[n].current
    || (n > 0 && tr[n - 1].time + 2 * period >= tr[n].time && tr[n - 1].corrected == v)
    || exists k :: 0 <= k < n - 1 && InEffectAt(tr, k, n, period) && tr[k].corrected == v
  }

  lemma {:induction false} SeenIs(tr: seq<Cycle>, n: nat, period: int, v: int)
    requires n < |tr|
    ensures Seen(Decisions(tr[..n]), period, tr[n].time, tr[n].current, v) <==> SeenAt(tr, n, period, v)
  {
    var h := Decisions(tr[..n]);
    forall k | 0 <= k < n
      ensures h[k].value == tr[k].corrected
      ensures k < n - 1 ==> (InEffect(h, k, period, tr[n].time) <==> InEffectAt(tr, k, n, period))
    {
      WindowEffect(tr, k, n, period);
    }
    assert n > 0 ==> (InEffect(h, n - 1, period, tr[n].time) <==> tr[n - 1].time + 2 * period >= tr[n].time);
  }

  /** Count `v` exceeds no recommendation of the stabilization window and is allowed from every count in effect. */
  ghost predicate RisesAt(q: StablePolicy, tr: seq<Cycle>, n: int, v: int)
    requires 0 <= n < |tr|
  {
    && (q.stabilization != 0 ==> forall j :: 0 <= j < n && tr[j].time + q.stabilization >= tr[n].time ==> v <= tr[j].recommended)
    && (q.period != 0 ==> forall past :: SeenAt(tr, n, q.period, past) ==> MayRise(q, past, v))
  }

  ghost predicate FallsAt(q: StablePolicy, tr: seq<Cycle>, n: int, v: int)
    requires 0 <= n < |tr|
  {
    && (q.stabilization != 0 ==> forall j :: 0 <= j < n && tr[j].time + q.stabilization >= tr[n].time ==> v >= tr[j].recommended)
    && (q.period != 0 ==> forall past :: SeenAt(tr, n, q.period, past) ==> MayFall(q, past, v))
  }

  ghost predicate JumpsAt(b: Behavior, tr: seq<Cycle>, n: int, v: int)
    requires 0 <= n < |tr|
  {
    || b.panicPeriod == 0 || SeenAt(tr, n, b.panicPeriod, 0)
    || forall past :: SeenAt(tr, n, b.panicPeriod, past) ==> MayJump(b.panicPercent, past, v)
  }

  lemma {:induction false} AllowedIs(b: Behavior, tr: seq<Cycle>, n: nat, v: int)
    requires n < |tr|
    ensures var recs, cors, now, current := Recommendations(tr[..n]), Decisions(tr[..n]), tr[n].time, tr[n].current;
      && (RisesTo(b.scaleUp, recs, cors, now, current, v) <==> RisesAt(b.scaleUp, tr, n, v))
      && (FallsTo(b.scaleDown, recs, cors, now, current, v) <==> FallsAt(b.scaleDown, tr, n, v))
      && (JumpsTo(b, cors, now, current, v) <==> JumpsAt(b, tr, n, v))
  {
    var recs := Recommendations(tr[..n]);
    assert forall j :: 0 <= j < n ==> recs[j] == Record(tr[j].time, tr[j].recommended);
    forall period, past ensures
      Seen(Decisions(tr[..n]), period, tr[n].time, tr[n].current, past) <==> SeenAt(tr, n, period, past)
    {
      SeenIs(tr, n, period, past);
    }
  }

  ghost predicate Sensible(p: Policy) {
    && 0 <= p.min <= p.max
    && p.behavior.scaleUp.percent >= 0 && p.behavior.scaleDown.percent >= 0 && p.behavior.panicPercent >= 0
  }

  lemma {:induction false} DecisionsAreCounts(p: Policy, tr: seq<Cycle>, n: nat)
    requires IsRun(p, tr) && n < |tr| && 0 <= p.min <= p.max
    ensures NoNegatives(Decisions(tr[..n]))
  {
    forall i | 0 <= i < n ensures tr[i].corrected >= 0 { RunIsBounded(p, tr, i); }
  }

  /**
   Every calm cycle of every run: with more recommended the decision is the greatest count up to the recommendation
   that is allowed, with less recommended the least; otherwise the count stays.  It never leaves the replica bounds.
   */
  lemma {:induction false} CalmDecision(p: Policy, tr: seq<Cycle>, n: nat)
    requires IsRun(p, tr) && n < |tr| && Sensible(p) && tr[n].current >= 0 && Calm(p, tr, n)
    ensures var c, stay := tr[n], Clamp(tr[n].current, p.min, p.max);
      && (c.recommended > c.current ==> stay <= c.corrected <= c.recommended)
      && (c.recommended > c.current ==>
            forall v :: stay < v <= c.recommended ==> (v <= c.corrected <==> RisesAt(p.behavior.scaleUp, tr, n, v)))
      && (c.recommended < c.current ==> c.recommended <= c.corrected <= stay)
      && (c.recommended < c.current ==>
            forall v :: c.recommended <= v < stay ==> (v >= c.corrected <==> FallsAt(p.behavior.scaleDown, tr, n, v)))
      && (c.recommended == c.current ==> c.corrected == c.current)
  {
    var b, c := p.behavior, tr[n];
    assert IsStep(p, tr, n);
    DecisionsAreCounts(p, tr, n);
    forall v {
      AllowedIs(b, tr, n, v);
    }
    if c.recommended > c.current {
      ScaleUpIsGreatest(b, Recommendations(tr[..n]), Decisions(tr[..n]), p.min, p.max, c.time, c.current, c.recommended);
    } else if c.recommended < c.current {
      ScaleDownIsLeast(b, Recommendations(tr[..n]), Decisions(tr[..n]), p.min, p.max, c.time, c.current, c.recommended);
    }
  }

  /** Every panic cycle: the greatest count up to the recommendation that the panic percentage allows, never a lower count. */
  lemma {:induction false} PanicDecision(p: Policy, tr: seq<Cycle>, n: nat)
    requires IsRun(p, tr) && n < |tr| && Sensible(p) && tr[n].current >= 0 && !Calm(p, tr, n)
    ensures var c, stay := tr[n], Clamp(tr[n].current, p.min, p.max);
      && stay <= c.corrected <= Max(stay, c.recommended)
      && forall v :: stay < v <= c.recommended ==> (v <= c.corrected <==> JumpsAt(p.behavior, tr, n, v))
  {
    var b, c := p.behavior, tr[n];
    assert IsStep(p, tr, n);
    DecisionsAreCounts(p, tr, n);
    forall v {
      AllowedIs(b, tr, n, v);
    }
    PanicJumpIsGreatest(b, Recommendations(tr[..n]), Decisions(tr[..n]), p.min, p.max, c.time, c.current, c.recommended);
  }

  // ----- The objects -----

  lemma {:induction false} ExtendViews(b: Behavior, tr: seq<Cycle>, c: Cycle)
    ensures Recommendations(tr + [c]) == Recommendations(tr) + [Record(c.time, c.recommended)]
    ensures Decisions(tr + [c]) == Decisions(tr) + [Record(c.time, c.corrected)]
    ensures PanicEnd(b, tr + [c]) ==
      if Triggers(b, c.current, c.recommended) then (if b.panicHold == 0 then 0 else c.time + b.panicHold)
      else PanicEnd(b, tr)
  {
    assert (tr + [c])[..|tr|] == tr;
  }

  class Status {
    var panicModeEndsAt: int
    const panicHold: int
    const maxRecommendation: RecordWindow
    const minRecommendation: RecordWindow
    const maxCorrected: ChartWindow
    const minCorrectedForStable: ChartWindow
    const minCorrectedForPanic: ChartWindow

    ghost function Windows(): set<object> {
      {maxRecommendation, minRecommendation, maxCorrected, minCorrectedForStable, minCorrectedForPanic}
    }

    /** The windows are separate, in working order at `clock`, and configured by `b`. */
    ghost predicate Valid(b: Behavior, clock: int)
      reads this, Windows()
    {
      && this !in Windows()
      && maxRecommendation != minRecommendation
      && maxCorrected !in {minCorrectedForStable, minCorrectedForPanic} && minCorrectedForStable != minCorrectedForPanic
      && maxRecommendation.Valid() && minRecommendation.Valid()
      && maxCorrected.Valid() && minCorrectedForStable.Valid() && minCorrectedForPanic.Valid()
      && maxRecommendation.clock <= clock && minRecommendation.clock <= clock
      && maxCorrected.clock <= clock && minCorrectedForStable.clock <= clock && minCorrectedForPanic.clock <= clock
      && maxRecommendation.goal.Maximum? && minRecommendation.goal.Minimum?
      && maxCorrected.goal.Maximum? && minCorrectedForStable.goal.Minimum? && minCorrectedForPanic.goal.Minimum?
      && maxRecommendation.span == b.scaleDown.stabilization && minRecommendation.span == b.scaleUp.stabilization
      && maxCorrected.span == b.scaleDown.period && minCorrectedForStable.span == b.scaleUp.period
      && minCorrectedForPanic.span == b.panicPeriod && panicHold == b.panicHold
    }

    ghost predicate Holds(recs: seq<Record<int>>, cors: seq<Record<int>>)
      reads this, Windows()
    {
      && maxRecommendation.history == minRecommendation.history == recs
      && maxCorrected.history == minCorrectedForStable.history == minCorrectedForPanic.history == cors
    }

    constructor (b: Behavior)
      ensures Valid(b, 0) && Holds([], []) && panicModeEndsAt == 0
      ensures fresh(Windows())
    {
      panicModeEndsAt, panicHold := 0, b.panicHold;
      maxRecommendation := new RecordWindow(Maximum, b.scaleDown.stabilization, 0);
      minRecommendation := new RecordWindow(Minimum, b.scaleUp.stabilization, 0);
      maxCorrected := new ChartWindow(Maximum, b.scaleDown.period, 0);
      minCorrectedForStable := new ChartWindow(Minimum, b.scaleUp.period, 0);
      minCorrectedForPanic := new ChartWindow(Minimum, b.panicPeriod, 0);
    }

    method AppendRecommendation(ghost b: Behavior, ghost recs: seq<Record<int>>, ghost cors: seq<Record<int>>, now: int, value: int)
      requires 0 < now && Valid(b, now) && Holds(recs, cors)
      modifies Windows()
      ensures Valid(b, now) && Holds(recs + [Record(now, value)], cors)
    {
      maxRecommendation.Append(now, value);
      minRecommendation.Append(now, value);
    }

    method AppendCorrected(ghost b: Behavior, ghost recs: seq<Record<int>>, ghost cors: seq<Record<int>>, now: int, value: int)
      requires 0 < now && Valid(b, now) && Holds(recs, cors)
      modifies Windows()
      ensures Valid(b, now) && Holds(recs, cors + [Record(now, value)])
    {
      maxCorrected.Append(now, value);
      minCorrectedForStable.Append(now, value);
      minCorrectedForPanic.Append(now, value);
    }

    method RefreshPanicMode(now: int)
      modifies this
      ensures panicModeEndsAt == if panicHold == 0 then 0 else now + panicHold
    {
      if panicHold == 0 { panicModeEndsAt := 0; } else { panicModeEndsAt := now + panicHold; }
    }

    predicate IsPanicMode(now: int)
      reads this
    {
      panicHold > 0 && now <= panicModeEndsAt
    }

    // The three corrections: each asks the windows and bounds the recommendation.

    method CorrectedForPanic(b: Behavior, ghost recs: seq<Record<int>>, ghost cors: seq<Record<int>>, now: int, current: int, recommended: int)
      returns (corrected: int)
      requires 0 < now && Valid(b, now) && Holds(recs, cors)
      modifies Windows()
      ensures Valid(b, now) && Holds(recs, cors)
      ensures corrected == ScaledInPanic(b, cors, now, current, recommended)
    {
      corrected := recommended;
      var past := minCorrectedForPanic.GetBest(now, current);
      if past.Some? && past.value > 0 {
        corrected := Min(corrected, PanicConstraint(b.panicPercent, past.value));
      }
      corrected := Max(corrected, current);
    }

    method CorrectedForScaleDown(b: Behavior, ghost recs: seq<Record<int>>, ghost cors: seq<Record<int>>, now: int, current: int, recommended: int)
      returns (corrected: int)
      requires 0 < now && Valid(b, now) && Holds(recs, cors)
      modifies Windows()
      ensures Valid(b, now) && Holds(recs, cors)
      ensures corrected == ScaledDown(b, recs, cors, now, current, recommended)
    {
      corrected := recommended;
      var peak := maxRecommendation.GetBest(now);
      if peak.Some? {
        corrected := Max(corrected, peak.value);
      }
      var past := maxCorrected.GetBest(now, current);
      if past.Some? {
        corrected := Max(corrected, ScaleDownConstraint(b.scaleDown, past.value));
      }
      corrected := Min(corrected, current);
    }

    method CorrectedForScaleUp(b: Behavior, ghost recs: seq<Record<int>>, ghost cors: seq<Record<int>>, now: int, current: int, recommended: int)
      returns (corrected: int)
      requires 0 < now && Valid(b, now) && Holds(recs, cors)
      modifies Windows()
      ensures Valid(b, now) && Holds(recs, cors)
      ensures corrected == ScaledUp(b, recs, cors, now, current, recommended)
    {
      corrected := recommended;
      var dip := minRecommendation.GetBest(now);
      if dip.Some? {
        corrected := Min(corrected, dip.value);
      }
      var past := minCorrectedForStable.GetBest(now, current);
      if past.Some? {
        corrected := Min(corrected, ScaleUpConstraint(b.scaleUp, past.value));
      }
      corrected := Max(corrected, current);
    }

    method GetCorrectedInstances(b: Behavior, isPanic: bool, ghost recs: seq<Record<int>>, ghost cors: seq<Record<int>>,
                                 min: int, max: int, now: int, current: int, recommended: int)
      returns (corrected: int)
      requires 0 < now && Valid(b, now) && Holds(recs, cors)
      modifies Windows()
      ensures Valid(b, now) && Holds(recs, cors)
      ensures corrected == Corrected(b, isPanic, recs, cors, min, max, now, current, recommended)
    {
      if isPanic {
        corrected := CorrectedForPanic(b, recs, cors, now, current, recommended);
      } else if recommended < current {
        corrected := CorrectedForScaleDown(b, recs, cors, now, current, recommended);
      } else if recommended > current {
        corrected := CorrectedForScaleUp(b, recs, cors, now, current, recommended);
      } else {
        corrected := recommended;
      }
      corrected := Clamp(corrected, min, max);
    }

    /** The windows and the panic deadline are those of the cycles `tr`. */
    ghost predicate Tracks(p: Policy, tr: seq<Cycle>)
      reads this, Windows()
    {
      Holds(Recommendations(tr), Decisions(tr)) && panicModeEndsAt == PanicEnd(p.behavior, tr)
    }

    method ScaleOneTarget(p: Policy, ghost tr: seq<Cycle>, now: int, current: int, recommended: int)
      returns (corrected: int, refresh: bool)
      requires 0 < now && Valid(p.behavior, now) && Tracks(p, tr)
      modifies Windows()
      ensures Valid(p.behavior, now) && Tracks(p, tr)
      ensures corrected == Decide(p, tr, now, current, recommended)
      ensures refresh == Triggers(p.behavior, current, recommended)
    {
      var isPanic := IsPanicMode(now);
      refresh := false;
      if Triggers(p.behavior, current, recommended) {
        refresh := true;
        isPanic := panicHold > 0;
      }
      corrected := GetCorrectedInstances(p.behavior, isPanic, Recommendations(tr), Decisions(tr),
                                         p.min, p.max, now, current, recommended);
    }

    method RecordResult(ghost p: Policy, ghost tr: seq<Cycle>, ghost c: Cycle, now: int, recommended: int, corrected: int, refresh: bool)
      requires 0 < now && Valid(p.behavior, now) && Tracks(p, tr)
      requires c.time == now && c.recommended == recommended && c.corrected == corrected
      requires refresh == Triggers(p.behavior, c.current, recommended)
      modifies this, Windows()
      ensures Valid(p.behavior, now) && Tracks(p, tr + [c])
    {
      if refresh {
        RefreshPanicMode(now);
      }
      ghost var recs, cors := Recommendations(tr), Decisions(tr);
      AppendRecommendation(p.behavior, recs, cors, now, recommended);
      AppendCorrected(p.behavior, recs + [Record(now, recommended)], cors, now, corrected);
      ExtendViews(p.behavior, tr, c);
    }
  }

  lemma {:induction false} ExtendRun(p: Policy, tr: seq<Cycle>, c: Cycle)
    requires IsRun(p, tr) && 0 < c.time && (tr != [] ==> tr[|tr| - 1].time <= c.time)
    requires p.min <= c.recommended <= p.max && c.corrected == Decide(p, tr, c.time, c.current, c.recommended)
    ensures IsRun(p, tr + [c])
  {
    var next := tr + [c];
    assert next[..|tr|] == tr;
    forall n | 0 <= n < |next| ensures IsStep(p, next, n) {
      if n < |tr| {
        assert IsStep(p, tr, n) && next[..n] == tr[..n];
      }
    }
  }

  /** The autoscaler with everything it has recorded: its trace is always a run. */
  class Autoscaler {
    const policy: Policy
    const status: Status
    ghost var trace: seq<Cycle>
    ghost var clock: int

    ghost predicate Valid()
      reads this, status, status.Windows()
    {
      && this !in status.Windows()
      && 0 <= clock && status.Valid(policy.behavior, clock)
      && status.Tracks(policy, trace)
      && IsRun(policy, trace)
      && (trace != [] ==> trace[|trace| - 1].time <= clock)
    }

    constructor (policy: Policy)
      ensures Valid() && trace == [] && clock == 0 && this.policy == policy
    {
      this.policy := policy;
      status := new Status(policy.behavior);
      trace, clock := [], 0;
    }

    /** A skipped cycle changes nothing and answers -1; any other is decided and recorded. */
    method Scale(now: int, current: int, recommendation: Option<int>) returns (replicas: int)
      requires Valid() && clock <= now && 0 < now
      requires recommendation.Some? ==> policy.min <= recommendation.value <= policy.max
      modifies this, status, status.Windows()
      ensures Valid() && clock == now
      ensures recommendation.None? ==> replicas == -1 && trace == old(trace)
      ensures recommendation.Some? ==>
        && replicas == Decide(policy, old(trace), now, current, recommendation.value)
        && trace == old(trace) + [Cycle(now, current, recommendation.value, replicas)]
    {
      clock := now;
      if recommendation.None? { return -1; }
      var recommended := recommendation.value;
      var refresh;
      replicas, refresh := status.ScaleOneTarget(policy, trace, now, current, recommended);
      ghost var cycle := Cycle(now, current, recommended, replicas);
      status.RecordResult(policy, trace, cycle, now, recommended, replicas, refresh);
      ExtendRun(policy, trace, cycle);
      trace := trace + [cycle];
    }
  }
}
