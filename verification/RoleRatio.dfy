/**
 Repair of the prefill/decode replica ratio (pkg/autoscaler/algorithm/disaggregated_ratio.go) under the ratio
 checks of the admission webhook (pkg/autoscaler/webhook/autoscalingpolicy_validator.go).

 Ratios are reals, so the non-finite branches do not arise.  A ratio bound `n / d >= lo` is stated as `lo * d <= n`.
 */
module RoleRatio {
  import opened Common

  datatype Bounds = Bounds(min: int, max: int)

  datatype Constraint = Constraint(numerator: string, denominator: string, lo: real, hi: real)

  datatype Pair = Pair(n: int, d: int)

  datatype Error = NumeratorMissing | DenominatorMissing | NumeratorUnbounded | DenominatorUnbounded

  /** The bounds the API admits for a role. */
  ghost predicate ValidBounds(b: Bounds) { 0 <= b.min <= b.max <= 1_000_000 && b.max >= 1 }

  predicate Within(x: int, b: Bounds) { b.min <= x <= b.max }

  function Into(x: int, b: Bounds): int { Clamp(x, b.min, b.max) }

  function Saturated(x: int): int { Clamp(x, MIN_INT32, MAX_INT32) }

  /** The least integer not below `x`, saturated to int32. */
  function Ceil32(x: real): (c: int)
    ensures -2147483648.0 <= x <= 2147483647.0 ==> x <= c as real < x + 1.0
    ensures x > 2147483647.0 ==> c == MAX_INT32
    ensures x < -2147483648.0 ==> c == MIN_INT32
  {
    Saturated(-((-x).Floor))
  }

  /** The greatest integer not above `x`, saturated to int32. */
  function Floor32(x: real): (f: int)
    ensures -2147483648.0 <= x <= 2147483647.0 ==> x - 1.0 < f as real <= x
    ensures x > 2147483647.0 ==> f == MAX_INT32
    ensures x < -2147483648.0 ==> f == MIN_INT32
  {
    Saturated(x.Floor)
  }

  function Times(q: real, k: int): real { q * k as real }

  function Over(k: int, q: real): real
    requires q > 0.0
  {
    k as real / q
  }

  predicate AtLeast(p: Pair, lo: real) { Times(lo, p.d) <= p.n as real }

  predicate AtMost(p: Pair, hi: real) { p.n as real <= Times(hi, p.d) }

  /** A role at zero beside a live one is first brought to one. */
  function Seeded(x: int, b: Bounds): int { if x == 0 then Into(1, b) else x }

  /**
   The scale-up-biased repair of one side `a` against the other: raise it to `x` if its bounds allow, the other side
   kept; otherwise saturate it and reduce the other side to `q`.  Returns both sides.
   */
  function Raise(kept: int, ab: Bounds, bb: Bounds, x: real, q: real): (int, int) {
    if Ceil32(x) <= ab.max then (Max(Ceil32(x), ab.min), kept) else (ab.max, Into(Floor32(q), bb))
  }

  function RaiseNumerator(p: Pair, nb: Bounds, db: Bounds, lo: real): Pair {
    if lo <= 0.0 then Pair(Max(Ceil32(Times(lo, p.d)), nb.min), p.d) else
      var s := Raise(p.d, nb, db, Times(lo, p.d), Over(nb.max, lo));
      Pair(s.0, s.1)
  }

  function RaiseDenominator(p: Pair, nb: Bounds, db: Bounds, hi: real): Pair {
    if hi <= 0.0 then Pair(0, p.d) else
      var s := Raise(p.n, db, nb, Over(p.n, hi), Times(hi, db.max));
      Pair(s.1, s.0)
  }

  function Ratio(p: Pair): real
    requires p.d > 0
  {
    p.n as real / p.d as real
  }

  function Repaired(p: Pair, nb: Bounds, db: Bounds, lo: real, hi: real): Pair
    requires p.d > 0
  {
    var ratio := Ratio(p);
    var r := if ratio < lo then RaiseNumerator(p, nb, db, lo) else if ratio > hi then RaiseDenominator(p, nb, db, hi) else p;
    Pair(Into(r.n, nb), Into(r.d, db))
  }

  // ----- What repair achieves -----

  /** The ratio checks of the admission webhook. */
  ghost predicate Admitted(nb: Bounds, db: Bounds, lo: real, hi: real) {
    && lo <= hi && 0.0 <= lo && 0.0 < hi
    && ((nb.min == 0) == (db.min == 0))
    && (db.max > 0 ==> Ratio(Pair(nb.min, db.max)) <= hi)
    && (db.min > 0 ==> Ratio(Pair(nb.max, db.min)) >= lo)
  }

  /** Some pair of live roles satisfies each ratio bound. */
  ghost predicate Payable(nb: Bounds, db: Bounds, lo: real, hi: real) {
    AtLeast(Pair(nb.max, 1), lo) && AtMost(Pair(1, db.max), hi)
  }

  ghost predicate Admissible(nb: Bounds, db: Bounds, lo: real, hi: real)
  {
    ValidBounds(nb) && ValidBounds(db) && Admitted(nb, db, lo, hi)
  }

  ghost predicate InBounds(p: Pair, nb: Bounds, db: Bounds) { Within(p.n, nb) && Within(p.d, db) }

  ghost predicate InBand(p: Pair, lo: real, hi: real) { AtLeast(p, lo) && AtMost(p, hi) }

  /** The comparisons of the code, without the division. */
  lemma {:induction false} RatioBelow(p: Pair, q: real)
    requires p.d > 0
    ensures Ratio(p) < q <==> !AtLeast(p, q)
    ensures Ratio(p) > q <==> !AtMost(p, q)
  {
    var x := Ratio(p);
    assert x * p.d as real == p.n as real;
    if x < q {
      assert (q - x) * p.d as real > 0.0;
    } else if x > q {
      assert (x - q) * p.d as real > 0.0;
    }
  }

  lemma {:induction false} Quotient(x: real, q: real)
    requires q > 0.0
    ensures x / q * q == x
  {
  }

  lemma {:induction false} Scaled(a: real, b: real, q: real)
    requires q > 0.0
    ensures a <= b <==> a * q <= b * q
    ensures a < b <==> a * q < b * q
  {
    if a < b {
      assert (b - a) * q > 0.0;
    } else if b < a {
      assert (a - b) * q > 0.0;
    }
  }

  lemma {:induction false} OneCostsLess(lo: real, d: real, n: real)
    requires lo >= 0.0 && d >= 1.0 && lo * d <= n
    ensures lo <= n
  {
    assert lo * (d - 1.0) >= 0.0;
  }

  /** With positive minimums the webhook checks make the extreme pairs satisfy the bounds. */
  lemma {:induction false} ExtremesMeetBounds(nb: Bounds, db: Bounds, lo: real, hi: real)
    requires Admissible(nb, db, lo, hi) && nb.min > 0
    ensures AtMost(Pair(nb.min, db.max), hi) && AtLeast(Pair(nb.max, db.min), lo)
  {
    RatioBelow(Pair(nb.min, db.max), hi);
    RatioBelow(Pair(nb.max, db.min), lo);
  }

  lemma {:induction false} PositiveMinimumsArePayable(nb: Bounds, db: Bounds, lo: real, hi: real)
    requires Admissible(nb, db, lo, hi) && nb.min > 0
    ensures Payable(nb, db, lo, hi)
  {
    ExtremesMeetBounds(nb, db, lo, hi);
    OneCostsLess(lo, db.min as real, nb.max as real);
  }

  ghost predicate Least(x: int, b: Bounds, ok: int -> bool) {
    Within(x, b) && ok(x) && forall k :: Within(k, b) && ok(k) ==> x <= k
  }

  ghost predicate Greatest(x: int, b: Bounds, ok: int -> bool) {
    Within(x, b) && ok(x) && forall k :: Within(k, b) && ok(k) ==> k <= x
  }

  /** The numerators that suffice for denominator `d`, and the denominators that numerator `n` suffices for. */
  ghost function NumeratorsFor(d: int, lo: real): int -> bool { (k: int) => AtLeast(Pair(k, d), lo) }

  ghost function DenominatorsUnder(n: int, lo: real): int -> bool { (k: int) => AtLeast(Pair(n, k), lo) }

  ghost function DenominatorsFor(n: int, hi: real): int -> bool { (k: int) => AtMost(Pair(n, k), hi) }

  ghost function NumeratorsUnder(d: int, hi: real): int -> bool { (k: int) => AtMost(Pair(k, d), hi) }

  /**
   One side rises to the least value in bounds that suffices, the other kept; only if not even its maximum suffices
   is it saturated, and the other side drops to the greatest value that then suffices.
   */
  ghost predicate LeastRepair(kept: int, s: (int, int), ab: Bounds, bb: Bounds, up: int -> bool, down: int -> bool) {
    if up(ab.max) then s.1 == kept && Least(s.0, ab, up) else s.0 == ab.max && Greatest(s.1, bb, down)
  }

  /** A ratio below the minimum is repaired from the numerator. */
  ghost predicate NumeratorRepaired(p: Pair, r: Pair, nb: Bounds, db: Bounds, lo: real) {
    LeastRepair(p.d, (r.n, r.d), nb, db, NumeratorsFor(p.d, lo), DenominatorsUnder(nb.max, lo))
  }

  /** A ratio above the maximum is repaired from the denominator. */
  ghost predicate DenominatorRepaired(p: Pair, r: Pair, nb: Bounds, db: Bounds, hi: real) {
    LeastRepair(p.n, (r.d, r.n), db, nb, DenominatorsFor(p.n, hi), NumeratorsUnder(db.max, hi))
  }

  ghost predicate Live(p: Pair) { p.n >= 1 && p.d >= 1 }

  predicate NotBelow(k: int, x: real) { x <= k as real }

  predicate NotAbove(k: int, x: real) { k as real <= x }

  ghost predicate Above(ok: int -> bool, x: real) { forall k :: ok(k) <==> NotBelow(k, x) }

  ghost predicate Below(ok: int -> bool, x: real) { forall k :: ok(k) <==> NotAbove(k, x) }

  /** In terms of the sufficient numerator `x == lo * d` and the affordable denominator `q == nb.max / lo`. */
  lemma {:induction false} NumeratorThresholds(p: Pair, nb: Bounds, lo: real, x: real, q: real)
    requires lo > 0.0 && x == Times(lo, p.d) && q == Over(nb.max, lo)
    ensures Above(NumeratorsFor(p.d, lo), x) && Below(DenominatorsUnder(nb.max, lo), q)
    ensures x <= nb.max as real <==> NotAbove(p.d, q)
  {
    Quotient(nb.max as real, lo);
    forall k: int ensures AtLeast(Pair(nb.max, k), lo) <==> NotAbove(k, q) {
      Scaled(k as real, q, lo);
    }
    Scaled(p.d as real, q, lo);
  }

  /** The denominator that suffices, `y == n / hi`, and the numerator it affords, `z == hi * db.max`. */
  lemma {:induction false} DenominatorThresholds(p: Pair, db: Bounds, hi: real, y: real, z: real)
    requires hi > 0.0 && y == Over(p.n, hi) && z == Times(hi, db.max)
    ensures Above(DenominatorsFor(p.n, hi), y) && Below(NumeratorsUnder(db.max, hi), z)
    ensures y <= db.max as real <==> NotAbove(p.n, z)
  {
    Quotient(p.n as real, hi);
    forall k: int ensures AtMost(Pair(p.n, k), hi) <==> NotBelow(k, y) {
      Scaled(y, k as real, hi);
    }
    Scaled(y, db.max as real, hi);
  }

  lemma {:induction false} RaiseIsLeastRepair(a: int, ab: Bounds, b: int, bb: Bounds, x: real, q: real, up: int -> bool, down: int -> bool)
    requires ValidBounds(ab) && ValidBounds(bb) && Within(a, ab) && Within(b, bb) && 1 <= a && 1 <= b
    requires Above(up, x) && Below(down, q) && !up(a) && down(1) && down(bb.min)
    requires x <= ab.max as real <==> NotAbove(b, q)
    ensures var s := Raise(b, ab, bb, x, q);
      LeastRepair(b, s, ab, bb, up, down) && 1 <= s.0 && Within(s.0, ab) && 1 <= s.1 && Within(s.1, bb)
  {
  }

  lemma {:induction false} RaisedNumerator(p: Pair, nb: Bounds, db: Bounds, lo: real) returns (r: Pair)
    requires ValidBounds(nb) && ValidBounds(db) && InBounds(p, nb, db) && Live(p) && lo > 0.0
    requires var up, down := NumeratorsFor(p.d, lo), DenominatorsUnder(nb.max, lo); !up(p.n) && down(1) && down(db.min)
    ensures r == RaiseNumerator(p, nb, db, lo) && InBounds(r, nb, db) && Live(r) && NumeratorRepaired(p, r, nb, db, lo)
  {
    var x, q := Times(lo, p.d), Over(nb.max, lo);
    NumeratorThresholds(p, nb, lo, x, q);
    RaiseIsLeastRepair(p.n, nb, p.d, db, x, q, NumeratorsFor(p.d, lo), DenominatorsUnder(nb.max, lo));
    r := RaiseNumerator(p, nb, db, lo);
    assert (r.n, r.d) == Raise(p.d, nb, db, x, q);
  }

  lemma {:induction false} RaisedDenominator(p: Pair, nb: Bounds, db: Bounds, hi: real) returns (r: Pair)
    requires ValidBounds(nb) && ValidBounds(db) && InBounds(p, nb, db) && Live(p) && hi > 0.0
    requires var up, down := DenominatorsFor(p.n, hi), NumeratorsUnder(db.max, hi); !up(p.d) && down(1) && down(nb.min)
    ensures r == RaiseDenominator(p, nb, db, hi) && InBounds(r, nb, db) && Live(r) && DenominatorRepaired(p, r, nb, db, hi)
  {
    var y, z := Over(p.n, hi), Times(hi, db.max);
    DenominatorThresholds(p, db, hi, y, z);
    RaiseIsLeastRepair(p.d, db, p.n, nb, y, z, DenominatorsFor(p.n, hi), NumeratorsUnder(db.max, hi));
    r := RaiseDenominator(p, nb, db, hi);
    assert (r.d, r.n) == Raise(p.n, db, nb, y, z);
  }

  // ----- Theorems -----

  lemma {:induction false} NotBothViolated(p: Pair, lo: real, hi: real)
    requires lo <= hi && p.d > 0 && !AtLeast(p, lo)
    ensures AtMost(p, hi)
  {
    Scaled(lo, hi, p.d as real);
  }

  /** Soundness: within bounds, both roles live, the violated bound met by the least change, pairs in band untouched. */
  lemma {:induction false} RepairIsSound(p: Pair, nb: Bounds, db: Bounds, lo: real, hi: real)
    requires Admissible(nb, db, lo, hi) && Payable(nb, db, lo, hi) && InBounds(p, nb, db) && Live(p)
    ensures var r := Repaired(p, nb, db, lo, hi);
      && InBounds(r, nb, db) && Live(r)
      && (!AtLeast(p, lo) ==> AtLeast(r, lo) && NumeratorRepaired(p, r, nb, db, lo))
      && (!AtMost(p, hi) ==> AtMost(r, hi) && DenominatorRepaired(p, r, nb, db, hi))
      && (InBand(p, lo, hi) ==> r == p)
  {
    RatioBelow(p, lo);
    RatioBelow(p, hi);
    if nb.min > 0 {
      ExtremesMeetBounds(nb, db, lo, hi);
    }
    if !AtLeast(p, lo) {
      NotBothViolated(p, lo, hi);
      assert lo > 0.0;
      var r := RaisedNumerator(p, nb, db, lo);
    } else if !AtMost(p, hi) {
      var r := RaisedDenominator(p, nb, db, hi);
    }
  }

  /** The greatest value in bounds that suffices, and the lower bound if none does. */
  ghost predicate GreatestIfAny(x: int, b: Bounds, ok: int -> bool) {
    Greatest(x, b, ok) || (x == b.min && forall k :: Within(k, b) ==> !ok(k))
  }

  ghost predicate BestRepair(kept: int, s: (int, int), ab: Bounds, bb: Bounds, up: int -> bool, down: int -> bool) {
    if up(ab.max) then s.1 == kept && Least(s.0, ab, up) else s.0 == ab.max && GreatestIfAny(s.1, bb, down)
  }

  lemma {:induction false} RaiseIsBestRepair(a: int, ab: Bounds, b: int, bb: Bounds, x: real, q: real, up: int -> bool, down: int -> bool)
    requires ValidBounds(ab) && ValidBounds(bb) && Within(a, ab) && Within(b, bb) && 0 <= a
    requires Above(up, x) && Below(down, q) && !up(a)
    ensures var s := Raise(b, ab, bb, x, q); BestRepair(b, s, ab, bb, up, down) && Within(s.0, ab) && Within(s.1, bb)
  {
    var s := Raise(b, ab, bb, x, q);
    assert NotBelow(ab.max, x) <==> Ceil32(x) <= ab.max;
    if !up(ab.max) && exists k :: Within(k, bb) && down(k) {
      var k :| Within(k, bb) && down(k);
      assert NotAbove(k, q);
    }
  }

  /**
   What the repair does for every pair of live roles and every band, admitted or not: below the band the numerator, above
   it the denominator is raised no further than needed, else to its maximum with the other side lowered no further than
   needed; under a band without positive ratios the numerator goes to its minimum.
   */
  lemma {:induction false} RepairIsBest(p: Pair, nb: Bounds, db: Bounds, lo: real, hi: real)
    requires ValidBounds(nb) && ValidBounds(db) && InBounds(p, nb, db) && Live(p)
    ensures var r := Repaired(p, nb, db, lo, hi);
      && (!AtLeast(p, lo) ==> BestRepair(p.d, (r.n, r.d), nb, db, NumeratorsFor(p.d, lo), DenominatorsUnder(nb.max, lo)))
      && (AtLeast(p, lo) && !AtMost(p, hi) && hi > 0.0 ==>
            BestRepair(p.n, (r.d, r.n), db, nb, DenominatorsFor(p.n, hi), NumeratorsUnder(db.max, hi)))
      && (AtLeast(p, lo) && !AtMost(p, hi) && hi <= 0.0 ==> r == Pair(nb.min, p.d))
      && (InBand(p, lo, hi) ==> r == p)
  {
    RatioBelow(p, lo);
    RatioBelow(p, hi);
    if !AtLeast(p, lo) {
      assert lo > 0.0;
      var x, q := Times(lo, p.d), Over(nb.max, lo);
      NumeratorThresholds(p, nb, lo, x, q);
      RaiseIsBestRepair(p.n, nb, p.d, db, x, q, NumeratorsFor(p.d, lo), DenominatorsUnder(nb.max, lo));
    } else if !AtMost(p, hi) && hi > 0.0 {
      var y, z := Over(p.n, hi), Times(hi, db.max);
      DenominatorThresholds(p, db, hi, y, z);
      RaiseIsBestRepair(p.d, db, p.n, nb, y, z, DenominatorsFor(p.n, hi), NumeratorsUnder(db.max, hi));
    }
  }

  /** A pair of roles scaled down to exactly one live role is seeded with one replica, so the theorems apply to it. */
  lemma {:induction false} SeededIsLive(n: int, d: int, nb: Bounds, db: Bounds)
    requires ValidBounds(nb) && ValidBounds(db) && InBounds(Pair(n, d), nb, db)
    ensures var p := Pair(Seeded(n, nb), Seeded(d, db)); InBounds(p, nb, db) && Live(p)
    ensures Seeded(n, nb) == (if n == 0 then 1 else n) && Seeded(d, db) == if d == 0 then 1 else d
  {
  }

  lemma {:induction false} TimesIsNonNegative(q: real, k: int)
    requires q >= 0.0 && k >= 0
    ensures Times(q, k) >= 0.0
  {
  }

  lemma {:induction false} FractionHasNoFloor(x: real)
    requires 0.0 <= x < 1.0
    ensures Floor32(x) == 0
  {
  }

  lemma {:induction false} NumeratorVanishes(nb: Bounds, db: Bounds, hi: real)
    requires ValidBounds(nb) && ValidBounds(db) && nb.min == 0 && hi > 0.0 && !AtMost(Pair(1, db.max), hi)
    ensures RaiseDenominator(Pair(1, db.max), nb, db, hi).n == 0
  {
    var y, z := Over(1, hi), Times(hi, db.max);
    DenominatorThresholds(Pair(1, db.max), db, hi, y, z);
    TimesIsNonNegative(hi, db.max);
    FractionHasNoFloor(z);
    assert Ceil32(y) > db.max;
  }

  lemma {:induction false} OverIsNonNegative(k: int, q: real)
    requires q > 0.0 && k >= 0
    ensures Over(k, q) >= 0.0
  {
    Quotient(k as real, q);
    Scaled(0.0, Over(k, q), q);
  }

  lemma {:induction false} DenominatorVanishes(nb: Bounds, db: Bounds, lo: real)
    requires ValidBounds(nb) && ValidBounds(db) && db.min == 0 && lo >= 0.0 && !AtLeast(Pair(nb.max, 1), lo)
    ensures RaiseNumerator(Pair(nb.max, 1), nb, db, lo).d == 0
  {
    var x, q := Times(lo, 1), Over(nb.max, lo);
    NumeratorThresholds(Pair(nb.max, 1), nb, lo, x, q);
    OverIsNonNegative(nb.max, lo);
    assert !DenominatorsUnder(nb.max, lo)(1);
    FractionHasNoFloor(q);
    assert Ceil32(x) > nb.max;
  }

  lemma {:induction false} UnpayableEmptiesARole(nb: Bounds, db: Bounds, lo: real, hi: real, p: Pair)
    requires Admissible(nb, db, lo, hi) && nb.min == 0 && !Payable(nb, db, lo, hi)
    requires p == if AtLeast(Pair(nb.max, 1), lo) then Pair(1, db.max) else Pair(nb.max, 1)
    ensures !Live(Repaired(p, nb, db, lo, hi))
  {
    RatioBelow(p, lo);
    RatioBelow(p, hi);
    if AtLeast(Pair(nb.max, 1), lo) {
      assert AtLeast(p, lo) by {
        Scaled(lo, hi, p.d as real);
      }
      NumeratorVanishes(nb, db, hi);
    } else {
      DenominatorVanishes(nb, db, lo);
    }
  }

  /** Both roles stay live for every input exactly when each ratio bound can be paid with one replica on the other side. */
  lemma {:induction false} LiveIffPayable(nb: Bounds, db: Bounds, lo: real, hi: real)
    requires Admissible(nb, db, lo, hi)
    ensures Payable(nb, db, lo, hi) <==> forall p :: InBounds(p, nb, db) && Live(p) ==> Live(Repaired(p, nb, db, lo, hi))
  {
    if Payable(nb, db, lo, hi) {
      forall p | InBounds(p, nb, db) && Live(p) ensures Live(Repaired(p, nb, db, lo, hi)) {
        RepairIsSound(p, nb, db, lo, hi);
      }
    } else {
      if nb.min > 0 {
        PositiveMinimumsArePayable(nb, db, lo, hi);
      }
      var p := if AtLeast(Pair(nb.max, 1), lo) then Pair(1, db.max) else Pair(nb.max, 1);
      UnpayableEmptiesARole(nb, db, lo, hi, p);
      assert InBounds(p, nb, db) && Live(p);
    }
  }

  /** The webhook admits such policies: one replica of each role at most, but five of one for each of the other. */
  lemma {:induction false} AdmittedButUnpayable(nb: Bounds, db: Bounds, q: real)
    requires nb == db == Bounds(0, 1) && q == 5.0
    ensures Admissible(nb, db, q, q) && !Payable(nb, db, q, q)
    ensures InBounds(Pair(1, 1), nb, db) && Repaired(Pair(1, 1), nb, db, q, q) == Pair(1, 0)
  {
    var p := Pair(1, 1);
    assert Ratio(Pair(0, 1)) == 0.0 && Ratio(p) == 1.0 && Times(q, 1) == 5.0;
    assert !AtLeast(p, q) && RaiseNumerator(p, nb, db, q).n == 1;
    DenominatorVanishes(nb, db, q);
  }

  /** And a repair can overshoot: one to one is raised to two to one, although exactly three to two is wanted. */
  lemma {:induction false} RepairMissesBand(nb: Bounds, db: Bounds, q: real)
    requires nb == db == Bounds(1, 10) && q == 1.5
    ensures Admissible(nb, db, q, q) && Payable(nb, db, q, q)
    ensures Repaired(Pair(1, 1), nb, db, q, q) == Pair(2, 1) && !InBand(Pair(2, 1), q, q)
  {
    var p := Pair(1, 1);
    assert Ratio(p) == 1.0 && Ratio(Pair(1, 10)) == 0.1 && Ratio(Pair(10, 1)) == 10.0;
    assert Times(q, 1) == 1.5 && Times(q, 10) == 15.0;
    assert Ceil32(1.5) == 2;
  }

  /** The repaired pair is inside the whole band exactly when the side the repair keeps admits a partner there. */
  lemma {:induction false} NumeratorRepairReachesBandIff(p: Pair, r: Pair, nb: Bounds, db: Bounds, lo: real, hi: real)
    requires 0.0 <= lo && 0.0 < hi && InBounds(p, nb, db) && NumeratorRepaired(p, r, nb, db, lo)
    ensures AtLeast(Pair(nb.max, p.d), lo) ==>
      (InBand(r, lo, hi) <==> exists k :: Within(k, nb) && InBand(Pair(k, p.d), lo, hi))
    ensures !AtLeast(Pair(nb.max, p.d), lo) ==>
      (InBand(r, lo, hi) <==> exists k :: Within(k, db) && InBand(Pair(nb.max, k), lo, hi))
  {
    if AtLeast(Pair(nb.max, p.d), lo) {
      assert InBand(r, lo, hi) ==> Within(r.n, nb) && InBand(Pair(r.n, p.d), lo, hi);
      forall k | Within(k, nb) && InBand(Pair(k, p.d), lo, hi) ensures InBand(r, lo, hi) {
        assert NumeratorsFor(p.d, lo)(k);
      }
    } else {
      assert InBand(r, lo, hi) ==> Within(r.d, db) && InBand(Pair(nb.max, r.d), lo, hi);
      forall k | Within(k, db) && InBand(Pair(nb.max, k), lo, hi) ensures InBand(r, lo, hi) {
        assert DenominatorsUnder(nb.max, lo)(k);
        Scaled(k as real, r.d as real, hi);
      }
    }
  }

  lemma {:induction false} DenominatorRepairReachesBandIff(p: Pair, r: Pair, nb: Bounds, db: Bounds, lo: real, hi: real)
    requires 0.0 <= lo && 0.0 < hi && InBounds(p, nb, db) && DenominatorRepaired(p, r, nb, db, hi)
    ensures AtMost(Pair(p.n, db.max), hi) ==>
      (InBand(r, lo, hi) <==> exists k :: Within(k, db) && InBand(Pair(p.n, k), lo, hi))
    ensures !AtMost(Pair(p.n, db.max), hi) ==>
      (InBand(r, lo, hi) <==> exists k :: Within(k, nb) && InBand(Pair(k, db.max), lo, hi))
  {
    if AtMost(Pair(p.n, db.max), hi) {
      assert InBand(r, lo, hi) ==> Within(r.d, db) && InBand(Pair(p.n, r.d), lo, hi);
      forall k | Within(k, db) && InBand(Pair(p.n, k), lo, hi) ensures InBand(r, lo, hi) {
        assert DenominatorsFor(p.n, hi)(k);
        if lo > 0.0 {
          Scaled(r.d as real, k as real, lo);
        }
      }
    } else {
      assert InBand(r, lo, hi) ==> Within(r.n, nb) && InBand(Pair(r.n, db.max), lo, hi);
      forall k | Within(k, nb) && InBand(Pair(k, db.max), lo, hi) ensures InBand(r, lo, hi) {
        assert NumeratorsUnder(db.max, hi)(k);
      }
    }
  }

  // ----- The whole operation -----

  /** Every role inside its bounds, where it has any. */
  function Bounded(replicas: map<string, int>, bounds: map<string, Bounds>): map<string, int> {
    map role | role in replicas :: if role in bounds then Into(replicas[role], bounds[role]) else replicas[role]
  }

  function RatioOf(n: int, d: int): (r: Option<real>)
    ensures r.Some? <==> d != 0
    ensures r.Some? ==> r.value * d as real == n as real
  {
    if d != 0 then Some(n as real / d as real) else None
  }

  function Missing(replicas: map<string, int>, bounds: map<string, Bounds>, c: Constraint): Option<Error> {
    if c.numerator !in replicas then Some(NumeratorMissing)
    else if c.denominator !in replicas then Some(DenominatorMissing)
    else if c.numerator !in bounds then Some(NumeratorUnbounded)
    else if c.denominator !in bounds then Some(DenominatorUnbounded)
    else None
  }

  /** A role moves to the nearest value in its bounds, and stays if it has none. */
  lemma {:induction false} BoundedIsNearest(replicas: map<string, int>, bounds: map<string, Bounds>, role: string)
    requires role in replicas && (role in bounds ==> bounds[role].min <= bounds[role].max)
    ensures Bounded(replicas, bounds).Keys == replicas.Keys
    ensures var before, after := replicas[role], Bounded(replicas, bounds)[role];
      && (role !in bounds ==> after == before)
      && (role in bounds ==> Within(after, bounds[role]))
      && (role in bounds ==> after == before || after == if before < bounds[role].min then bounds[role].min else bounds[role].max)
      && (role in bounds && Within(before, bounds[role]) ==> after == before)
  {
  }

  /** What is reported is the first thing missing: a role's count before a role's bounds, the numerator before the denominator. */
  lemma {:induction false} MissingIsFirst(replicas: map<string, int>, bounds: map<string, Bounds>, c: Constraint)
    ensures Missing(replicas, bounds, c).None? <==>
      c.numerator in replicas && c.denominator in replicas && c.numerator in bounds && c.denominator in bounds
    ensures Missing(replicas, bounds, c) == Some(NumeratorMissing) <==> c.numerator !in replicas
    ensures Missing(replicas, bounds, c) == Some(DenominatorMissing) <==> c.numerator in replicas && c.denominator !in replicas
    ensures Missing(replicas, bounds, c) == Some(DenominatorUnbounded) <==>
      c.numerator in replicas && c.denominator in replicas && c.numerator in bounds && c.denominator !in bounds
  {
  }

  /**
   EnforceRoleRatio: what is returned are the bounded inputs, except that two distinct ratio roles, not both at zero,
   come out as the repaired pair; `adjusted` tells whether a role was seeded or the ratio was out of band, and
   `current` is the resulting ratio.
   */
  method EnforceRoleRatio(replicas: map<string, int>, bounds: map<string, Bounds>, constraint: Option<Constraint>)
    returns (final: map<string, int>, adjusted: bool, current: Option<real>, error: Option<Error>)
    requires forall role :: role in bounds ==> ValidBounds(bounds[role])
    ensures final.Keys == replicas.Keys
    ensures error == if constraint.None? then None else Missing(replicas, bounds, constraint.value)
    ensures forall role :: role in final && (constraint.None? || role !in {constraint.value.numerator, constraint.value.denominator}) ==>
      final[role] == Bounded(replicas, bounds)[role]
    ensures constraint.None? || error.Some? ==> final == Bounded(replicas, bounds) && !adjusted && current.None?
    ensures constraint.Some? && error.None? ==>
      var c, start := constraint.value, Bounded(replicas, bounds);
      var n, d, nb, db := start[c.numerator], start[c.denominator], bounds[c.numerator], bounds[c.denominator];
      if n == 0 && d == 0 then final == start && !adjusted && current.None?
      else
        var p := Pair(Seeded(n, nb), Seeded(d, db));
        && InBounds(p, nb, db) && Live(p)
        && final[c.denominator] == Repaired(p, nb, db, c.lo, c.hi).d
        && (c.numerator != c.denominator ==> final[c.numerator] == Repaired(p, nb, db, c.lo, c.hi).n)
        && current == RatioOf(final[c.numerator], final[c.denominator])
        && (adjusted <==> n == 0 || d == 0 || !InBand(p, c.lo, c.hi))
  {
    final, adjusted, current, error := Bounded(replicas, bounds), false, None, None;
    if constraint.None? { return; }
    var c := constraint.value;
    if c.numerator !in final { return final, false, None, Some(NumeratorMissing); }
    if c.denominator !in final { return final, false, None, Some(DenominatorMissing); }
    if c.numerator !in bounds { return final, false, None, Some(NumeratorUnbounded); }
    if c.denominator !in bounds { return final, false, None, Some(DenominatorUnbounded); }
    var n, d, nb, db := final[c.numerator], final[c.denominator], bounds[c.numerator], bounds[c.denominator];
    if n == 0 && d == 0 { return; }
    SeededIsLive(n, d, nb, db);
    if n == 0 {
      n := Into(1, nb);
      adjusted := true;
    }
    if d == 0 {
      d := Into(1, db);
      adjusted := true;
    }
    var r := Pair(n, d);
    RatioBelow(r, c.lo);
    RatioBelow(r, c.hi);
    var ratio := Ratio(r);
    if ratio < c.lo {
      r := RaiseNumerator(r, nb, db, c.lo);
      adjusted := true;
    } else if ratio > c.hi {
      r := RaiseDenominator(r, nb, db, c.hi);
      adjusted := true;
    }
    final := final[c.numerator := Into(r.n, nb)][c.denominator := Into(r.d, db)];
    current := RatioOf(final[c.numerator], final[c.denominator]);
  }
}
