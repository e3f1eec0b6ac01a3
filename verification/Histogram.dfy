/**
 The percentile of the samples between two scrapes of a cumulative histogram
 (pkg/autoscaler/histogram/histogram.go).

 The reference is the samples themselves: `added` are those observed since the past scrape, in order, and the true
 nearest-rank percentile is one of them.  Values are reals and counts are unbounded.
 */
module Histogram {
  import opened Common
  import opened Sums

  /** A bucket's upper bound. */
  datatype Le = Finite(value: real) | Infinite

  datatype Bucket = Bucket(le: Le, count: int)

  /** None stands for a nil slice. */
  datatype Snapshot = Snapshot(count: int, buckets: Option<seq<Bucket>>)

  datatype Error =
    | BadPercentile
    | NoNow
    | NoPast
    | NoNowBuckets
    | NoPastBuckets
    | CountDecreased
    | LengthsDiffer
    | NonDecreasingBroken
    | NotFound

  datatype Result = Ok(value: real) | Err(error: Error)

  lemma {:induction false} RankInRange(total: int, percentile: int, product: int)
    requires total >= 0 && 1 <= percentile <= 100 && product == total * percentile
    ensures total <= product <= 100 * total
  {
    assert total * (percentile - 1) >= 0 && total * (100 - percentile) >= 0;
  }

  /** ceil(total * percentile / 100), the nearest rank. */
  function Rank(total: int, percentile: int): (r: int)
    requires total >= 0 && 1 <= percentile <= 100
    ensures 100 * r - 100 < total * percentile <= 100 * r
    ensures r <= total && (total > 0 ==> r >= 1)
  {
    var product := total * percentile;
    RankInRange(total, percentile, product);
    product / 100 + if product % 100 > 0 then 1 else 0
  }

  /** Samples since `past` in the first `n` buckets. */
  function HighRank(now: seq<Bucket>, past: seq<Bucket>, n: nat): int
    requires n <= |now| && (past == [] || |past| == |now|)
  {
    if n == 0 then 0 else now[n - 1].count - if past == [] then 0 else past[n - 1].count
  }

  /** The value at the upper end of the first `n` buckets; an infinite bucket is taken to be twice as far as its lower end. */
  function UpperEnd(now: seq<Bucket>, n: nat): real
    requires n <= |now|
  {
    if n == 0 then 0.0 else match now[n - 1].le
      case Finite(v) => v
      case Infinite => UpperEnd(now, n - 1) * 2.0
  }

  /** Bucket `i` holds new samples and reaches `rank`. */
  predicate Reaches(now: seq<Bucket>, past: seq<Bucket>, rank: int, i: nat)
    requires i < |now| && (past == [] || |past| == |now|)
  {
    HighRank(now, past, i + 1) > HighRank(now, past, i) && rank <= HighRank(now, past, i + 1)
  }

  ghost predicate NonDecreasing(now: seq<Bucket>, past: seq<Bucket>, n: nat)
    requires n <= |now| && (past == [] || |past| == |now|)
  {
    forall j :: 0 <= j < n ==> HighRank(now, past, j) <= HighRank(now, past, j + 1)
  }

  /** Bucket `i` is the first that reaches `rank`. */
  ghost predicate Selected(now: seq<Bucket>, past: seq<Bucket>, rank: int, i: nat) {
    && i < |now| && (past == [] || |past| == |now|)
    && NonDecreasing(now, past, i + 1)
    && Reaches(now, past, rank, i) && forall j :: 0 <= j < i ==> !Reaches(now, past, rank, j)
  }

  function Interpolated(high: real, low: real, above: int, count: int): real
    requires count > 0
  {
    high - above as real * (high - low) / count as real
  }

  /** `v` is as far below `high`, on the way down to `low`, as `above` of `count` samples. */
  ghost predicate Divides(high: real, low: real, above: int, count: int, v: real) {
    (high - v) * count as real == above as real * (high - low)
  }

  lemma {:induction false} InterpolatedDivides(high: real, low: real, above: int, count: int)
    requires count > 0
    ensures Divides(high, low, above, count, Interpolated(high, low, above, count))
  {
    var share := above as real * (high - low) / count as real;
    assert share * count as real == above as real * (high - low);
  }

  /** The estimate `v` spreads the samples of bucket `i` evenly over it. */
  ghost predicate IsEstimate(now: seq<Bucket>, past: seq<Bucket>, rank: int, i: nat, v: real)
    requires i < |now| && (past == [] || |past| == |now|)
  {
    Divides(UpperEnd(now, i + 1), UpperEnd(now, i), HighRank(now, past, i + 1) - rank,
            HighRank(now, past, i + 1) - HighRank(now, past, i), v)
  }

  /** The bucket walk.  `i` is the selected bucket. */
  method Walk(now: seq<Bucket>, past: seq<Bucket>, rank: int) returns (r: Result, ghost i: nat)
    requires past == [] || |past| == |now|
    ensures r.Ok? ==> Selected(now, past, rank, i) && IsEstimate(now, past, rank, i, r.value)
    ensures r.Err? ==> (r.error == NonDecreasingBroken && !NonDecreasing(now, past, |now|)) || r.error == NotFound
    ensures r == Err(NotFound) ==> NonDecreasing(now, past, |now|) && forall j :: 0 <= j < |now| ==> !Reaches(now, past, rank, j)
  {
    var lowValue, lastHighRank := 0.0, 0;
    i := 0;
    for k := 0 to |now|
      invariant lowValue == UpperEnd(now, k) && lastHighRank == HighRank(now, past, k)
      invariant NonDecreasing(now, past, k)
      invariant forall j :: 0 <= j < k ==> !Reaches(now, past, rank, j)
    {
      var lowRank, highRank := lastHighRank + 1, now[k].count;
      if past != [] {
        highRank := highRank - past[k].count;
      }
      assert highRank == HighRank(now, past, k + 1);
      if highRank < lastHighRank { return Err(NonDecreasingBroken), i; }
      var count := highRank - lowRank + 1;
      var highValue := match now[k].le case Finite(v) => v case Infinite => lowValue * 2.0;
      if count > 0 && rank <= highRank {
        InterpolatedDivides(highValue, lowValue, highRank - rank, count);
        return Ok(Interpolated(highValue, lowValue, highRank - rank, count)), k;
      }
      lowValue, lastHighRank := highValue, highRank;
    }
    r := Err(NotFound);
  }

  function Refused(percentile: int, now: Option<Snapshot>, past: Option<Snapshot>): Option<Error> {
    if percentile < 1 || percentile > 100 then Some(BadPercentile)
    else if now.None? then Some(NoNow)
    else if past.None? then Some(NoPast)
    else if now.value.buckets.None? then Some(NoNowBuckets)
    else if past.value.buckets.None? then Some(NoPastBuckets)
    else if now.value.count < past.value.count then Some(CountDecreased)
    else if now.value.count == past.value.count then None
    else if past.value.buckets.value != [] && |now.value.buckets.value| != |past.value.buckets.value| then Some(LengthsDiffer)
    else None
  }

  method QuantileInDiff(percentile: int, now: Option<Snapshot>, past: Option<Snapshot>) returns (r: Result, ghost i: nat)
    ensures Refused(percentile, now, past).Some? ==> r == Err(Refused(percentile, now, past).value)
    ensures Refused(percentile, now, past).None? ==>
      var total, b, b' := now.value.count - past.value.count, now.value.buckets.value, past.value.buckets.value;
      if total == 0 then r == Ok(0.0)
      else
        var rank := Rank(total, percentile);
        && (r.Ok? ==> Selected(b, b', rank, i) && IsEstimate(b, b', rank, i, r.value))
        && (r.Err? ==> (r.error == NonDecreasingBroken && !NonDecreasing(b, b', |b|)) || r.error == NotFound)
        && (r == Err(NotFound) ==> NonDecreasing(b, b', |b|) && forall j :: 0 <= j < |b| ==> !Reaches(b, b', rank, j))
  {
    i := 0;
    var refused := Refused(percentile, now, past);
    if refused.Some? { return Err(refused.value), 0; }
    var total := now.value.count - past.value.count;
    if total == 0 { return Ok(0.0), 0; }
    r, i := Walk(now.value.buckets.value, past.value.buckets.value, Rank(total, percentile));
  }

  // ----- The samples behind the counts -----

  predicate AtMost(x: real, le: Le) { le.Infinite? || x <= le.value }

  ghost function One(le: Le): real -> int { (x: real) => if AtMost(x, le) then 1 else 0 }

  /** The cumulative count of a bucket. */
  ghost function CountLe(s: seq<real>, le: Le): int { SumOf(s, One(le)) }

  /** The histogram of samples `s`. */
  ghost function Scrape(bounds: seq<Le>, s: seq<real>): seq<Bucket> {
    seq(|bounds|, i requires 0 <= i < |bounds| => Bucket(bounds[i], CountLe(s, bounds[i])))
  }

  predicate Before(a: Le, b: Le) { a.Finite? && (b.Finite? ==> a.value < b.value) }

  /** Strictly increasing, nonnegative boundaries; only the last can be infinite. */
  ghost predicate Boundaries(bounds: seq<Le>) {
    && (forall i, j :: 0 <= i < j < |bounds| ==> Before(bounds[i], bounds[j]))
    && forall i :: 0 <= i < |bounds| && bounds[i].Finite? ==> bounds[i].value >= 0.0
  }

  ghost predicate Sorted(s: seq<real>) { forall i, j :: 0 <= i < j < |s| ==> s[i] <= s[j] }

  /** Between the scrapes of `past` and `now` exactly the samples `added` were observed; a first scrape has an empty past. */
  ghost predicate Scrapes(bounds: seq<Le>, before: seq<real>, added: seq<real>, after: seq<real>, past: seq<Bucket>, now: seq<Bucket>) {
    && Boundaries(bounds) && Sorted(added) && added != [] && multiset(after) == multiset(before + added)
    && now == Scrape(bounds, after)
    && (past == Scrape(bounds, before) || (past == [] && before == []))
  }

  lemma {:induction false} CountNonNegative(s: seq<real>, le: Le)
    ensures CountLe(s, le) >= 0
  {
    if s != [] {
      CountNonNegative(s[1..], le);
    }
  }

  lemma {:induction false} CountGrows(s: seq<real>, a: Le, b: Le)
    requires Before(a, b)
    ensures CountLe(s, a) <= CountLe(s, b)
  {
    if s != [] {
      CountGrows(s[1..], a, b);
    }
  }

  /** In a sorted sample, the count under a boundary reaches a rank exactly when the sample of that rank is under it. */
  lemma {:induction false} CountReachesRank(s: seq<real>, le: Le, rank: int)
    requires Sorted(s) && 1 <= rank <= |s|
    ensures CountLe(s, le) >= rank <==> AtMost(s[rank - 1], le)
  {
    CountNonNegative(s[1..], le);
    if rank > 1 {
      CountReachesRank(s[1..], le, rank - 1);
    }
    if |s| > 1 {
      CountReachesRank(s[1..], le, 1);
    }
  }

  /** The difference of the scrapes counts the added samples. */
  lemma {:induction false} DifferenceCountsAdded(bounds: seq<Le>, before: seq<real>, added: seq<real>, after: seq<real>, past: seq<Bucket>, now: seq<Bucket>, n: nat)
    requires Scrapes(bounds, before, added, after, past, now) && n <= |bounds|
    ensures HighRank(now, past, n) == if n == 0 then 0 else CountLe(added, bounds[n - 1])
  {
    if n > 0 {
      var f := One(bounds[n - 1]);
      SumOfPermutation(after, before + added, f);
      SumOfConcatenation(before, added, f);
    }
  }

  lemma {:induction false} DifferenceIsNonDecreasing(bounds: seq<Le>, before: seq<real>, added: seq<real>, after: seq<real>, past: seq<Bucket>, now: seq<Bucket>)
    requires Scrapes(bounds, before, added, after, past, now)
    ensures NonDecreasing(now, past, |now|)
  {
    forall j | 0 <= j < |now| ensures HighRank(now, past, j) <= HighRank(now, past, j + 1) {
      DifferenceCountsAdded(bounds, before, added, after, past, now, j);
      DifferenceCountsAdded(bounds, before, added, after, past, now, j + 1);
      CountNonNegative(added, bounds[j]);
      if j > 0 {
        CountGrows(added, bounds[j - 1], bounds[j]);
      }
    }
  }

  /** Below the first bucket that reaches a rank, all ranks are smaller. */
  lemma {:induction false} RankAboveEarlier(now: seq<Bucket>, past: seq<Bucket>, rank: int, n: nat)
    requires n <= |now| && (past == [] || |past| == |now|) && rank >= 1
    requires NonDecreasing(now, past, n) && forall j :: 0 <= j < n ==> !Reaches(now, past, rank, j)
    ensures HighRank(now, past, n) < rank
  {
    if n > 0 {
      RankAboveEarlier(now, past, rank, n - 1);
      assert !Reaches(now, past, rank, n - 1);
    }
  }

  lemma {:induction false} DividesInRange(high: real, low: real, above: int, count: int, v: real)
    requires 0 <= above < count && low <= high && Divides(high, low, above, count, v)
    ensures low <= v <= high
    ensures low < high ==> low < v
  {
    var w, n := high - low, count as real;
    assert (high - v) * n == above as real * w >= 0.0;
    assert (v - low) * n == (n - above as real) * w >= 0.0;
    assert low < high ==> (n - above as real) * w > 0.0;
  }

  lemma {:induction false} DividesGrows(high: real, low: real, above: int, fewer: int, count: int, v: real, v': real)
    requires 0 <= fewer <= above < count && low <= high
    requires Divides(high, low, above, count, v) && Divides(high, low, fewer, count, v')
    ensures (v' - v) * count as real == (above - fewer) as real * (high - low)
    ensures v <= v'
  {
    assert (v' - v) * count as real == (high - v) * count as real - (high - v') * count as real;
    assert (above as real - fewer as real) * (high - low) >= 0.0;
  }

  ghost predicate Uses(now: seq<Bucket>, bounds: seq<Le>) {
    |now| == |bounds| && forall i :: 0 <= i < |now| ==> now[i].le == bounds[i]
  }

  lemma {:induction false} UpperEndsRise(now: seq<Bucket>, bounds: seq<Le>, n: nat, m: nat)
    requires Uses(now, bounds) && Boundaries(bounds) && n <= m <= |now|
    ensures 0.0 <= UpperEnd(now, n) <= UpperEnd(now, m)
    decreases m - n, n
  {
    if n < m {
      UpperEndsRise(now, bounds, n, m - 1);
      if m >= 2 {
        assert Before(bounds[m - 2], bounds[m - 1]);
      }
    } else if n > 0 {
      assert now[n - 1].le == bounds[n - 1];
      if bounds[n - 1].Infinite? {
        UpperEndsRise(now, bounds, n - 1, n - 1);
      }
    }
  }

  /** The estimate lies between the ends of its bucket, and above the lower end unless the bucket is empty. */
  lemma {:induction false} EstimateInBucket(now: seq<Bucket>, past: seq<Bucket>, bounds: seq<Le>, rank: int, i: nat, v: real)
    requires Uses(now, bounds) && Boundaries(bounds) && rank >= 1 && Selected(now, past, rank, i) && IsEstimate(now, past, rank, i, v)
    ensures UpperEnd(now, i) <= v <= UpperEnd(now, i + 1)
    ensures UpperEnd(now, i) < UpperEnd(now, i + 1) ==> UpperEnd(now, i) < v
    ensures HighRank(now, past, i) < rank
  {
    RankAboveEarlier(now, past, rank, i);
    UpperEndsRise(now, bounds, i, i + 1);
    DividesInRange(UpperEnd(now, i + 1), UpperEnd(now, i), HighRank(now, past, i + 1) - rank,
                   HighRank(now, past, i + 1) - HighRank(now, past, i), v);
  }

  // ----- Theorems -----

  /** Both the estimate and the true nearest-rank percentile of the added samples lie in the selected bucket. */
  lemma {:induction false} QuantileBrackets(bounds: seq<Le>, before: seq<real>, added: seq<real>, after: seq<real>,
                                            past: seq<Bucket>, now: seq<Bucket>, percentile: int, i: nat, v: real)
    requires Scrapes(bounds, before, added, after, past, now) && 1 <= percentile <= 100
    requires Selected(now, past, Rank(|added|, percentile), i) && IsEstimate(now, past, Rank(|added|, percentile), i, v)
    ensures var rank := Rank(|added|, percentile);
      && AtMost(added[rank - 1], bounds[i]) && (i > 0 ==> !AtMost(added[rank - 1], bounds[i - 1]))
      && (bounds[i].Finite? ==> v <= bounds[i].value && if i == 0 then v >= 0.0 else v > bounds[i - 1].value)
  {
    var rank := Rank(|added|, percentile);
    EstimateInBucket(now, past, bounds, rank, i, v);
    DifferenceCountsAdded(bounds, before, added, after, past, now, i + 1);
    CountReachesRank(added, bounds[i], rank);
    if i > 0 {
      DifferenceCountsAdded(bounds, before, added, after, past, now, i);
      CountReachesRank(added, bounds[i - 1], rank);
      assert Before(bounds[i - 1], bounds[i]);
    }
  }

  lemma {:induction false} RanksRise(now: seq<Bucket>, past: seq<Bucket>, n: nat, m: nat)
    requires n <= m <= |now| && (past == [] || |past| == |now|) && NonDecreasing(now, past, m)
    ensures HighRank(now, past, n) <= HighRank(now, past, m)
  {
    if n < m {
      RanksRise(now, past, n, m - 1);
      assert HighRank(now, past, m - 1) <= HighRank(now, past, m - 1 + 1);
    }
  }

  lemma {:induction false} ReachedIffCounted(now: seq<Bucket>, past: seq<Bucket>, rank: int)
    requires (past == [] || |past| == |now|) && NonDecreasing(now, past, |now|) && rank >= 1
    ensures (exists j :: 0 <= j < |now| && Reaches(now, past, rank, j)) <==> rank <= HighRank(now, past, |now|)
  {
    if forall j :: 0 <= j < |now| ==> !Reaches(now, past, rank, j) {
      RankAboveEarlier(now, past, rank, |now|);
    } else {
      var j :| 0 <= j < |now| && Reaches(now, past, rank, j);
      RanksRise(now, past, j + 1, |now|);
    }
  }

  /** A bucket is found exactly when the true percentile is under the last boundary; the counts never break the order. */
  lemma {:induction false} QuantileFoundIff(bounds: seq<Le>, before: seq<real>, added: seq<real>, after: seq<real>,
                                            past: seq<Bucket>, now: seq<Bucket>, percentile: int)
    requires Scrapes(bounds, before, added, after, past, now) && 1 <= percentile <= 100
    ensures NonDecreasing(now, past, |now|)
    ensures (exists j :: 0 <= j < |now| && Reaches(now, past, Rank(|added|, percentile), j)) <==>
      (bounds != [] && AtMost(added[Rank(|added|, percentile) - 1], bounds[|bounds| - 1]))
  {
    var rank := Rank(|added|, percentile);
    DifferenceIsNonDecreasing(bounds, before, added, after, past, now);
    ReachedIffCounted(now, past, rank);
    DifferenceCountsAdded(bounds, before, added, after, past, now, |now|);
    if bounds != [] {
      CountReachesRank(added, bounds[|bounds| - 1], rank);
    }
  }

  /** A higher rank, hence a higher percentile, never gets a lower answer, and inside a bucket each rank is one equal step. */
  lemma {:induction false} QuantileIsMonotone(now: seq<Bucket>, past: seq<Bucket>, bounds: seq<Le>,
                                              rank: int, i: nat, v: real, rank': int, i': nat, v': real)
    requires Uses(now, bounds) && Boundaries(bounds) && 1 <= rank <= rank'
    requires Selected(now, past, rank, i) && Selected(now, past, rank', i')
    requires IsEstimate(now, past, rank, i, v) && IsEstimate(now, past, rank', i', v')
    ensures v <= v'
    ensures i == i' ==>
      (v' - v) * (HighRank(now, past, i + 1) - HighRank(now, past, i)) as real ==
      (rank' - rank) as real * (UpperEnd(now, i + 1) - UpperEnd(now, i))
  {
    EstimateInBucket(now, past, bounds, rank, i, v);
    EstimateInBucket(now, past, bounds, rank', i', v');
    if i' < i {
      assert Reaches(now, past, rank, i');
    } else if i < i' {
      UpperEndsRise(now, bounds, i + 1, i');
    } else {
      DividesGrows(UpperEnd(now, i + 1), UpperEnd(now, i), HighRank(now, past, i + 1) - rank,
                   HighRank(now, past, i + 1) - rank', HighRank(now, past, i + 1) - HighRank(now, past, i), v, v');
    }
  }

  /** The lower and the upper end of a bucket; one without an upper boundary ends at twice its lower end. */
  ghost function LowEnd(bounds: seq<Le>, i: nat): real
    requires i < |bounds| && Boundaries(bounds)
  {
    if i == 0 then 0.0 else
      assert Before(bounds[i - 1], bounds[i]);
      bounds[i - 1].value
  }

  ghost function HighEnd(bounds: seq<Le>, i: nat): real
    requires i < |bounds| && Boundaries(bounds)
  {
    if bounds[i].Finite? then bounds[i].value else 2.0 * LowEnd(bounds, i)
  }

  ghost function SamplesUnder(added: seq<real>, bounds: seq<Le>, n: nat): int
    requires n <= |bounds|
  {
    if n == 0 then 0 else CountLe(added, bounds[n - 1])
  }

  lemma {:induction false} EndsAre(now: seq<Bucket>, bounds: seq<Le>, i: nat)
    requires Uses(now, bounds) && Boundaries(bounds) && i < |bounds|
    ensures UpperEnd(now, i) == LowEnd(bounds, i) && UpperEnd(now, i + 1) == HighEnd(bounds, i)
  {
    assert now[i].le == bounds[i];
    if i > 0 {
      assert now[i - 1].le == bounds[i - 1] && Before(bounds[i - 1], bounds[i]);
    }
  }

  lemma {:induction false} DividesAtTop(high: real, low: real, count: int, v: real)
    requires count > 0 && Divides(high, low, 0, count, v)
    ensures v == high
  {
  }

  /**
   What the estimate is, in terms of the samples and the boundaries: in its bucket, finite or not, it leaves above it
   the share of the bucket that the samples above its rank are of the samples in it.
   */
  lemma {:induction false} QuantileDivides(bounds: seq<Le>, before: seq<real>, added: seq<real>, after: seq<real>,
                                           past: seq<Bucket>, now: seq<Bucket>, percentile: int, i: nat, v: real)
    requires Scrapes(bounds, before, added, after, past, now) && 1 <= percentile <= 100
    requires Selected(now, past, Rank(|added|, percentile), i) && IsEstimate(now, past, Rank(|added|, percentile), i, v)
    ensures var rank, under, upTo := Rank(|added|, percentile), SamplesUnder(added, bounds, i), SamplesUnder(added, bounds, i + 1);
      && under < rank <= upTo
      && Divides(HighEnd(bounds, i), LowEnd(bounds, i), upTo - rank, upTo - under, v)
      && (rank == upTo ==> v == HighEnd(bounds, i))
  {
    var rank := Rank(|added|, percentile);
    RankAboveEarlier(now, past, rank, i);
    DifferenceCountsAdded(bounds, before, added, after, past, now, i);
    DifferenceCountsAdded(bounds, before, added, after, past, now, i + 1);
    EndsAre(now, bounds, i);
    if rank == SamplesUnder(added, bounds, i + 1) {
      DividesAtTop(HighEnd(bounds, i), LowEnd(bounds, i), rank - SamplesUnder(added, bounds, i), v);
    }
  }

  lemma {:induction false} RankIsMonotone(total: int, p: int, p': int)
    requires total >= 0 && 1 <= p <= p' <= 100
    ensures Rank(total, p) <= Rank(total, p')
  {
    assert total * (p' - p) >= 0;
  }
}
