/**
 Sliding windows over a clock (pkg/autoscaler/datastructure/sliding_window.go).

 Each window keeps a small pool.  What the pool must answer is stated against the
 whole list of appended records, kept as the ghost field `history`: the windows are
 proved to agree with a scan of that list.
 */
module SlidingWindow {
  import opened Common

  datatype Record<T> = Record(time: int, value: T)

  datatype Goal = Maximum | Minimum

  /** `isBetter`: the strict preference of a maximum or of a minimum window. */
  predicate Better(goal: Goal, me: int, other: int) {
    if goal.Maximum? then me > other else me < other
  }

  predicate IsFresh(span: int, now: int, time: int) {
    time + span >= now
  }

  ghost predicate Ordered<T>(h: seq<Record<T>>) {
    forall i, j :: 0 <= i < j < |h| ==> h[i].time <= h[j].time
  }

  ghost predicate UpTo<T>(h: seq<Record<T>>, clock: int) {
    forall i :: 0 <= i < |h| ==> h[i].time <= clock
  }

  lemma {:induction false} OrderedAppend<T>(h: seq<Record<T>>, r: Record<T>)
    requires Ordered(h) && UpTo(h, r.time)
    ensures Ordered(h + [r]) && UpTo(h + [r], r.time)
  {
  }

  // ----- Reference answers: plain scans of the history -----

  /** The best value among the records of `h` that are still fresh at `now`. */
  ghost function BestFresh(goal: Goal, h: seq<Record<int>>, span: int, now: int): Option<int> {
    if h == [] then None else
      var best := BestFresh(goal, h[..|h| - 1], span, now);
      var last := h[|h| - 1];
      if IsFresh(span, now, last.time) && (best.None? || Better(goal, last.value, best.value))
      then Some(last.value) else best
  }

  lemma {:induction false} BestFreshIsBest(goal: Goal, h: seq<Record<int>>, span: int, now: int)
    ensures var best := BestFresh(goal, h, span, now);
      && (best.None? <==> forall i :: 0 <= i < |h| ==> !IsFresh(span, now, h[i].time))
      && (best.Some? ==> exists i :: 0 <= i < |h| && IsFresh(span, now, h[i].time) && h[i].value == best.value)
      && (best.Some? ==> forall i :: 0 <= i < |h| && IsFresh(span, now, h[i].time) ==> !Better(goal, h[i].value, best.value))
  {
    if h != [] {
      var front := h[..|h| - 1];
      BestFreshIsBest(goal, front, span, now);
      var best := BestFresh(goal, front, span, now);
      if best.Some? {
        var i :| 0 <= i < |front| && IsFresh(span, now, front[i].time) && front[i].value == best.value;
        assert h[i] == front[i];
      }
      forall i | 0 <= i < |h| - 1 ensures h[i] == front[i] {}
    }
  }

  /** `h[i]` was superseded, by its successor, before it had drifted for too long. */
  ghost predicate Linked(h: seq<Record<int>>, i: int, span: int) {
    0 <= i < |h| - 1 && IsFresh(2 * span, h[i + 1].time, h[i].time)
  }

  /** The value of `h[i]`, stamped with the moment it was superseded. */
  ghost function Stamp(h: seq<Record<int>>, i: int): Record<int>
    requires 0 <= i < |h| - 1
  {
    Record(h[i + 1].time, h[i].value)
  }

  /**
   The value `h[i].value` was still the newest one at some moment of the last `span`
   milliseconds, and it was superseded (or is now looked at) no later than twice `span`
   after it was appended.
   */
  ghost predicate InEffect(h: seq<Record<int>>, i: int, span: int, now: int)
    requires 0 <= i < |h|
  {
    if i == |h| - 1 then IsFresh(2 * span, now, h[i].time)
    else Linked(h, i, span) && IsFresh(span, now, Stamp(h, i).time)
  }

  /** The best of `current` and of the values in effect among the first `n` of `h`. */
  ghost function ChartBest(goal: Goal, h: seq<Record<int>>, span: int, now: int, current: int, n: nat): int
    requires n <= |h|
  {
    if n == 0 then current else
      var best := ChartBest(goal, h, span, now, current, n - 1);
      if InEffect(h, n - 1, span, now) && Better(goal, h[n - 1].value, best) then h[n - 1].value else best
  }

  lemma {:induction false} ChartBestIsBest(goal: Goal, h: seq<Record<int>>, span: int, now: int, current: int, n: nat)
    requires n <= |h|
    ensures var best := ChartBest(goal, h, span, now, current, n);
      && !Better(goal, current, best)
      && (forall i :: 0 <= i < n && InEffect(h, i, span, now) ==> !Better(goal, h[i].value, best))
      && (best == current || exists i :: 0 <= i < n && InEffect(h, i, span, now) && h[i].value == best)
  {
    if n > 0 {
      ChartBestIsBest(goal, h, span, now, current, n - 1);
    }
  }

  // ----- The monotone pool shared by the record and the line-chart windows -----

  ghost predicate Covered(goal: Goal, pool: seq<Record<int>>, r: Record<int>) {
    exists k :: 0 <= k < |pool| && pool[k].time >= r.time && !Better(goal, r.value, pool[k].value)
  }

  /**
   `pool` represents `h` at time `clock`: it is a strictly worsening sequence of
   records of `h`, in time order, and every record of `h` that is fresh is
   outdone by a pooled record that stays fresh at least as long.
   */
  ghost predicate Represents(goal: Goal, pool: seq<Record<int>>, h: seq<Record<int>>, span: int, clock: int) {
    && Ordered(pool)
    && (forall i, j :: 0 <= i < j < |pool| ==> Better(goal, pool[i].value, pool[j].value))
    && (forall k :: 0 <= k < |pool| ==> pool[k] in h)
    && (forall i :: 0 <= i < |h| && IsFresh(span, clock, h[i].time) ==> Covered(goal, pool, h[i]))
  }

  /** The front loop of `expire`: drop records until one is fresh. */
  method DropExpired<T>(pool: seq<Record<T>>, span: int, now: int) returns (rest: seq<Record<T>>, ghost k: nat)
    ensures k <= |pool| && rest == pool[k..]
    ensures forall i :: 0 <= i < k ==> !IsFresh(span, now, pool[i].time)
    ensures rest != [] ==> IsFresh(span, now, rest[0].time)
  {
    rest, k := pool, 0;
    while |rest| > 0
      invariant k <= |pool| && rest == pool[k..]
      invariant forall i :: 0 <= i < k ==> !IsFresh(span, now, pool[i].time)
    {
      if IsFresh(span, now, rest[0].time) { break; }
      rest, k := rest[1..], k + 1;
    }
  }

  lemma {:induction false} ExpireRepresents(goal: Goal, pool: seq<Record<int>>, h: seq<Record<int>>, span: int, clock: int, now: int, k: nat)
    requires Represents(goal, pool, h, span, clock) && clock <= now && k <= |pool|
    requires forall i :: 0 <= i < k ==> !IsFresh(span, now, pool[i].time)
    ensures Represents(goal, pool[k..], h, span, now)
  {
    forall i | 0 <= i < |h| && IsFresh(span, now, h[i].time) ensures Covered(goal, pool[k..], h[i]) {
      var j :| 0 <= j < |pool| && pool[j].time >= h[i].time && !Better(goal, h[i].value, pool[j].value);
      assert pool[k..][j - k] == pool[j];
    }
  }

  /** Once the front is fresh the front is the answer. */
  lemma {:induction false} FrontIsBest(goal: Goal, pool: seq<Record<int>>, h: seq<Record<int>>, span: int, now: int)
    requires Represents(goal, pool, h, span, now)
    requires pool != [] ==> IsFresh(span, now, pool[0].time)
    ensures BestFresh(goal, h, span, now) == if pool == [] then None else Some(pool[0].value)
  {
    BestFreshIsBest(goal, h, span, now);
    if pool != [] {
      var i :| 0 <= i < |h| && h[i] == pool[0];
      forall j | 0 <= j < |h| && IsFresh(span, now, h[j].time) ensures !Better(goal, h[j].value, pool[0].value) {
        assert Covered(goal, pool, h[j]);
      }
    }
  }

  lemma {:induction false} PushRepresents(goal: Goal, pool: seq<Record<int>>, h: seq<Record<int>>, span: int, r: Record<int>, m: nat)
    requires Represents(goal, pool, h, span, r.time) && m <= |pool|
    requires UpTo(h, r.time)
    requires forall i :: m <= i < |pool| ==> !Better(goal, pool[i].value, r.value)
    requires m > 0 ==> Better(goal, pool[m - 1].value, r.value)
    ensures Represents(goal, pool[..m] + [r], h + [r], span, r.time)
  {
    var next := pool[..m] + [r];
    forall i | 0 <= i < |h + [r]| && IsFresh(span, r.time, (h + [r])[i].time) ensures Covered(goal, next, (h + [r])[i]) {
      if i < |h| {
        var k :| 0 <= k < |pool| && pool[k].time >= h[i].time && !Better(goal, h[i].value, pool[k].value);
        if k < m { assert next[k] == pool[k]; } else { assert next[m] == r; }
      } else {
        assert next[m] == r;
      }
    }
    forall i, j | 0 <= i < j < |next|
      ensures next[i].time <= next[j].time && Better(goal, next[i].value, next[j].value)
    {
      assert pool[i] in h;
      assert i < m - 1 ==> Better(goal, pool[i].value, pool[m - 1].value);
    }
  }

  /** The back loop of `Append`: drop records that do not beat the new one, then push it. */
  method Push(goal: Goal, pool: seq<Record<int>>, ghost h: seq<Record<int>>, span: int, r: Record<int>)
    returns (next: seq<Record<int>>)
    requires Represents(goal, pool, h, span, r.time) && UpTo(h, r.time)
    ensures Represents(goal, next, h + [r], span, r.time)
  {
    var rest := pool;
    while |rest| > 0
      invariant |rest| <= |pool| && rest == pool[..|rest|]
      invariant forall i :: |rest| <= i < |pool| ==> !Better(goal, pool[i].value, r.value)
    {
      if Better(goal, rest[|rest| - 1].value, r.value) { break; }
      rest := rest[..|rest| - 1];
    }
    PushRepresents(goal, pool, h, span, r, |rest|);
    next := rest + [r];
  }

  // ----- Record window -----

  class RecordWindow {
    const goal: Goal
    const span: int
    var pool: seq<Record<int>>
    ghost var history: seq<Record<int>>
    ghost var clock: int

    ghost predicate Valid()
      reads this
    {
      && Ordered(history)
      && UpTo(history, clock)
      && Represents(goal, pool, history, span, clock)
    }

    constructor (goal: Goal, span: int, ghost start: int)
      ensures Valid() && history == [] && clock == start
      ensures this.goal == goal && this.span == span
    {
      this.goal, this.span, pool := goal, span, [];
      history, clock := [], start;
    }

    method Append(now: int, value: int)
      requires Valid() && clock <= now
      modifies this
      ensures Valid() && clock == now
      ensures history == old(history) + [Record(now, value)]
    {
      var live, k := DropExpired(pool, span, now);
      ExpireRepresents(goal, pool, history, span, clock, now, k);
      OrderedAppend(history, Record(now, value));
      pool := Push(goal, live, history, span, Record(now, value));
      history, clock := history + [Record(now, value)], now;
    }

    /** A zero window never answers. */
    method GetBest(now: int) returns (best: Option<int>)
      requires Valid() && clock <= now
      modifies this
      ensures Valid() && clock == now && history == old(history)
      ensures best == if span == 0 then None else BestFresh(goal, history, span, now)
    {
      var live, k := DropExpired(pool, span, now);
      ExpireRepresents(goal, pool, history, span, clock, now, k);
      pool, clock := live, now;
      FrontIsBest(goal, pool, history, span, now);
      if |pool| == 0 || span == 0 { return None; }
      best := Some(pool[0].value);
    }
  }

  // ----- Line-chart window -----

  ghost function Superseded(h: seq<Record<int>>, span: int): seq<Record<int>> {
    if |h| < 2 then [] else
      Superseded(h[..|h| - 1], span) + if Linked(h, |h| - 2, span) then [Stamp(h, |h| - 2)] else []
  }

  lemma {:induction false} SupersededIs(h: seq<Record<int>>, span: int)
    ensures forall r :: r in Superseded(h, span) <==> exists i :: Linked(h, i, span) && Stamp(h, i) == r
  {
    if |h| >= 2 {
      var front := h[..|h| - 1];
      SupersededIs(front, span);
      assert forall i :: 0 <= i < |h| - 2 ==> Linked(front, i, span) == Linked(h, i, span) && Stamp(front, i) == Stamp(h, i);
    }
  }

  lemma {:induction false} SupersededAppend(h: seq<Record<int>>, span: int, r: Record<int>)
    requires UpTo(h, r.time)
    ensures UpTo(Superseded(h, span), r.time)
    ensures h != [] && IsFresh(2 * span, r.time, h[|h| - 1].time) ==>
              Superseded(h + [r], span) == Superseded(h, span) + [Record(r.time, h[|h| - 1].value)]
    ensures h == [] || !IsFresh(2 * span, r.time, h[|h| - 1].time) ==>
              Superseded(h + [r], span) == Superseded(h, span)
  {
    SupersededIs(h, span);
    assert (h + [r])[..|h|] == h;
    var s := Superseded(h, span);
    forall k | 0 <= k < |s| ensures s[k].time <= r.time {
      assert s[k] in s;
    }
  }

  /** What the window folds together, the newest value and the best superseded one, is the reference answer. */
  lemma {:induction false} FoldIsChartBest(goal: Goal, h: seq<Record<int>>, span: int, now: int, current: int, value: int)
    requires var drift := h != [] && IsFresh(2 * span, now, h[|h| - 1].time);
             var front := BestFresh(goal, Superseded(h, span), span, now);
             var v := if drift && Better(goal, h[|h| - 1].value, current) then h[|h| - 1].value else current;
             value == if front.Some? && Better(goal, front.value, v) then front.value else v
    ensures value == ChartBest(goal, h, span, now, current, |h|)
  {
    var s := Superseded(h, span);
    ChartBestIsBest(goal, h, span, now, current, |h|);
    BestFreshIsBest(goal, s, span, now);
    SupersededIs(h, span);
    forall i | 0 <= i < |h| && InEffect(h, i, span, now) ensures !Better(goal, h[i].value, value) {
      if i < |h| - 1 {
        assert Linked(h, i, span) && Stamp(h, i) in s;
      }
    }
    var front := BestFresh(goal, s, span, now);
    if front.Some? {
      var k :| 0 <= k < |s| && IsFresh(span, now, s[k].time) && s[k].value == front.value;
      assert s[k] in s;
      var i :| Linked(h, i, span) && Stamp(h, i) == s[k];
      assert InEffect(h, i, span, now);
    }
  }

  class ChartWindow {
    const goal: Goal
    const span: int
    var pool: seq<Record<int>>
    var driftingValue: int
    var driftTimestamp: int
    ghost var history: seq<Record<int>>
    ghost var superseded: seq<Record<int>>
    ghost var clock: int

    ghost predicate Valid()
      reads this
    {
      && Ordered(history) && UpTo(history, clock)
      && superseded == Superseded(history, span)
      && Represents(goal, pool, superseded, span, clock)
      && ValidDrift()
    }

    /** The drifting value is the newest one until it is found too old; the clock is positive. */
    ghost predicate ValidDrift()
      reads this
    {
      if history == [] then driftTimestamp == 0 else
        var last := history[|history| - 1];
        && last.time > 0
        && (|| (driftTimestamp == last.time && driftingValue == last.value)
            || (driftTimestamp == 0 && !IsFresh(2 * span, clock, last.time)))
    }

    constructor (goal: Goal, span: int, ghost start: int)
      ensures Valid() && history == [] && clock == start
      ensures this.goal == goal && this.span == span
    {
      this.goal, this.span, pool := goal, span, [];
      driftingValue, driftTimestamp := 0, 0;
      history, superseded, clock := [], [], start;
    }

    method Expire(now: int)
      requires Valid() && clock <= now && 0 < now
      modifies this
      ensures Valid() && clock == now && history == old(history)
      ensures pool != [] ==> IsFresh(span, now, pool[0].time)
      ensures driftTimestamp > 0 <==> history != [] && IsFresh(2 * span, now, history[|history| - 1].time)
      ensures driftTimestamp > 0 ==> driftingValue == history[|history| - 1].value
    {
      var rest, k := DropExpired(pool, span, now);
      ExpireRepresents(goal, pool, superseded, span, clock, now, k);
      pool := rest;
      if !IsFresh(2 * span, now, driftTimestamp) {
        driftTimestamp := 0;
      }
      clock := now;
    }

    method Append(now: int, value: int)
      requires Valid() && clock <= now && 0 < now
      modifies this
      ensures Valid() && clock == now
      ensures history == old(history) + [Record(now, value)]
    {
      Expire(now);
      ghost var next := history + [Record(now, value)];
      SupersededAppend(history, span, Record(now, value));
      OrderedAppend(history, Record(now, value));
      if driftTimestamp > 0 {
        var pushed := Push(goal, pool, superseded, span, Record(now, driftingValue));
        pool := pushed;
        superseded := superseded + [Record(now, driftingValue)];
      }
      assert superseded == Superseded(next, span);
      driftingValue, driftTimestamp := value, now;
      history := next;
    }

    /** A zero window never answers; otherwise the answer is the scan of the whole history. */
    method GetBest(now: int, current: int) returns (best: Option<int>)
      requires Valid() && clock <= now && 0 < now
      modifies this
      ensures Valid() && old(clock) <= clock <= now && history == old(history)
      ensures best == if span == 0 then None
                      else Some(ChartBest(goal, history, span, now, current, |history|))
    {
      if span == 0 { return None; }
      Expire(now);
      var value := current;
      if driftTimestamp > 0 {
        if Better(goal, driftingValue, value) { value := driftingValue; }
      }
      if |pool| > 0 {
        var frontValue := pool[0].value;
        if Better(goal, frontValue, value) { value := frontValue; }
      }
      FrontIsBest(goal, pool, superseded, span, now);
      FoldIsChartBest(goal, history, span, now, current, value);
      best := Some(value);
    }
  }

  // ----- Snapshot window -----

  /** Old enough to be compared against, young enough to be kept. */
  ghost predicate Usable<T>(h: seq<Record<T>>, i: int, span: int, expire: int, now: int)
    requires 0 <= i < |h|
  {
    !IsFresh(span, now, h[i].time) && IsFresh(expire, now, h[i].time)
  }

  /**
   `pool` is the end of the history `h`; what it lost is expired, unless the pool
   starts with a later stale record.
   */
  ghost predicate Keeps<T>(pool: seq<Record<T>>, h: seq<Record<T>>, span: int, expire: int, clock: int) {
    var lost := |h| - |pool|;
    && 0 <= lost && pool == h[lost..]
    && (|| lost == 0
        || !IsFresh(expire, clock, h[lost - 1].time)
        || (pool != [] && !IsFresh(span, clock, pool[0].time)))
  }

  lemma {:induction false} KeepsWithoutExpired<T>(pool: seq<Record<T>>, h: seq<Record<T>>, span: int, expire: int, clock: int, now: int, k: nat)
    requires Keeps(pool, h, span, expire, clock) && clock <= now && k <= |pool|
    requires forall i :: 0 <= i < k ==> !IsFresh(expire, now, pool[i].time)
    ensures Keeps(pool[k..], h, span, expire, now)
  {
    var lost := |h| - |pool|;
    assert pool[k..] == h[lost + k..];
    assert k > 0 ==> pool[k - 1] == h[lost + k - 1];
  }

  lemma {:induction false} KeepsWithoutOlderStale<T>(pool: seq<Record<T>>, h: seq<Record<T>>, span: int, expire: int, now: int)
    requires Ordered(h) && Keeps(pool, h, span, expire, now)
    requires |pool| > 1 && !IsFresh(span, now, pool[1].time)
    ensures Keeps(pool[1..], h, span, expire, now) && pool[0].time <= pool[1].time
  {
    var lost := |h| - |pool|;
    assert pool[1..] == h[lost + 1..];
    assert pool[0] == h[lost] && pool[1] == h[lost + 1];
  }

  lemma {:induction false} KeepsAppended<T>(pool: seq<Record<T>>, h: seq<Record<T>>, span: int, expire: int, r: Record<T>)
    requires Keeps(pool, h, span, expire, r.time)
    requires pool != [] || |h| == 0 || !IsFresh(expire, r.time, h[|h| - 1].time)
    ensures Keeps(pool + [r], h + [r], span, expire, r.time)
  {
  }

  /** What the two loops of `expire` leave in front decides the question for the whole history. */
  lemma {:induction false} FrontDecides<T>(pool: seq<Record<T>>, h: seq<Record<T>>, span: int, expire: int, now: int)
    requires Ordered(h) && Keeps(pool, h, span, expire, now)
    requires pool != [] ==> IsFresh(expire, now, pool[0].time)
    requires |pool| > 1 ==> IsFresh(span, now, pool[1].time)
    ensures var at := |h| - |pool|;
      if pool == [] || IsFresh(span, now, pool[0].time)
      then forall i :: 0 <= i < |h| ==> !Usable(h, i, span, expire, now)
      else Usable(h, at, span, expire, now) && forall i :: at < i < |h| ==> !Usable(h, i, span, expire, now)
  {
    var at := |h| - |pool|;
    forall i | 0 <= i < |h| && (i > at || pool == [] || IsFresh(span, now, pool[0].time))
      ensures !Usable(h, i, span, expire, now)
    {
      if i > at {
        assert h[at + 1] == pool[1];
      } else if i < at {
        assert h[i].time <= h[at - 1].time;
      }
    }
  }

  class SnapshotWindow<T> {
    const span: int
    const expire: int
    var pool: seq<Record<T>>
    ghost var history: seq<Record<T>>
    ghost var clock: int

    ghost predicate Valid()
      reads this
    {
      && Ordered(history)
      && UpTo(history, clock)
      && Keeps(pool, history, span, expire, clock)
    }

    constructor (span: int, expire: int, ghost start: int)
      ensures Valid() && history == [] && clock == start
      ensures this.span == span && this.expire == expire
    {
      this.span, this.expire, pool := span, expire, [];
      history, clock := [], start;
    }

    method Expire(now: int)
      requires Valid() && clock <= now
      modifies this
      ensures Valid() && clock == now && history == old(history)
      ensures pool != [] ==> IsFresh(expire, now, pool[0].time)
      ensures |pool| > 1 ==> IsFresh(span, now, pool[1].time)
    {
      var live, k := DropExpired(pool, expire, now);
      KeepsWithoutExpired(pool, history, span, expire, clock, now, k);
      while |live| > 1
        modifies {}
        invariant Keeps(live, history, span, expire, now)
        invariant live != [] ==> IsFresh(expire, now, live[0].time)
      {
        if IsFresh(span, now, live[1].time) { break; }
        KeepsWithoutOlderStale(live, history, span, expire, now);
        live := live[1..];
      }
      pool, clock := live, now;
    }

    method Append(now: int, value: T)
      requires Valid() && clock <= now
      modifies this
      ensures Valid() && clock == now
      ensures history == old(history) + [Record(now, value)]
    {
      Expire(now);
      KeepsAppended(pool, history, span, expire, Record(now, value));
      OrderedAppend(history, Record(now, value));
      pool := pool + [Record(now, value)];
      history := history + [Record(now, value)];
    }

    /** The answer is the latest usable snapshot of the whole history, and there is none exactly when none is usable. */
    method GetLastUnfreshSnapshot(now: int) returns (r: Option<T>, ghost at: nat)
      requires Valid() && clock <= now
      modifies this
      ensures Valid() && history == old(history)
      ensures r.None? <==> span == 0 || forall i :: 0 <= i < |history| ==> !Usable(history, i, span, expire, now)
      ensures r.Some? ==>
        && at < |history| && Usable(history, at, span, expire, now) && r.value == history[at].value
        && forall i :: at < i < |history| ==> !Usable(history, i, span, expire, now)
    {
      at := 0;
      if span == 0 { return None, at; }
      Expire(now);
      FrontDecides(pool, history, span, expire, now);
      if |pool| == 0 { return None, at; }
      if IsFresh(span, now, pool[0].time) { return None, at; }
      at := |history| - |pool|;
      r := Some(pool[0].value);
    }
  }
}
