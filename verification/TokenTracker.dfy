/**
 Sliding-window token accounting (pkg/kthena-router/datastore/token_tracker.go).

 Per user and model the tracker keeps buckets of one second with running sums, a lazy
 start index and occasional compaction.  The reference is the plain list of all
 updates, `log`: the getters are proved to return its weighted sum and its length
 over the window.  Token amounts are reals; instants are nanoseconds.
 */
module TokenTracker {
  import opened Common

  const SECOND := 1_000_000_000

  /** Tokens and requests are accounted side by side. */
  datatype Usage = Usage(tokens: real, requests: int)

  const NOTHING := Usage(0.0, 0)

  function Plus(a: Usage, b: Usage): Usage { Usage(a.tokens + b.tokens, a.requests + b.requests) }

  function Minus(a: Usage, b: Usage): Usage { Usage(a.tokens - b.tokens, a.requests - b.requests) }

  /** One second's usage, and the running sum of the stored buckets up to and including it. */
  datatype Bucket = Bucket(time: int, used: Usage, cum: Usage)

  datatype UserBuckets = UserBuckets(buckets: seq<Bucket>, start: nat)

  datatype Update = Update(user: string, model: string, time: int, tokens: real)

  function Unix(now: int): int { now / SECOND }

  function Cutoff(now: int, window: int): int { Unix(now - window) }

  // ----- Reference: the list of updates -----

  ghost function UsageSince(log: seq<Update>, user: string, model: string, c: int): Usage {
    if log == [] then NOTHING else
      var last := log[|log| - 1];
      var rest := UsageSince(log[..|log| - 1], user, model, c);
      if last.user == user && last.model == model && last.time >= c then Plus(rest, Usage(last.tokens, 1)) else rest
  }

  ghost predicate Counts(u: Update, user: string, model: string, c: int) { u.user == user && u.model == model && u.time >= c }

  /** The updates of `log` that count. */
  ghost function Counted(log: seq<Update>, user: string, model: string, c: int): set<nat> {
    set i: nat | i < |log| && Counts(log[i], user, model, c)
  }

  lemma {:induction false} CountedGrows(log: seq<Update>, u: Update, user: string, model: string, c: int)
    ensures |Counted(log + [u], user, model, c)| == |Counted(log, user, model, c)| + if Counts(u, user, model, c) then 1 else 0
  {
    var more: set<nat> := if Counts(u, user, model, c) then {|log|} else {};
    assert Counted(log + [u], user, model, c) == Counted(log, user, model, c) + more;
    assert Counted(log, user, model, c) !! more;
  }

  /** The reference counts each update once, and adds its tokens exactly when it counts. */
  lemma {:induction false} UsageIsCounted(log: seq<Update>, user: string, model: string, c: int)
    ensures UsageSince(log, user, model, c).requests == |Counted(log, user, model, c)|
    ensures log != [] ==>
      var last, rest := log[|log| - 1], UsageSince(log[..|log| - 1], user, model, c);
      UsageSince(log, user, model, c).tokens == rest.tokens + if Counts(last, user, model, c) then last.tokens else 0.0
  {
    if log != [] {
      var front, last := log[..|log| - 1], log[|log| - 1];
      UsageIsCounted(front, user, model, c);
      CountedGrows(front, last, user, model, c);
      assert log == front + [last];
    }
  }

  /** An update made at instant `t` is in the window at `now` exactly from the start of the second in which the window begins. */
  lemma {:induction false} InWindowIff(t: int, now: int, window: int)
    ensures Unix(t) >= Cutoff(now, window) <==> t >= now - window - (now - window) % SECOND
    ensures t >= now - window ==> Unix(t) >= Cutoff(now, window)
    ensures t <= now - window - SECOND ==> Unix(t) < Cutoff(now, window)
  {
  }

  // ----- Buckets -----

  ghost function Total(b: seq<Bucket>, n: nat): Usage
    requires n <= |b|
  {
    if n == 0 then NOTHING else Plus(Total(b, n - 1), b[n - 1].used)
  }

  /** What the buckets from index `lo` on account for at or after second `c`. */
  ghost function ActiveFrom(b: seq<Bucket>, lo: nat, c: int): Usage
    requires lo <= |b|
    decreases |b| - lo
  {
    if lo == |b| then NOTHING else
      var rest := ActiveFrom(b, lo + 1, c);
      if b[lo].time >= c then Plus(b[lo].used, rest) else rest
  }

  ghost predicate Increasing(b: seq<Bucket>) {
    forall i, j :: 0 <= i < j < |b| ==> b[i].time < b[j].time
  }

  ghost predicate RunningSums(b: seq<Bucket>) {
    forall i :: 0 <= i < |b| ==> b[i].cum == Total(b, i + 1)
  }

  /** The stored sums are running sums, and the dead prefix is empty or under half the slice. */
  ghost predicate ValidBuckets(d: UserBuckets) {
    && Increasing(d.buckets) && RunningSums(d.buckets)
    && (d.start == 0 || d.start < |d.buckets| / 2)
  }

  lemma {:induction false} ActiveIsDifference(b: seq<Bucket>, lo: nat, c: int)
    requires lo <= |b| && Increasing(b) && (lo < |b| ==> b[lo].time >= c)
    ensures ActiveFrom(b, lo, c) == Minus(Total(b, |b|), Total(b, lo))
    decreases |b| - lo
  {
    if lo < |b| {
      ActiveIsDifference(b, lo + 1, c);
    }
  }

  lemma {:induction false} ActiveSkipsExpired(b: seq<Bucket>, lo: nat, hi: nat, c: int)
    requires lo <= hi <= |b| && forall i :: lo <= i < hi ==> b[i].time < c
    ensures ActiveFrom(b, lo, c) == ActiveFrom(b, hi, c)
    decreases hi - lo
  {
    if lo < hi {
      ActiveSkipsExpired(b, lo + 1, hi, c);
    }
  }

  /** `b'` is `b` without its first `k` buckets, with the running sums reduced by what was dropped. */
  ghost predicate Compacted(b: seq<Bucket>, k: nat, b': seq<Bucket>)
    requires k <= |b|
  {
    && |b'| == |b| - k
    && forall i :: 0 <= i < |b'| ==>
         b'[i].time == b[k + i].time && b'[i].used == b[k + i].used && b'[i].cum == Minus(b[k + i].cum, Total(b, k))
  }

  lemma {:induction false} CompactedTotal(b: seq<Bucket>, k: nat, b': seq<Bucket>, n: nat)
    requires k <= |b| && Compacted(b, k, b') && n <= |b'|
    ensures Total(b', n) == Minus(Total(b, k + n), Total(b, k))
  {
    if n > 0 {
      CompactedTotal(b, k, b', n - 1);
    }
  }

  lemma {:induction false} CompactedActive(b: seq<Bucket>, k: nat, b': seq<Bucket>, lo: nat, c: int)
    requires k <= |b| && Compacted(b, k, b') && lo <= |b'|
    ensures ActiveFrom(b', lo, c) == ActiveFrom(b, k + lo, c)
    decreases |b'| - lo
  {
    if lo < |b'| {
      CompactedActive(b, k, b', lo + 1, c);
    }
  }

  lemma {:induction false} CompactedIsValid(b: seq<Bucket>, k: nat, b': seq<Bucket>)
    requires k <= |b| && Compacted(b, k, b') && Increasing(b) && RunningSums(b)
    ensures Increasing(b') && RunningSums(b')
  {
    forall i | 0 <= i < |b'| ensures b'[i].cum == Total(b', i + 1) {
      CompactedTotal(b, k, b', i + 1);
    }
  }

  /** pruneExpiredBuckets on one user's data: nothing inside the window is lost. */
  method Prune(d: UserBuckets, cutoff: int) returns (r: UserBuckets)
    requires ValidBuckets(d)
    ensures ValidBuckets(r)
    ensures r.buckets != [] ==> d.buckets != [] && r.buckets[|r.buckets| - 1].time == d.buckets[|d.buckets| - 1].time
    ensures forall c :: c >= cutoff ==> ActiveFrom(r.buckets, r.start, c) == ActiveFrom(d.buckets, d.start, c)
  {
    if d.start >= |d.buckets| { return d; }
    var b, newStart := d.buckets, d.start;
    while newStart < |b| && b[newStart].time < cutoff
      invariant d.start <= newStart <= |b|
      invariant forall i :: d.start <= i < newStart ==> b[i].time < cutoff
    {
      newStart := newStart + 1;
    }
    forall c | c >= cutoff ensures ActiveFrom(b, newStart, c) == ActiveFrom(b, d.start, c) {
      ActiveSkipsExpired(b, d.start, newStart, c);
    }
    r := UserBuckets(b, newStart);
    if newStart > 0 && newStart >= |b| / 2 {
      var base := b[newStart - 1].cum;
      var kept := [];
      for i := newStart to |b|
        invariant |kept| == i - newStart
        invariant forall k :: 0 <= k < |kept| ==> kept[k] == b[newStart + k].(cum := Minus(b[newStart + k].cum, base))
      {
        kept := kept + [b[i].(cum := Minus(b[i].cum, base))];
      }
      CompactedIsValid(b, newStart, kept);
      forall c ensures ActiveFrom(kept, 0, c) == ActiveFrom(b, newStart, c) {
        CompactedActive(b, newStart, kept, 0, c);
      }
      r := UserBuckets(kept, 0);
    }
  }

  /** getActiveTotal and getActiveRequestCount: a scan to the window and one subtraction. */
  method ActiveUsage(d: UserBuckets, cutoff: int) returns (u: Usage)
    requires ValidBuckets(d)
    ensures u == ActiveFrom(d.buckets, d.start, cutoff)
  {
    if d.start >= |d.buckets| { return NOTHING; }
    var b, from := d.buckets, d.start;
    while from < |b| && b[from].time < cutoff
      invariant d.start <= from <= |b|
      invariant forall i :: d.start <= i < from ==> b[i].time < cutoff
    {
      from := from + 1;
    }
    ActiveSkipsExpired(b, d.start, from, cutoff);
    if from >= |b| { return NOTHING; }
    u := b[|b| - 1].cum;
    if from > 0 {
      u := Minus(u, b[from - 1].cum);
    }
    ActiveIsDifference(b, from, cutoff);
  }

  /** Usage `u` at or after second `c`, with `w` more at second `now`. */
  ghost function Added(u: Usage, now: int, c: int, w: Usage): Usage {
    if now >= c then Plus(u, w) else u
  }

  lemma {:induction false} TotalUnchanged(b: seq<Bucket>, b': seq<Bucket>, n: nat)
    requires n <= |b| && n <= |b'| && forall i :: 0 <= i < n ==> b'[i].used == b[i].used
    ensures Total(b', n) == Total(b, n)
  {
    if n > 0 {
      TotalUnchanged(b, b', n - 1);
    }
  }

  lemma {:induction false} ActiveGrownLast(b: seq<Bucket>, x: Bucket, lo: nat, c: int, w: Usage)
    requires lo < |b| && x.time == b[|b| - 1].time && x.used == Plus(b[|b| - 1].used, w)
    ensures ActiveFrom(b[|b| - 1 := x], lo, c) == Added(ActiveFrom(b, lo, c), x.time, c, w)
    decreases |b| - lo
  {
    if lo < |b| - 1 {
      ActiveGrownLast(b, x, lo + 1, c, w);
    }
  }

  lemma {:induction false} ActiveAppended(b: seq<Bucket>, x: Bucket, lo: nat, c: int)
    requires lo <= |b|
    ensures ActiveFrom(b + [x], lo, c) == Added(ActiveFrom(b, lo, c), x.time, c, x.used)
    decreases |b| - lo
  {
    if lo < |b| {
      ActiveAppended(b, x, lo + 1, c);
    }
  }

  lemma {:induction false} GrownLastIsValid(b: seq<Bucket>, x: Bucket, w: Usage)
    requires b != [] && Increasing(b) && RunningSums(b)
    requires x == Bucket(b[|b| - 1].time, Plus(b[|b| - 1].used, w), Plus(b[|b| - 1].cum, w))
    ensures Increasing(b[|b| - 1 := x]) && RunningSums(b[|b| - 1 := x])
  {
    var r := b[|b| - 1 := x];
    forall i | 0 <= i < |r| ensures r[i].cum == Total(r, i + 1) {
      TotalUnchanged(b, r, if i < |b| - 1 then i + 1 else i);
    }
  }

  lemma {:induction false} AppendedIsValid(b: seq<Bucket>, x: Bucket)
    requires Increasing(b) && RunningSums(b) && (b != [] ==> b[|b| - 1].time < x.time)
    requires x.cum == Plus(if b == [] then NOTHING else b[|b| - 1].cum, x.used)
    ensures Increasing(b + [x]) && RunningSums(b + [x])
  {
    var r := b + [x];
    forall i | 0 <= i < |r| ensures r[i].cum == Total(r, i + 1) {
      TotalUnchanged(b, r, if i < |b| then i + 1 else i);
    }
  }

  /** The accounting part of UpdateTokenCount: add `w` at second `now`. */
  method Account(d: UserBuckets, now: int, w: Usage) returns (r: UserBuckets)
    requires ValidBuckets(d) && (d.buckets != [] ==> d.buckets[|d.buckets| - 1].time <= now)
    ensures ValidBuckets(r) && r.buckets != [] && r.buckets[|r.buckets| - 1].time == now
    ensures forall c :: ActiveFrom(r.buckets, r.start, c) == Added(ActiveFrom(d.buckets, d.start, c), now, c, w)
  {
    var b, end := d.buckets, |d.buckets|;
    if end > 0 && b[end - 1].time == now {
      var x := Bucket(now, Plus(b[end - 1].used, w), Plus(b[end - 1].cum, w));
      r := UserBuckets(b[end - 1 := x], d.start);
      GrownLastIsValid(b, x, w);
      forall c ensures ActiveFrom(r.buckets, r.start, c) == Added(ActiveFrom(b, d.start, c), now, c, w) {
        ActiveGrownLast(b, x, d.start, c, w);
      }
    } else {
      var cum := w;
      if end > 0 {
        cum := Plus(cum, b[end - 1].cum);
      }
      var x := Bucket(now, w, cum);
      r := UserBuckets(b + [x], d.start);
      AppendedIsValid(b, x);
      forall c ensures ActiveFrom(r.buckets, r.start, c) == Added(ActiveFrom(b, d.start, c), now, c, w) {
        ActiveAppended(b, x, d.start, c);
      }
    }
  }

  // ----- The tracker -----

  function NonNegative(x: real): real { if x < 0.0 then 0.0 else x }

  type Store = map<string, map<string, UserBuckets>>

  /** The buckets of a user and model; none when nothing was stored. */
  function Lookup(store: Store, user: string, model: string): UserBuckets {
    if user in store && model in store[user] then store[user][model] else UserBuckets([], 0)
  }

  /** Buckets `d` account for exactly what the log holds on this user and model since the window of `clock`. */
  ghost predicate Accounts(d: UserBuckets, log: seq<Update>, user: string, model: string, clock: int, window: int) {
    && ValidBuckets(d)
    && (d.buckets != [] ==> d.buckets[|d.buckets| - 1].time <= Unix(clock))
    && forall c :: c >= Cutoff(clock, window) ==> ActiveFrom(d.buckets, d.start, c) == UsageSince(log, user, model, c)
  }

  lemma {:induction false} UsageAppended(log: seq<Update>, u: Update, user: string, model: string, c: int)
    ensures UsageSince(log + [u], user, model, c) ==
            if u.user == user && u.model == model
            then Added(UsageSince(log, user, model, c), u.time, c, Usage(u.tokens, 1))
            else UsageSince(log, user, model, c)
  {
    assert (log + [u])[..|log|] == log;
  }

  lemma {:induction false} OthersUntouched(d: UserBuckets, log: seq<Update>, u: Update, user: string, model: string, clock: int, now: int, window: int)
    requires Accounts(d, log, user, model, clock, window) && clock <= now
    requires u.user != user || u.model != model
    ensures Accounts(d, log + [u], user, model, now, window)
  {
    forall c {
      UsageAppended(log, u, user, model, c);
    }
  }

  /** Prune, then account: the buckets then account for the log with the update appended. */
  method Record(d: UserBuckets, now: int, tokens: real, window: int, ghost clock: int, ghost log: seq<Update>, ghost user: string, ghost model: string)
    returns (r: UserBuckets)
    requires Accounts(d, log, user, model, clock, window) && clock <= now
    ensures Accounts(r, log + [Update(user, model, Unix(now), tokens)], user, model, now, window)
  {
    r := Prune(d, Cutoff(now, window));
    r := Account(r, Unix(now), Usage(tokens, 1));
    forall c {
      UsageAppended(log, Update(user, model, Unix(now), tokens), user, model, c);
    }
  }

  class InMemoryTracker {
    const window: int
    const inputWeight: real
    const outputWeight: real
    var store: Store
    ghost var log: seq<Update>
    ghost var clock: int

    ghost predicate Valid()
      reads this
    {
      forall user, model :: Accounts(Lookup(store, user, model), log, user, model, clock, window)
    }

    constructor (window: int, inputWeight: real, outputWeight: real, ghost start: int)
      ensures Valid() && log == [] && clock == start
      ensures this.window == window && this.inputWeight == inputWeight && this.outputWeight == outputWeight
    {
      this.window, this.inputWeight, this.outputWeight := window, inputWeight, outputWeight;
      store, log, clock := map[], [], start;
    }

    function Weighed(inputTokens: real, outputTokens: real): real {
      NonNegative(inputTokens) * inputWeight + NonNegative(outputTokens) * outputWeight
    }

    /** Each kind of token has its own weight, and a negative amount counts as none. */
    lemma {:induction false} WeighedIs(inputTokens: real, outputTokens: real)
      ensures inputTokens >= 0.0 && outputTokens >= 0.0 ==>
        Weighed(inputTokens, outputTokens) == inputTokens * inputWeight + outputTokens * outputWeight
      ensures inputTokens <= 0.0 && outputTokens >= 0.0 ==> Weighed(inputTokens, outputTokens) == outputTokens * outputWeight
      ensures inputTokens >= 0.0 && outputTokens <= 0.0 ==> Weighed(inputTokens, outputTokens) == inputTokens * inputWeight
      ensures inputTokens <= 0.0 && outputTokens <= 0.0 ==> Weighed(inputTokens, outputTokens) == 0.0
    {
    }

    /** The weighted tokens of every update ever made that is still in the window; 0 for an empty name. */
    method GetTokenCount(now: int, user: string, model: string) returns (tokens: real)
      requires Valid() && clock <= now
      ensures tokens == if user == "" || model == "" then 0.0 else UsageSince(log, user, model, Cutoff(now, window)).tokens
    {
      if user == "" || model == "" { return 0.0; }
      var u := ActiveUsage(Lookup(store, user, model), Cutoff(now, window));
      tokens := u.tokens;
    }

    /** The number of updates ever made that are still in the window; 0 for an empty name. */
    method GetRequestCount(now: int, user: string, model: string) returns (requests: int)
      requires Valid() && clock <= now
      ensures requests == if user == "" || model == "" then 0 else UsageSince(log, user, model, Cutoff(now, window)).requests
    {
      if user == "" || model == "" { return 0; }
      var u := ActiveUsage(Lookup(store, user, model), Cutoff(now, window));
      requests := u.requests;
    }

    /** An update with an empty name is refused; any other is logged, with negative amounts counted as zero. */
    method UpdateTokenCount(now: int, user: string, model: string, inputTokens: real, outputTokens: real) returns (ok: bool)
      requires Valid() && clock <= now
      modifies this
      ensures Valid()
      ensures ok == (user != "" && model != "")
      ensures !ok ==> unchanged(this)
      ensures ok ==> clock == now && log == old(log) + [Update(user, model, Unix(now), Weighed(inputTokens, outputTokens))]
    {
      if user == "" || model == "" { return false; }
      var tokens := Weighed(inputTokens, outputTokens);
      var d := Record(Lookup(store, user, model), now, tokens, window, clock, log, user, model);
      var models := if user in store then store[user] else map[];
      ghost var u := Update(user, model, Unix(now), tokens);
      forall who, what | who != user || what != model ensures Accounts(Lookup(store, who, what), log + [u], who, what, now, window) {
        OthersUntouched(Lookup(store, who, what), log, u, who, what, clock, now, window);
      }
      var updated := store[user := models[model := d]];
      assert forall who, what ::
          Lookup(updated, who, what) == if who == user && what == model then d else Lookup(store, who, what);
      store := updated;
      log, clock := log + [u], now;
      ok := true;
    }
  }
}
