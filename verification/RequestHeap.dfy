/**
 The order of queued requests and the binary heap kept by it
 (Less, Push, Pop, rebuildHeap and popWhenAvailable of
 pkg/kthena-router/datastore/fairness_queue.go, drainCancelledLocked of
 session_boost_queue.go; heap.Push, heap.Pop and heap.Init are those of Go's
 container/heap).
 */
module RequestHeap {
  import opened Common

  /** Times are instants; a priority is the composite usage score, lower being served first. */
  datatype Request = Request(id: nat, user: string, priority: real, boost: bool, lastTurn: int, arrival: int)

  // ----- The order -----

  predicate Less(sessionBoost: bool, a: Request, b: Request) {
    if sessionBoost then
      if a.boost != b.boost then a.boost
      else if a.boost && a.lastTurn != b.lastTurn then a.lastTurn > b.lastTurn
      else a.arrival < b.arrival
    else if a.user == b.user then a.arrival < b.arrival
    else if a.priority != b.priority then a.priority < b.priority
    else a.arrival < b.arrival
  }

  /** The lexicographic order that Less is meant to be. */
  predicate Precedes(sessionBoost: bool, a: Request, b: Request) {
    if sessionBoost then
      var (ra, rb) := (if a.boost then 0 else 1, if b.boost then 0 else 1);
      var (la, lb) := (if a.boost then -a.lastTurn else 0, if b.boost then -b.lastTurn else 0);
      ra < rb || (ra == rb && (la < lb || (la == lb && a.arrival < b.arrival)))
    else
      a.priority < b.priority || (a.priority == b.priority && a.arrival < b.arrival)
  }

  /**
   Who is served first.  Session boost: a follow-up before any other request, of two follow-ups the one with the more
   recent turn, and otherwise the earlier arrival.  Fairness: the user with the lower score, and otherwise, in
   particular for one user, the earlier arrival.
   */
  lemma {:induction false} ServedFirst(a: Request, b: Request)
    ensures a.boost && !b.boost ==> Less(true, a, b) && !Less(true, b, a)
    ensures a.boost && b.boost && a.lastTurn > b.lastTurn ==> Less(true, a, b) && !Less(true, b, a)
    ensures a.boost == b.boost && (a.boost ==> a.lastTurn == b.lastTurn) ==> (Less(true, a, b) <==> a.arrival < b.arrival)
    ensures a.user != b.user && a.priority < b.priority ==> Less(false, a, b) && !Less(false, b, a)
    ensures a.user == b.user || a.priority == b.priority ==> (Less(false, a, b) <==> a.arrival < b.arrival)
  {
  }

  /** Two requests of one user: the later scored one also arrived later. */
  predicate Agree(a: Request, b: Request) {
    a.user == b.user ==> (a.priority < b.priority ==> a.arrival < b.arrival) && (b.priority < a.priority ==> b.arrival < a.arrival)
  }

  /** Session-boost order needs no hypothesis; fairness order is the lexicographic one exactly on agreeing requests. */
  lemma {:induction false} LessIsPrecedes(sessionBoost: bool, a: Request, b: Request)
    ensures sessionBoost || Agree(a, b) <==>
      && Less(sessionBoost, a, b) == Precedes(sessionBoost, a, b)
      && Less(sessionBoost, b, a) == Precedes(sessionBoost, b, a)
  {
  }

  lemma {:induction false} PrecedesIsStrictWeakOrder(sessionBoost: bool, a: Request, b: Request, c: Request)
    ensures !Precedes(sessionBoost, a, a)
    ensures Precedes(sessionBoost, a, b) && Precedes(sessionBoost, b, c) ==> Precedes(sessionBoost, a, c)
    ensures !Precedes(sessionBoost, a, b) && !Precedes(sessionBoost, b, c) ==> !Precedes(sessionBoost, a, c)
  {
  }

  /** Irreflexivity, transitivity and transitivity of ties on three requests. */
  ghost predicate OrderedTriple(sb: bool, a: Request, b: Request, c: Request) {
    && !Less(sb, a, a)
    && (Less(sb, a, b) && Less(sb, b, c) ==> Less(sb, a, c))
    && (!Less(sb, a, b) && !Less(sb, b, c) ==> !Less(sb, a, c))
  }

  /** Less is a strict weak order on the requests of `s`, which is what a heap needs. */
  ghost predicate IsOrderOn(sb: bool, s: seq<Request>) {
    forall a, b, c {:trigger OrderedTriple(sb, a, b, c)} :: a in s && b in s && c in s ==> OrderedTriple(sb, a, b, c)
  }

  /** Two requests of one user disagree, and another user's request ranks between them. */
  ghost predicate Straddles(a: Request, b: Request, m: Request) {
    && a.user == b.user && a.priority < b.priority && a.arrival >= b.arrival
    && m.user != a.user && !Precedes(false, m, a) && !Precedes(false, b, m)
  }

  ghost predicate IsStraddled(s: seq<Request>) {
    exists a, b, m :: a in s && b in s && m in s && Straddles(a, b, m)
  }

  /** Session boost orders any requests. */
  lemma {:induction false} SessionBoostIsAnOrder(s: seq<Request>)
    ensures IsOrderOn(true, s)
  {
  }

  lemma {:induction false} StraddleBreaksOrder(a: Request, b: Request, m: Request)
    requires Straddles(a, b, m)
    ensures !OrderedTriple(false, a, b, m) || !OrderedTriple(false, m, a, b)
  {
  }

  lemma {:induction false} OrderBreaksAtStraddle(a: Request, b: Request, c: Request)
    requires !OrderedTriple(false, a, b, c)
    ensures || Straddles(a, b, c) || Straddles(b, a, c) || Straddles(a, c, b)
            || Straddles(c, a, b) || Straddles(b, c, a) || Straddles(c, b, a)
  {
  }

  /** The fairness comparator is an order exactly on the queues where no disagreeing pair has another user's request between it. */
  lemma {:induction false} FairnessIsAnOrderIff(s: seq<Request>)
    ensures IsOrderOn(false, s) <==> !IsStraddled(s)
  {
    if IsStraddled(s) {
      var a, b, m :| a in s && b in s && m in s && Straddles(a, b, m);
      StraddleBreaksOrder(a, b, m);
    } else {
      forall a, b, c | a in s && b in s && c in s ensures OrderedTriple(false, a, b, c) {
        if !OrderedTriple(false, a, b, c) {
          OrderBreaksAtStraddle(a, b, c);
        }
      }
    }
  }

  /** Equal scores for each user, as a rebuild sets them, are one way to be an order. */
  lemma {:induction false} AgreementIsAnOrder(s: seq<Request>)
    requires forall i, j :: 0 <= i < |s| && 0 <= j < |s| ==> Agree(s[i], s[j])
    ensures IsOrderOn(false, s)
  {
    FairnessIsAnOrderIff(s);
  }

  /** Where two requests of one user disagree, any third request scored between them breaks transitivity. */
  lemma {:induction false} DisagreementBreaksFairnessOrder(a: Request, b: Request, m: Request)
    requires a.user == b.user && a.priority < b.priority && a.arrival >= b.arrival
    requires m.user != a.user && a.priority < m.priority < b.priority
    ensures Straddles(a, b, m)
    ensures Less(false, a, m) && Less(false, m, b) && !Less(false, a, b)
    ensures a.arrival > b.arrival ==> Less(false, b, a)
  {
  }

  // ----- Heap shape -----

  function Parent(i: int): int { (i - 1) / 2 }

  /** The element at `i` is not less than its parent. */
  ghost predicate Edge(sb: bool, h: seq<Request>, i: int)
    requires 0 < i < |h|
  {
    !Less(sb, h[i], h[Parent(i)])
  }

  /** The element at `k` is not less than its grandparent. */
  ghost predicate SkipEdge(sb: bool, h: seq<Request>, k: int)
    requires 0 < k < |h|
  {
    Parent(k) > 0 ==> !Less(sb, h[k], h[Parent(Parent(k))])
  }

  /** Below `lo` and up to `n` the heap condition holds, except perhaps between `hole` and its children. */
  ghost predicate HeapBelow(sb: bool, h: seq<Request>, lo: int, n: int, hole: int) {
    && n <= |h|
    && (forall k :: 0 < k < n && lo <= Parent(k) && Parent(k) != hole ==> Edge(sb, h, k))
    && (forall k :: 0 < k < n && Parent(k) == hole && 0 < hole && lo <= Parent(hole) ==> SkipEdge(sb, h, k))
  }

  ghost predicate IsHeap(sb: bool, h: seq<Request>) {
    forall k :: 0 < k < |h| ==> Edge(sb, h, k)
  }

  lemma {:induction false} RootPrecedesAll(sb: bool, h: seq<Request>, k: int)
    requires IsHeap(sb, h) && IsOrderOn(sb, h) && 0 <= k < |h|
    ensures !Less(sb, h[k], h[0])
    decreases k
  {
    if k > 0 {
      assert Edge(sb, h, k);
      RootPrecedesAll(sb, h, Parent(k));
      assert OrderedTriple(sb, h[k], h[Parent(k)], h[0]);
    }
  }

  function Swapped(h: seq<Request>, i: int, j: int): (r: seq<Request>)
    requires 0 <= i < |h| && 0 <= j < |h|
    ensures |r| == |h| && multiset(r) == multiset(h)
  {
    h[i := h[j]][j := h[i]]
  }

  lemma {:induction false} OrderOnPermuted(sb: bool, a: seq<Request>, b: seq<Request>)
    requires multiset(a) == multiset(b) && IsOrderOn(sb, a)
    ensures IsOrderOn(sb, b)
  {
    forall x | x in b ensures x in a { assert x in multiset(b) && x in multiset(a); }
  }

  // ----- Sifting -----

  lemma {:induction false} SiftUpStep(sb: bool, h: seq<Request>, j: int)
    requires 0 < j < |h| && IsOrderOn(sb, h) && Less(sb, h[j], h[Parent(j)])
    requires forall k :: 0 < k < |h| && k != j ==> Edge(sb, h, k)
    requires forall k :: 0 < k < |h| && Parent(k) == j ==> SkipEdge(sb, h, k)
    ensures var r := Swapped(h, Parent(j), j);
      && (forall k :: 0 < k < |h| && k != Parent(j) ==> Edge(sb, r, k))
      && (forall k :: 0 < k < |h| && Parent(k) == Parent(j) ==> SkipEdge(sb, r, k))
  {
    var i, r := Parent(j), Swapped(h, Parent(j), j);
    forall k | 0 < k < |h| && k != i ensures Edge(sb, r, k) {
      if Parent(k) == j {
        assert SkipEdge(sb, h, k);
      } else if k != j {
        assert Edge(sb, h, k);
        if Parent(k) == i { assert OrderedTriple(sb, h[k], h[i], h[j]); }
      }
    }
    forall k | 0 < k < |h| && Parent(k) == i ensures SkipEdge(sb, r, k) {
      if i > 0 {
        assert Edge(sb, h, i);
        if k != j { assert Edge(sb, h, k) && OrderedTriple(sb, h[k], h[i], h[Parent(i)]); }
      }
    }
  }

  /** container/heap `up`. */
  method Up(sb: bool, h0: seq<Request>, j0: int) returns (h: seq<Request>)
    requires 0 <= j0 < |h0|
    ensures |h| == |h0| && multiset(h) == multiset(h0)
    ensures IsOrderOn(sb, h0) && j0 == |h0| - 1 && (forall k :: 0 < k < j0 ==> Edge(sb, h0, k)) ==> IsHeap(sb, h)
  {
    h := h0;
    var j := j0;
    ghost var good := IsOrderOn(sb, h0) && j0 == |h0| - 1 && (forall k :: 0 < k < j0 ==> Edge(sb, h0, k));
    while true
      invariant 0 <= j < |h| == |h0| && multiset(h) == multiset(h0)
      invariant good ==> (forall k :: 0 < k < |h| && k != j ==> Edge(sb, h, k))
      invariant good ==> (forall k :: 0 < k < |h| && Parent(k) == j ==> SkipEdge(sb, h, k))
      decreases j
    {
      if good { OrderOnPermuted(sb, h0, h); }
      if j == 0 { break; }
      var i := Parent(j);
      if !Less(sb, h[j], h[i]) { break; }
      if good { SiftUpStep(sb, h, j); }
      h, j := Swapped(h, i, j), i;
    }
  }

  lemma {:induction false} SiftDownStep(sb: bool, h: seq<Request>, lo: int, n: int, i: int, j: int)
    requires 0 <= lo <= i && 0 < j < n && Parent(j) == i && HeapBelow(sb, h, lo, n, i)
    requires Less(sb, h[j], h[i])
    requires forall k :: 0 < k < n && Parent(k) == i ==> !Less(sb, h[k], h[j])
    ensures HeapBelow(sb, Swapped(h, i, j), lo, n, j)
  {
    var r := Swapped(h, i, j);
    forall k | 0 < k < n && lo <= Parent(k) && Parent(k) != j ensures Edge(sb, r, k) {
      if k == i {
        assert SkipEdge(sb, h, j);
      } else if Parent(k) != i {
        assert Edge(sb, h, k);
      }
    }
    forall k | 0 < k < n && Parent(k) == j ensures SkipEdge(sb, r, k) {
      assert Edge(sb, h, k);
    }
  }

  method SmallerChild(sb: bool, h: seq<Request>, i: int, n: int) returns (j: int)
    requires 0 <= i && 2 * i + 1 < n <= |h|
    ensures i < j < n && Parent(j) == i
    ensures forall k :: 0 < k < n && Parent(k) == i ==> !Less(sb, h[k], h[j])
  {
    j := 2 * i + 1;
    assert forall k :: 0 < k && Parent(k) == i ==> k == 2 * i + 1 || k == 2 * i + 2;
    if j + 1 < n {
      if Less(sb, h[j + 1], h[j]) { j := j + 1; }
    }
  }

  lemma {:induction false} SiftDownStop(sb: bool, h: seq<Request>, lo: int, n: int, i: int, j: int)
    requires 0 <= lo <= i && 0 < j < n && Parent(j) == i && HeapBelow(sb, h, lo, n, i) && IsOrderOn(sb, h)
    requires !Less(sb, h[j], h[i])
    requires forall k :: 0 < k < n && Parent(k) == i ==> !Less(sb, h[k], h[j])
    ensures HeapBelow(sb, h, lo, n, n)
  {
    forall k | 0 < k < n && lo <= Parent(k) ensures Edge(sb, h, k) {
      if Parent(k) == i { assert OrderedTriple(sb, h[k], h[j], h[i]); }
    }
  }

  /** container/heap `down`: element `i0` sinks below `n` until the heap condition holds from `i0` on. */
  method Down(sb: bool, h0: seq<Request>, i0: int, n: int) returns (h: seq<Request>)
    requires 0 <= i0 && 0 <= n <= |h0|
    ensures |h| == |h0| && multiset(h) == multiset(h0) && (forall k :: n <= k < |h| ==> h[k] == h0[k])
    ensures IsOrderOn(sb, h0) && HeapBelow(sb, h0, i0, n, i0) ==> HeapBelow(sb, h, i0, n, n)
  {
    h := h0;
    var i := i0;
    ghost var good := IsOrderOn(sb, h0) && HeapBelow(sb, h0, i0, n, i0);
    while true
      invariant i0 <= i && |h| == |h0| && multiset(h) == multiset(h0) && (forall k :: n <= k < |h| ==> h[k] == h0[k])
      invariant good ==> HeapBelow(sb, h, i0, n, i)
      decreases n - i
    {
      if good { OrderOnPermuted(sb, h0, h); }
      if 2 * i + 1 >= n { break; }
      var j := SmallerChild(sb, h, i, n);
      if !Less(sb, h[j], h[i]) {
        if good { SiftDownStop(sb, h, i0, n, i, j); }
        return;
      }
      if good { SiftDownStep(sb, h, i0, n, i, j); }
      h, i := Swapped(h, i, j), j;
    }
  }

  /** container/heap `Init`. */
  method Heapify(sb: bool, h0: seq<Request>) returns (h: seq<Request>)
    ensures |h| == |h0| && multiset(h) == multiset(h0)
    ensures IsOrderOn(sb, h0) ==> IsHeap(sb, h)
  {
    h := h0;
    var n := |h0|;
    var i := n / 2;
    while i > 0
      invariant 0 <= i <= n / 2 && |h| == n && multiset(h) == multiset(h0)
      invariant IsOrderOn(sb, h0) ==> HeapBelow(sb, h, i, n, n)
    {
      i := i - 1;
      if IsOrderOn(sb, h0) { OrderOnPermuted(sb, h0, h); }
      h := Down(sb, h, i, n);
    }
  }

  // ----- Filtering and refreshing -----

  function Kept(h: seq<Request>, cancelled: set<nat>): seq<Request> {
    if h == [] then [] else
      Kept(h[..|h| - 1], cancelled) + if h[|h| - 1].id in cancelled then [] else [h[|h| - 1]]
  }

  lemma {:induction false} KeptIs(h: seq<Request>, cancelled: set<nat>)
    ensures |Kept(h, cancelled)| <= |h|
    ensures |Kept(h, cancelled)| == |h| <==> Kept(h, cancelled) == h
    ensures forall r :: multiset(Kept(h, cancelled))[r] == if r.id in cancelled then 0 else multiset(h)[r]
  {
    if h != [] {
      KeptIs(h[..|h| - 1], cancelled);
      assert h == h[..|h| - 1] + [h[|h| - 1]];
    }
  }

  lemma {:induction false} OrderOnPart(sb: bool, h: seq<Request>, part: seq<Request>)
    requires IsOrderOn(sb, h) && forall r :: r in part ==> r in h
    ensures IsOrderOn(sb, part)
  {
  }

  lemma {:induction false} KeptIsOrdered(sb: bool, h: seq<Request>, cancelled: set<nat>)
    requires IsOrderOn(sb, h)
    ensures IsOrderOn(sb, Kept(h, cancelled))
  {
    var kept := Kept(h, cancelled);
    KeptIs(h, cancelled);
    forall r | r in kept ensures r in h { assert multiset(kept)[r] > 0; }
    OrderOnPart(sb, h, kept);
  }

  /** The current score of each user; a user without one could not be scored. */
  type Scores = map<string, real>

  function Refreshed(r: Request, scores: Scores): Request {
    if r.user in scores then r.(priority := scores[r.user]) else r
  }

  function RefreshedAll(h: seq<Request>, scores: Scores): (f: seq<Request>)
    ensures |f| == |h| && forall i :: 0 <= i < |h| ==> f[i] == Refreshed(h[i], scores)
  {
    if h == [] then [] else RefreshedAll(h[..|h| - 1], scores) + [Refreshed(h[|h| - 1], scores)]
  }

  lemma {:induction false} RefreshedIsOrdered(sb: bool, h: seq<Request>, scores: Scores)
    ensures sb || (forall i :: 0 <= i < |h| ==> h[i].user in scores) ==> IsOrderOn(sb, RefreshedAll(h, scores))
  {
    if !sb && forall i :: 0 <= i < |h| ==> h[i].user in scores {
      AgreementIsAnOrder(RefreshedAll(h, scores));
    }
  }

  // ----- Counting what a dequeue may still have to refresh -----

  predicate IsStale(r: Request, scores: Scores) {
    r.user in scores && r.priority != scores[r.user]
  }

  ghost function StaleCount(h: seq<Request>, scores: Scores): nat {
    if h == [] then 0 else StaleCount(h[..|h| - 1], scores) + if IsStale(h[|h| - 1], scores) then 1 else 0
  }

  /** A request without its score. */
  ghost function Bare(r: Request): Request { r.(priority := 0.0) }

  ghost function BareAll(h: seq<Request>): (b: seq<Request>)
    ensures |b| == |h|
  {
    seq(|h|, i requires 0 <= i < |h| => Bare(h[i]))
  }

  lemma {:induction false} CountsOfConcatenation(x: seq<Request>, y: seq<Request>, scores: Scores)
    ensures StaleCount(x + y, scores) == StaleCount(x, scores) + StaleCount(y, scores)
    ensures BareAll(x + y) == BareAll(x) + BareAll(y)
    decreases |y|
  {
    if y == [] {
      assert x + y == x;
    } else {
      CountsOfConcatenation(x, y[..|y| - 1], scores);
      assert (x + y)[..|x + y| - 1] == x + y[..|y| - 1];
    }
  }

  /** Taking one occurrence of `r` out of `b`. */
  lemma {:induction false} CountsOfRemoval(b: seq<Request>, r: Request, scores: Scores) returns (rest: seq<Request>)
    requires r in multiset(b)
    ensures |rest| == |b| - 1 && multiset(rest) == multiset(b) - multiset{r}
    ensures StaleCount(b, scores) == StaleCount(rest, scores) + (if IsStale(r, scores) then 1 else 0)
    ensures multiset(BareAll(b)) == multiset(BareAll(rest)) + multiset{Bare(r)}
  {
    var k :| 0 <= k < |b| && b[k] == r;
    var x, y := b[..k], b[k + 1..];
    assert b == (x + [r]) + y;
    CountsOfConcatenation(x + [r], y, scores);
    CountsOfConcatenation(x, [r], scores);
    CountsOfConcatenation(x, y, scores);
    assert BareAll([r]) == [Bare(r)];
    rest := x + y;
  }

  /** Both counts depend only on which requests are queued. */
  lemma {:induction false} CountsOfPermutation(a: seq<Request>, b: seq<Request>, scores: Scores)
    requires multiset(a) == multiset(b)
    ensures StaleCount(a, scores) == StaleCount(b, scores)
    ensures multiset(BareAll(a)) == multiset(BareAll(b))
    decreases |a|
  {
    if a == [] {
      assert |multiset(b)| == 0 && b == [];
    } else {
      var r := a[0];
      assert r in multiset(a);
      var a' := CountsOfRemoval(a, r, scores);
      var b' := CountsOfRemoval(b, r, scores);
      CountsOfPermutation(a', b', scores);
    }
  }

  lemma {:induction false} CountsOfPush(h: seq<Request>, r: Request, grown: seq<Request>, scores: Scores)
    requires multiset(grown) == multiset(h) + multiset{r}
    ensures StaleCount(grown, scores) == StaleCount(h, scores) + if IsStale(r, scores) then 1 else 0
    ensures multiset(BareAll(grown)) == multiset(BareAll(h)) + multiset{Bare(r)} && |grown| == |h| + 1
  {
    assert multiset(h + [r]) == multiset(grown);
    assert |grown| == |multiset(grown)|;
    CountsOfPermutation(h + [r], grown, scores);
    CountsOfConcatenation(h, [r], scores);
    assert BareAll([r]) == [Bare(r)];
  }

  lemma {:induction false} CountsOfRefresh(h: seq<Request>, scores: Scores)
    ensures StaleCount(RefreshedAll(h, scores), scores) == 0
  {
    if h != [] {
      CountsOfRefresh(h[..|h| - 1], scores);
      assert RefreshedAll(h, scores)[..|h| - 1] == RefreshedAll(h[..|h| - 1], scores);
    }
  }

  lemma {:induction false} RefreshKeepsRequests(h: seq<Request>, scores: Scores)
    ensures BareAll(RefreshedAll(h, scores)) == BareAll(h)
    ensures forall i :: 0 <= i < |h| && h[i].user !in scores ==> RefreshedAll(h, scores)[i] == h[i]
  {
  }

  // ----- What becomes of the queued requests, scores aside -----

  ghost function Contents(h: seq<Request>): multiset<Request> { multiset(BareAll(h)) }

  /** `rest` and `dropped` together are `start`. */
  ghost predicate Accounted(start: seq<Request>, rest: seq<Request>, dropped: seq<Request>) {
    Contents(start) == Contents(rest) + Contents(dropped)
  }

  /** `rest`, `dropped` and the one request `b` together are `start`. */
  ghost predicate HandedOut(start: seq<Request>, rest: seq<Request>, dropped: seq<Request>, b: Request) {
    Contents(start) == Contents(rest) + Contents(dropped) + multiset{b}
  }

  lemma {:induction false} AccountedAtFirst(start: seq<Request>)
    ensures Accounted(start, start, [])
  {
    assert BareAll([]) == [];
  }

  lemma {:induction false} AccountedPop(start: seq<Request>, h0: seq<Request>, h1: seq<Request>, dropped: seq<Request>, r: Request, scores: Scores)
    requires Accounted(start, h0, dropped) && multiset(h0) == multiset(h1) + multiset{r}
    ensures HandedOut(start, h1, dropped, Bare(r)) && Accounted(start, h1, dropped + [r])
    ensures |h0| == |h1| + 1 && StaleCount(h0, scores) == StaleCount(h1, scores) + if IsStale(r, scores) then 1 else 0
  {
    CountsOfPush(h1, r, h0, scores);
    CountsOfPush(dropped, r, dropped + [r], scores);
  }

  lemma {:induction false} AccountedBack(start: seq<Request>, h1: seq<Request>, h2: seq<Request>, dropped: seq<Request>, b: Request)
    requires HandedOut(start, h1, dropped, b) && Contents(h2) == Contents(h1) + multiset{b}
    ensures Accounted(start, h2, dropped)
  {
  }

  /** `popped` is what `last` has more than `rest`, and if `last` was a heap nothing in it was less. */
  ghost predicate WasFirst(sb: bool, last: seq<Request>, rest: seq<Request>, popped: Request) {
    && multiset(last) == multiset(rest) + multiset{popped}
    && (IsHeap(sb, last) && IsOrderOn(sb, last) ==> forall x :: x in multiset(last) ==> !Less(sb, x, popped))
  }

  /** `r` was first in `last`, as it is or with the score it had, and a new score does not exceed that of the head of `rest`. */
  ghost predicate TakenFrom(sb: bool, last: seq<Request>, rest: seq<Request>, r: Request) {
    || WasFirst(sb, last, rest, r)
    || ((rest != [] ==> r.priority <= rest[0].priority) && exists score :: WasFirst(sb, last, rest, r.(priority := score)))
  }

  /** What is left of `start` is a heap that still holds every request that is not cancelled. */
  ghost predicate OrderedRest(sb: bool, start: seq<Request>, rest: seq<Request>, cancelled: set<nat>) {
    IsHeap(sb, rest) && IsOrderOn(sb, rest) && forall x :: x in multiset(start) && x.id !in cancelled ==> x in multiset(rest)
  }

  lemma {:induction false} PoppedIsOrdered(sb: bool, h0: seq<Request>, h1: seq<Request>, r: Request)
    requires multiset(h0) == multiset(h1) + multiset{r} && IsOrderOn(sb, h0)
    ensures IsOrderOn(sb, h1)
  {
    forall x | x in h1 ensures x in h0 { assert x in multiset(h1) && x in multiset(h0); }
    OrderOnPart(sb, h0, h1);
  }

  lemma {:induction false} PoppedKeepsHeap(sb: bool, h: seq<Request>, swapped: seq<Request>, sunk: seq<Request>, n: int)
    requires 0 <= n == |h| - 1 && IsHeap(sb, h) && IsOrderOn(sb, h)
    requires swapped == Swapped(h, 0, n) && |sunk| == |h| && sunk[n] == swapped[n]
    requires HeapBelow(sb, swapped, 0, n, 0) ==> HeapBelow(sb, sunk, 0, n, n)
    ensures IsHeap(sb, sunk[..n])
    ensures forall x :: x in multiset(h) ==> !Less(sb, x, sunk[n])
  {
    forall k | 0 < k < n && Parent(k) != 0 ensures Edge(sb, swapped, k) {
      assert Edge(sb, h, k);
    }
    forall k | 0 < k < n ensures Edge(sb, sunk[..n], k) {
      assert Edge(sb, sunk, k);
    }
    forall x | x in multiset(h) ensures !Less(sb, x, sunk[n]) {
      var k :| 0 <= k < |h| && h[k] == x;
      RootPrecedesAll(sb, h, k);
    }
  }

  /** Popping the head of such a rest: a cancelled head leaves one again, any other is a first request of all. */
  lemma {:induction false} OrderedRestPopped(sb: bool, start: seq<Request>, h0: seq<Request>, h1: seq<Request>, r: Request, cancelled: set<nat>)
    requires OrderedRest(sb, start, h0, cancelled) && multiset(h0) == multiset(h1) + multiset{r}
    requires IsHeap(sb, h1) && forall x :: x in multiset(h0) ==> !Less(sb, x, r)
    ensures r.id in cancelled ==> OrderedRest(sb, start, h1, cancelled)
    ensures forall x :: x in multiset(start) && x.id !in cancelled ==> !Less(sb, x, r)
  {
    PoppedIsOrdered(sb, h0, h1, r);
  }

  // ----- The queue's heap -----

  class RequestQueue {
    const sessionBoost: bool
    var heap: seq<Request>

    constructor (sessionBoost: bool)
      ensures heap == [] && this.sessionBoost == sessionBoost
    {
      this.sessionBoost, heap := sessionBoost, [];
    }

    method Push(r: Request)
      modifies this
      ensures multiset(heap) == multiset(old(heap)) + multiset{r}
      ensures old(IsHeap(sessionBoost, heap)) && IsOrderOn(sessionBoost, old(heap) + [r]) ==> IsHeap(sessionBoost, heap)
    {
      var grown := heap + [r];
      if IsHeap(sessionBoost, heap) {
        forall k | 0 < k < |heap| ensures Edge(sessionBoost, grown, k) {
          assert Edge(sessionBoost, heap, k);
        }
      }
      heap := Up(sessionBoost, grown, |heap|);
    }

    /** What is popped precedes or ties with everything that was queued. */
    method Pop() returns (r: Request)
      requires heap != []
      modifies this
      ensures multiset(old(heap)) == multiset(heap) + multiset{r} && |heap| == |old(heap)| - 1
      ensures old(IsHeap(sessionBoost, heap)) && IsOrderOn(sessionBoost, old(heap)) ==>
        && IsHeap(sessionBoost, heap)
        && forall x :: x in multiset(old(heap)) ==> !Less(sessionBoost, x, r)
    {
      var h0, n := heap, |heap| - 1;
      var swapped := Swapped(heap, 0, n);
      var sunk := Down(sessionBoost, swapped, 0, n);
      r := sunk[n];
      heap := sunk[..n];
      assert sunk == heap + [r];
      if IsHeap(sessionBoost, h0) && IsOrderOn(sessionBoost, h0) {
        PoppedKeepsHeap(sessionBoost, h0, swapped, sunk, n);
      }
    }

    /** drainCancelledLocked: exactly the cancelled requests leave, from anywhere in the heap. */
    method DrainCancelled(cancelled: set<nat>) returns (drained: int)
      modifies this
      ensures forall r :: multiset(heap)[r] == if r.id in cancelled then 0 else multiset(old(heap))[r]
      ensures drained == |old(heap)| - |heap|
      ensures old(IsHeap(sessionBoost, heap)) && IsOrderOn(sessionBoost, old(heap)) ==> IsHeap(sessionBoost, heap)
    {
      var kept := [];
      for i := 0 to |heap|
        invariant heap == old(heap) && kept == Kept(heap[..i], cancelled)
      {
        assert heap[..i + 1][..i] == heap[..i];
        if heap[i].id !in cancelled { kept := kept + [heap[i]]; }
      }
      assert heap[..|heap|] == heap;
      KeptIs(heap, cancelled);
      drained := |heap| - |kept|;
      if drained == 0 { return; }
      if IsOrderOn(sessionBoost, heap) { KeptIsOrdered(sessionBoost, heap, cancelled); }
      heap := Heapify(sessionBoost, kept);
    }

    /** rebuildHeap: whatever the scores were before, a rebuild with a score for every user yields a heap. */
    method Rebuild(scores: Scores)
      modifies this
      ensures multiset(heap) == multiset(RefreshedAll(old(heap), scores)) && |heap| == |old(heap)|
      ensures sessionBoost || (forall i :: 0 <= i < |old(heap)| ==> old(heap)[i].user in scores) ==> IsHeap(sessionBoost, heap)
    {
      var refreshed := [];
      for i := 0 to |heap|
        invariant heap == old(heap) && refreshed == RefreshedAll(heap[..i], scores)
      {
        assert heap[..i + 1][..i] == heap[..i];
        refreshed := refreshed + [Refreshed(heap[i], scores)];
      }
      assert heap[..|heap|] == heap;
      RefreshedIsOrdered(sessionBoost, heap, scores);
      heap := Heapify(sessionBoost, refreshed);
    }

    /** A freshly scored request goes back into the heap; nothing becomes stale by it. */
    method Reinsert(req: Request, scores: Scores, rebuild: bool)
      requires !IsStale(req, scores)
      modifies this
      ensures |heap| == |old(heap)| + 1 && StaleCount(heap, scores) <= StaleCount(old(heap), scores)
      ensures Contents(heap) == Contents(old(heap)) + multiset{Bare(req)}
    {
      Push(req);
      CountsOfPush(old(heap), req, heap, scores);
      if rebuild {
        ghost var h := heap;
        Rebuild(scores);
        CountsOfRefresh(h, scores);
        RefreshKeepsRequests(h, scores);
        CountsOfPermutation(RefreshedAll(h, scores), heap, scores);
      }
    }

    /**
     popWhenAvailable with the scores frozen and no concurrent pushes.  Every retry lowers the heap length plus
     the number of stale scores, so the refresh loop ends; only cancelled requests are dropped; and with refresh
     enabled what is handed out carries its current score.  It was a first request of `last`, the queue it was taken
     from, and a refreshed score does not exceed that of the new head.  None stands for waiting on an empty heap.
     */
    method PopWhenAvailable(cancelled: set<nat>, tracker: Option<Scores>, maxRetries: int, threshold: int)
      returns (r: Option<Request>, ghost dropped: seq<Request>, ghost last: seq<Request>)
      modifies this
      ensures r.None? ==> heap == [] && Accounted(old(heap), heap, dropped)
      ensures forall i :: 0 <= i < |dropped| ==> dropped[i].id in cancelled
      ensures r.Some? ==> HandedOut(old(heap), heap, dropped, Bare(r.value)) && r.value.id !in cancelled
      ensures r.Some? && tracker.Some? && maxRetries > 0 ==> !IsStale(r.value, tracker.value)
      ensures r.Some? ==> TakenFrom(sessionBoost, last, heap, r.value)
      ensures (tracker.None? || maxRetries <= 0) && old(IsHeap(sessionBoost, heap)) && IsOrderOn(sessionBoost, old(heap)) && r.Some? ==>
        forall x :: x in multiset(old(heap)) && x.id !in cancelled ==> !Less(sessionBoost, x, r.value)
    {
      var refreshRetries := 0;
      dropped, last := [], [];
      var scores := if tracker.Some? then tracker.value else map[];
      ghost var plain := (tracker.None? || maxRetries <= 0) && IsHeap(sessionBoost, heap) && IsOrderOn(sessionBoost, heap);
      AccountedAtFirst(heap);
      while |heap| > 0
        invariant forall i :: 0 <= i < |dropped| ==> dropped[i].id in cancelled
        invariant Accounted(old(heap), heap, dropped)
        invariant plain ==> OrderedRest(sessionBoost, old(heap), heap, cancelled)
        decreases |heap| + StaleCount(heap, scores)
      {
        last := heap;
        var req := Pop();
        AccountedPop(old(heap), last, heap, dropped, req, scores);
        if plain { OrderedRestPopped(sessionBoost, old(heap), last, heap, req, cancelled); }
        if req.id in cancelled {
          dropped := dropped + [req];
          continue;
        }
        if tracker.Some? && maxRetries > 0 {
          if req.user in scores && scores[req.user] != req.priority {
            ghost var popped, rest := req, heap;
            req := req.(priority := scores[req.user]);
            if |heap| > 0 && req.priority > heap[0].priority {
              refreshRetries := refreshRetries + 1;
              var rebuild := false;
              if refreshRetries >= maxRetries {
                rebuild := threshold <= 0 || |heap| + 1 <= threshold;
                refreshRetries := 0;
              }
              Reinsert(req, scores, rebuild);
              AccountedBack(old(heap), rest, heap, dropped, Bare(req));
              continue;
            }
            assert WasFirst(sessionBoost, last, heap, popped);
          }
        }
        return Some(req), dropped, last;
      }
      r := None;
    }
  }
}
