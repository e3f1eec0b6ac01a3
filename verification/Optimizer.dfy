/**
 Allocation of a total replica count over heterogeneous backends
 (pkg/autoscaler/autoscaler/optimizer.go).

 The capacity between each backend's bounds is split into blocks, the blocks are sorted by cost, and a total is
 handed out block by block.  `Blocks` specifies the construction and `Filled` the hand-out; the theorems are about
 every order that is a sorted permutation of the blocks, which is all that sort.Slice promises.
 */
module Optimizer {
  import opened Common
  import opened Sums

  /** One backend; `key` is its namespace-qualified target. */
  datatype Param = Param(key: string, min: int, max: int, cost: int)

  datatype Block = Block(key: string, index: nat, replicas: int, cost: int)

  datatype Meta = Meta(params: seq<Param>, min: int, max: int, order: seq<Block>)

  /** The expansion rate at which every backend is one block, priced per replica. */
  const FLAT_RATE := 100

  // ----- Measures summed over blocks and backends -----

  ghost function KeySum(key: string): Block -> int { (b: Block) => if b.key == key then b.replicas else 0 }

  ghost function Size(): Block -> int { (b: Block) => b.replicas }

  ghost function MinOf(): Param -> int { (p: Param) => p.min }

  ghost function MaxOf(): Param -> int { (p: Param) => p.max }

  function Room(p: Param): int { Max(p.max - p.min, 0) }

  ghost function RoomOf(): Param -> int { (p: Param) => Room(p) }

  ghost function KeyRoom(key: string): Param -> int { (p: Param) => if p.key == key then Room(p) else 0 }

  // ----- Splitting a backend's capacity into blocks -----

  /** int32(package) clamped to 1..left; converting a float above the int32 range yields `overflow`, which Go leaves open. */
  function PackageLen(package: real, left: int, overflow: int): int
    requires left > 0
  {
    Min(left, Max(if package < 2147483648.0 then package.Floor else overflow, 1))
  }

  function Packages(p: Param, index: nat, left: int, package: real, rate: int, overflow: int): seq<Block>
    decreases left
  {
    if left <= 0 then [] else
      var len := PackageLen(package, left, overflow);
      [Block(p.key, index, len, p.cost * len)] + Packages(p, index, left - len, package * rate as real / 100.0, rate, overflow)
  }

  function BlocksOf(p: Param, index: nat, rate: int, overflow: int): seq<Block> {
    if p.max <= p.min then []
    else if rate == FLAT_RATE then [Block(p.key, index, p.max - p.min, p.cost)]
    else Packages(p, index, p.max - p.min, 1.0, rate, overflow)
  }

  function Blocks(params: seq<Param>, rate: int, overflow: int): seq<Block> {
    if params == [] then [] else
      var last := |params| - 1;
      Blocks(params[..last], rate, overflow) + BlocksOf(params[last], last, rate, overflow)
  }

  /** Block `b` is a nonempty part of backend `p`. */
  ghost predicate PartOf(b: Block, p: Param, rate: int) {
    b.key == p.key && b.replicas >= 1 && b.cost == if rate == FLAT_RATE then p.cost else p.cost * b.replicas
  }

  ghost predicate FromParams(order: seq<Block>, params: seq<Param>, rate: int) {
    forall b :: b in order ==> exists p :: p in params && PartOf(b, p, rate)
  }

  lemma {:induction false} PackagesFill(p: Param, index: nat, left: int, package: real, rate: int, overflow: int, key: string)
    requires left >= 0 && rate != FLAT_RATE
    ensures var s := Packages(p, index, left, package, rate, overflow);
      && (forall b :: b in s ==> PartOf(b, p, rate))
      && SumOf(s, KeySum(key)) == (if p.key == key then left else 0)
      && SumOf(s, Size()) == left
    decreases left
  {
    if left > 0 {
      var len := PackageLen(package, left, overflow);
      PackagesFill(p, index, left - len, package * rate as real / 100.0, rate, overflow, key);
    }
  }

  lemma {:induction false} BlocksOfFill(p: Param, index: nat, rate: int, overflow: int, key: string)
    ensures var s := BlocksOf(p, index, rate, overflow);
      && (forall b :: b in s ==> PartOf(b, p, rate))
      && SumOf(s, KeySum(key)) == KeyRoom(key)(p)
      && SumOf(s, Size()) == Room(p)
  {
    if p.max > p.min && rate != FLAT_RATE {
      PackagesFill(p, index, p.max - p.min, 1.0, rate, overflow, key);
    }
  }

  /** The blocks under a key make up exactly the capacity of the backends with that key, at every rate. */
  lemma {:induction false} BlocksFill(params: seq<Param>, rate: int, overflow: int, key: string)
    ensures SumOf(Blocks(params, rate, overflow), KeySum(key)) == SumOf(params, KeyRoom(key))
    ensures SumOf(Blocks(params, rate, overflow), Size()) == SumOf(params, RoomOf())
    ensures FromParams(Blocks(params, rate, overflow), params, rate)
  {
    if params != [] {
      var last := |params| - 1;
      var init := params[..last];
      BlocksFill(init, rate, overflow, key);
      BlocksOfFill(params[last], last, rate, overflow, key);
      SumOfConcatenation(Blocks(init, rate, overflow), BlocksOf(params[last], last, rate, overflow), KeySum(key));
      SumOfConcatenation(Blocks(init, rate, overflow), BlocksOf(params[last], last, rate, overflow), Size());
      SumOfConcatenation(init, [params[last]], KeyRoom(key));
      SumOfConcatenation(init, [params[last]], RoomOf());
      assert params == init + [params[last]];
    }
  }

  // ----- What the blocks are -----

  function Power(b: int, k: nat): int { if k == 0 then 1 else Power(b, k - 1) * b }

  /**
   `len` is the size of package `k`: the whole part of (rate / 100) to the power of `k`, but at least 1.  Outside the
   int32 range it is what the conversion yields.
   */
  ghost predicate IsPackageLen(len: int, rate: int, k: nat, overflow: int) {
    var unit, size := Power(100, k), Power(rate, k);
    if size < 0x8000_0000 * unit then 1 <= len && (len == 1 || len * unit <= size) && size < (len + 1) * unit
    else len == Max(overflow, 1)
  }

  ghost predicate FitsPackage(n: int, rate: int, k: nat, overflow: int) {
    exists len :: IsPackageLen(len, rate, k, overflow) && n <= len
  }

  /** `package` is (rate / 100) to the power of `k`. */
  ghost predicate IsPackage(package: real, rate: int, k: nat) {
    package * Power(100, k) as real == Power(rate, k) as real
  }

  lemma {:induction false} HundredsArePositive(k: nat)
    ensures Power(100, k) >= 1
  {
    if k > 0 {
      HundredsArePositive(k - 1);
    }
  }

  lemma {:induction false} NextPackage(package: real, rate: int, k: nat)
    requires IsPackage(package, rate, k)
    ensures IsPackage(package * rate as real / 100.0, rate, k + 1)
  {
    var unit, next := Power(100, k) as real, package * rate as real / 100.0;
    assert Power(100, k + 1) as real == unit * 100.0;
    assert next * (unit * 100.0) == (next * 100.0) * unit == (package * rate as real) * unit == (package * unit) * rate as real;
    assert Power(rate, k + 1) as real == Power(rate, k) as real * rate as real;
  }

  lemma {:induction false} Compared(x: real, n: int, unit: int, size: int)
    requires unit >= 1 && x * unit as real == size as real
    ensures n as real <= x <==> n * unit <= size
    ensures x < n as real <==> size < n * unit
  {
    var u := unit as real;
    assert (n * unit) as real == n as real * u;
    if n as real <= x {
      assert (x - n as real) * u >= 0.0;
    } else {
      assert (n as real - x) * u > 0.0;
    }
  }

  lemma {:induction false} PackageLenIs(package: real, rate: int, k: nat, overflow: int) returns (len: int)
    requires IsPackage(package, rate, k)
    ensures IsPackageLen(len, rate, k, overflow)
    ensures forall left :: left > 0 ==> PackageLen(package, left, overflow) == Min(left, len)
  {
    len := Max(if package < 2147483648.0 then package.Floor else overflow, 1);
    HundredsArePositive(k);
    Compared(package, 0x8000_0000, Power(100, k), Power(rate, k));
    Compared(package, len, Power(100, k), Power(rate, k));
    Compared(package, len + 1, Power(100, k), Power(rate, k));
  }

  /** The parts of `left` replicas of a backend: packages from number `k` on, each full except the last, which holds the rest. */
  ghost predicate IsSplit(s: seq<Block>, p: Param, index: nat, left: int, rate: int, k: nat, overflow: int) {
    && (forall b :: b in s ==> b == Block(p.key, index, b.replicas, p.cost * b.replicas) && b.replicas >= 1)
    && SumOf(s, Size()) == Max(left, 0)
    && (forall j :: 0 <= j < |s| - 1 ==> IsPackageLen(s[j].replicas, rate, k + j, overflow))
    && (s != [] ==> FitsPackage(s[|s| - 1].replicas, rate, k + |s| - 1, overflow))
  }

  lemma {:induction false} SplitGrows(b: Block, rest: seq<Block>, p: Param, index: nat, left: int, rate: int, k: nat, overflow: int, len: int)
    requires IsPackageLen(len, rate, k, overflow) && left > 0 && b == Block(p.key, index, Min(left, len), p.cost * Min(left, len))
    requires len >= 1 && IsSplit(rest, p, index, left - b.replicas, rate, k + 1, overflow)
    requires left <= len ==> rest == []
    ensures IsSplit([b] + rest, p, index, left, rate, k, overflow)
  {
    var s := [b] + rest;
    SumOfConcatenation([b], rest, Size());
    assert [b][1..] == [];
    if rest == [] {
      assert s[|s| - 1] == b;
    } else {
      assert s[|s| - 1] == rest[|rest| - 1];
      forall j | 0 <= j < |s| - 1 ensures IsPackageLen(s[j].replicas, rate, k + j, overflow) {
        if j > 0 {
          assert s[j] == rest[j - 1] && IsPackageLen(rest[j - 1].replicas, rate, k + 1 + (j - 1), overflow);
        }
      }
    }
  }

  lemma {:induction false} PackagesAreSplit(p: Param, index: nat, left: int, package: real, rate: int, k: nat, overflow: int)
    requires IsPackage(package, rate, k)
    ensures IsSplit(Packages(p, index, left, package, rate, overflow), p, index, left, rate, k, overflow)
    decreases left
  {
    if left > 0 {
      var len := PackageLenIs(package, rate, k, overflow);
      var next, size := package * rate as real / 100.0, PackageLen(package, left, overflow);
      NextPackage(package, rate, k);
      PackagesAreSplit(p, index, left - size, next, rate, k + 1, overflow);
      SplitGrows(Block(p.key, index, size, p.cost * size), Packages(p, index, left - size, next, rate, overflow),
                 p, index, left, rate, k, overflow, len);
    }
  }

  /** The blocks of one backend: none, one priced per replica at rate 100, or growing packages priced in full. */
  ghost predicate IsDivision(s: seq<Block>, p: Param, index: nat, rate: int, overflow: int) {
    if p.max <= p.min then s == []
    else if rate == 100 then s == [Block(p.key, index, p.max - p.min, p.cost)]
    else IsSplit(s, p, index, p.max - p.min, rate, 0, overflow)
  }

  ghost function OfIndex(s: seq<Block>, index: nat): seq<Block> {
    if s == [] then [] else
      var last := s[|s| - 1];
      OfIndex(s[..|s| - 1], index) + if last.index == index then [last] else []
  }

  lemma {:induction false} OfIndexConcatenation(a: seq<Block>, b: seq<Block>, index: nat)
    ensures OfIndex(a + b, index) == OfIndex(a, index) + OfIndex(b, index)
  {
    if b == [] {
      assert a + b == a;
    } else {
      assert (a + b)[..|a + b| - 1] == a + b[..|b| - 1];
      OfIndexConcatenation(a, b[..|b| - 1], index);
    }
  }

  lemma {:induction false} OfOneIndex(s: seq<Block>, index: nat, other: nat)
    requires forall b :: b in s ==> b.index == index
    ensures OfIndex(s, other) == if index == other then s else []
  {
    if s != [] {
      assert s[|s| - 1] in s;
      OfOneIndex(s[..|s| - 1], index, other);
      assert s == s[..|s| - 1] + [s[|s| - 1]];
    }
  }

  lemma {:induction false} BlocksOfAreDivision(p: Param, index: nat, rate: int, overflow: int)
    ensures IsDivision(BlocksOf(p, index, rate, overflow), p, index, rate, overflow)
    ensures forall b :: b in BlocksOf(p, index, rate, overflow) ==> b.index == index
  {
    PackagesAreSplit(p, index, p.max - p.min, 1.0, rate, 0, overflow);
  }

  /** What the construction makes of every backend, at every rate. */
  lemma {:induction false} BlocksAreDivisions(params: seq<Param>, rate: int, overflow: int, i: nat)
    ensures OfIndex(Blocks(params, rate, overflow), i) == if i < |params| then BlocksOf(params[i], i, rate, overflow) else []
    ensures i < |params| ==> IsDivision(OfIndex(Blocks(params, rate, overflow), i), params[i], i, rate, overflow)
  {
    if params != [] {
      var last := |params| - 1;
      BlocksAreDivisions(params[..last], rate, overflow, i);
      BlocksOfAreDivision(params[last], last, rate, overflow);
      OfIndexConcatenation(Blocks(params[..last], rate, overflow), BlocksOf(params[last], last, rate, overflow), i);
      OfOneIndex(BlocksOf(params[last], last, rate, overflow), last, i);
    }
  }

  // ----- Construction -----

  predicate Before(a: Block, b: Block) {
    a.cost < b.cost || (a.cost == b.cost && a.index < b.index)
  }

  ghost predicate Sorted(order: seq<Block>) {
    forall i, j :: 0 <= i < j < |order| ==> !Before(order[j], order[i])
  }

  lemma {:induction false} InsertedIsSorted(front: seq<Block>, x: Block, back: seq<Block>)
    requires Sorted(front + back)
    requires front != [] ==> !Before(x, front[|front| - 1])
    requires forall k :: 0 <= k < |back| ==> Before(x, back[k])
    ensures Sorted(front + [x] + back)
  {
    var s, r, at := front + back, front + [x] + back, |front|;
    forall i, j | 0 <= i < j < |r| ensures !Before(r[j], r[i]) {
      var i', j' := if i < at then i else i - 1, if j < at then j else j - 1;
      if i == at {
        assert r[j] == back[j - at - 1];
      } else if j == at {
        assert r[i] == s[i] && s[at - 1] == front[at - 1];
      } else {
        assert r[i] == s[i'] && r[j] == s[j'];
      }
    }
  }

  method InsertBlock(s: seq<Block>, x: Block, at: nat) returns (r: seq<Block>)
    requires Sorted(s) && at <= |s| && (at > 0 ==> !Before(x, s[at - 1]))
    requires forall k :: at <= k < |s| ==> Before(x, s[k])
    ensures Sorted(r) && multiset(r) == multiset(s) + multiset{x}
  {
    assert s == s[..at] + s[at..];
    InsertedIsSorted(s[..at], x, s[at..]);
    r := s[..at] + [x] + s[at..];
  }

  method SortBlocks(blocks: seq<Block>) returns (order: seq<Block>)
    ensures Sorted(order) && multiset(order) == multiset(blocks)
  {
    order := [];
    for i := 0 to |blocks|
      invariant Sorted(order) && multiset(order) == multiset(blocks[..i])
    {
      var at := |order|;
      while at > 0 && Before(blocks[i], order[at - 1])
        invariant 0 <= at <= |order|
        invariant forall k :: at <= k < |order| ==> Before(blocks[i], order[k])
      {
        at := at - 1;
      }
      assert blocks[..i + 1] == blocks[..i] + [blocks[i]];
      order := InsertBlock(order, blocks[i], at);
    }
    assert blocks[..|blocks|] == blocks;
  }

  ghost predicate IsMeta(meta: Meta, params: seq<Param>, rate: int, overflow: int) {
    && meta.params == params
    && meta.min == SumOf(params, MinOf()) && meta.max == SumOf(params, MaxOf())
    && Sorted(meta.order) && multiset(meta.order) == multiset(Blocks(params, rate, overflow))
  }

  /** The inner loop of the construction, for a rate other than 100. */
  method SplitIntoPackages(p: Param, index: nat, rate: int, overflow: int) returns (blocks: seq<Block>)
    ensures blocks == Packages(p, index, p.max - p.min, 1.0, rate, overflow)
    ensures IsSplit(blocks, p, index, p.max - p.min, rate, 0, overflow)
  {
    blocks := [];
    var left, package := p.max - p.min, 1.0;
    while left > 0
      invariant blocks + Packages(p, index, left, package, rate, overflow) == Packages(p, index, p.max - p.min, 1.0, rate, overflow)
    {
      var len := PackageLen(package, left, overflow);
      blocks := blocks + [Block(p.key, index, len, p.cost * len)];
      left, package := left - len, package * rate as real / 100.0;
    }
    PackagesAreSplit(p, index, p.max - p.min, 1.0, rate, 0, overflow);
  }

  /** The sums and the blocks grow by one backend at a time. */
  lemma {:induction false} MetaGrows(params: seq<Param>, i: nat, rate: int, overflow: int)
    requires i < |params|
    ensures SumOf(params[..i + 1], MinOf()) == SumOf(params[..i], MinOf()) + params[i].min
    ensures SumOf(params[..i + 1], MaxOf()) == SumOf(params[..i], MaxOf()) + params[i].max
    ensures Blocks(params[..i + 1], rate, overflow) == Blocks(params[..i], rate, overflow) + BlocksOf(params[i], i, rate, overflow)
  {
    assert params[..i + 1] == params[..i] + [params[i]] && params[..i + 1][..i] == params[..i];
    SumOfConcatenation(params[..i], [params[i]], MinOf());
    SumOfConcatenation(params[..i], [params[i]], MaxOf());
  }

  method NewOptimizerMeta(params: seq<Param>, rate: int, overflow: int) returns (meta: Meta)
    ensures IsMeta(meta, params, rate, overflow)
  {
    var min, max, blocks := 0, 0, [];
    for i := 0 to |params|
      invariant min == SumOf(params[..i], MinOf()) && max == SumOf(params[..i], MaxOf())
      invariant blocks == Blocks(params[..i], rate, overflow)
    {
      var p := params[i];
      MetaGrows(params, i, rate, overflow);
      min, max := min + p.min, max + p.max;
      if p.max - p.min > 0 {
        if rate == FLAT_RATE {
          blocks := blocks + [Block(p.key, i, p.max - p.min, p.cost)];
        } else {
          var packages := SplitIntoPackages(p, i, rate, overflow);
          blocks := blocks + packages;
        }
      }
    }
    assert params[..|params|] == params;
    var order := SortBlocks(blocks);
    meta := Meta(params, min, max, order);
  }

  /** In a constructed order the cheaper block comes first, and of two at one price that of the earlier backend. */
  lemma {:induction false} OrderIsByCost(meta: Meta, params: seq<Param>, rate: int, overflow: int, i: nat, j: nat)
    requires IsMeta(meta, params, rate, overflow) && i < j < |meta.order|
    ensures meta.order[i].cost <= meta.order[j].cost
    ensures meta.order[i].cost == meta.order[j].cost ==> meta.order[i].index <= meta.order[j].index
  {
  }

  // ----- Handing out a total -----

  /** The minimum recorded for a key: the last backend with that key wins. */
  function Base(params: seq<Param>, key: string): int {
    if params == [] then 0
    else if params[|params| - 1].key == key then params[|params| - 1].min
    else Base(params[..|params| - 1], key)
  }

  ghost predicate HasKey(params: seq<Param>, key: string) {
    exists i :: 0 <= i < |params| && params[i].key == key
  }

  /** What `key` receives when `n` replicas are handed out along `order`. */
  ghost function Filled(order: seq<Block>, n: int, key: string): int {
    if order == [] then 0 else
      var slot := Min(n, order[0].replicas);
      (if order[0].key == key then slot else 0) + if n - slot <= 0 then 0 else Filled(order[1..], n - slot, key)
  }

  ghost predicate Restored(meta: Meta, replicas: int, m: map<string, int>) {
    && (forall key :: key in m <==> HasKey(meta.params, key))
    && forall key :: key in m ==>
         m[key] == Base(meta.params, key) + Filled(meta.order, Clamp(replicas, meta.min, meta.max) - meta.min, key)
  }

  /** Up to block `i` the order is used in full, of block `i` only `part`, and of the rest nothing. */
  ghost function Used(order: seq<Block>, i: nat, part: int, key: string): int
    requires i <= |order|
  {
    SumOf(order[..i], KeySum(key)) + if i < |order| && order[i].key == key then part else 0
  }

  ghost predicate IsCut(order: seq<Block>, n: int, i: nat, part: int) {
    i <= |order| && SumOf(order[..i], Size()) + part == n && if i < |order| then 0 <= part < order[i].replicas else part == 0
  }

  lemma {:induction false} CutBehind(order: seq<Block>, n: int, i: nat, part: int, key: string)
    requires order != [] && IsCut(order[1..], n, i, part)
    ensures IsCut(order, n + order[0].replicas, i + 1, part)
    ensures Used(order, i + 1, part, key) == Used(order[1..], i, part, key) + if order[0].key == key then order[0].replicas else 0
  {
    assert order[..i + 1][1..] == order[1..][..i];
  }

  lemma {:induction false} SizesAdd(s: seq<Block>)
    requires forall b :: b in s ==> b.replicas >= 1
    ensures SumOf(s, Size()) >= |s|
  {
    if s != [] {
      SizesAdd(s[1..]);
    }
  }

  lemma {:induction false} NothingLeft(order: seq<Block>, i: nat, part: int, key: string)
    requires IsCut(order, 0, i, part) && forall b :: b in order ==> b.replicas >= 1
    ensures i == 0 && part == 0 && Used(order, i, part, key) == 0
  {
    if i > 0 {
      SizesAdd(order[..i]);
    }
  }

  /** The hand-out of `n` replicas runs along the order: there is one cut up to which every block is used. */
  lemma {:induction false} FillsInOrder(order: seq<Block>, n: int) returns (i: nat, part: int)
    requires 0 <= n <= SumOf(order, Size()) && forall b :: b in order ==> b.replicas >= 1
    ensures IsCut(order, n, i, part) && forall key :: Filled(order, n, key) == Used(order, i, part, key)
  {
    if order == [] {
      i, part := 0, 0;
    } else if n < order[0].replicas {
      i, part := 0, n;
    } else {
      var rest := n - order[0].replicas;
      i, part := FillsInOrder(order[1..], rest);
      forall key ensures Filled(order, n, key) == Used(order, i + 1, part, key) {
        CutBehind(order, rest, i, part, key);
        if rest == 0 {
          NothingLeft(order[1..], i, part, key);
        }
      }
      CutBehind(order, rest, i, part, "");
      i := i + 1;
    }
  }

  lemma {:induction false} BaseGrows(params: seq<Param>, i: nat)
    requires i < |params|
    ensures forall key :: HasKey(params[..i + 1], key) <==> HasKey(params[..i], key) || key == params[i].key
    ensures forall key :: Base(params[..i + 1], key) == if key == params[i].key then params[i].min else Base(params[..i], key)
  {
    var before, after := params[..i], params[..i + 1];
    assert after[..i] == before && after[i] == params[i];
    forall key | HasKey(before, key) ensures HasKey(after, key) {
      var k :| 0 <= k < |before| && before[k].key == key;
      assert after[k].key == key;
    }
    forall key ensures Base(after, key) == if key == params[i].key then params[i].min else Base(before, key) {
      assert after[..|after| - 1] == before;
    }
  }

  /** The map of minimums that the hand-out starts from. */
  method Minimums(params: seq<Param>) returns (m: map<string, int>)
    ensures forall key :: key in m <==> HasKey(params, key)
    ensures forall key :: key in m ==> m[key] == Base(params, key)
  {
    m := map[];
    for i := 0 to |params|
      invariant forall key :: key in m <==> HasKey(params[..i], key)
      invariant forall key :: key in m ==> m[key] == Base(params[..i], key)
    {
      BaseGrows(params, i);
      m := m[params[i].key := params[i].min];
    }
    assert params[..|params|] == params;
  }

  /** The hand-out of `n` replicas on top of a map `base`. */
  method HandOut(order: seq<Block>, n: int, base: map<string, int>) returns (m: map<string, int>)
    requires forall b :: b in order ==> b.key in base
    ensures m.Keys == base.Keys && forall key :: key in m ==> m[key] == base[key] + Filled(order, n, key)
  {
    m := base;
    var left, i := n, 0;
    while i < |order|
      invariant 0 <= i <= |order| && m.Keys == base.Keys
      invariant forall key :: key in m ==> m[key] + Filled(order[i..], left, key) == base[key] + Filled(order, n, key)
    {
      var block := order[i];
      var slot := Min(left, block.replicas);
      assert order[i..][0] == block && order[i..][1..] == order[i + 1..] && block in order;
      m := m[block.key := m[block.key] + slot];
      left, i := left - slot, i + 1;
      if left <= 0 { return; }
    }
  }

  method RestoreReplicasOfEachBackend(meta: Meta, replicas: int) returns (m: map<string, int>)
    requires forall b :: b in meta.order ==> HasKey(meta.params, b.key)
    ensures Restored(meta, replicas, m)
  {
    m := Minimums(meta.params);
    m := HandOut(meta.order, Clamp(replicas, meta.min, meta.max) - meta.min, m);
  }

  // ----- Properties of the hand-out -----

  ghost predicate Distinct(params: seq<Param>) {
    forall i, j :: 0 <= i < j < |params| ==> params[i].key != params[j].key
  }

  ghost predicate Ordered(params: seq<Param>) {
    forall p :: p in params ==> p.min <= p.max
  }

  ghost predicate Positive(order: seq<Block>) {
    forall b :: b in order ==> b.replicas >= 1
  }

  /** A backend's replicas under allocation `y`. */
  ghost function Share(y: map<string, int>): Param -> int { (p: Param) => if p.key in y then y[p.key] else 0 }

  ghost function Price(y: map<string, int>): Param -> int { (p: Param) => p.cost * Share(y)(p) }

  /** Allocation `y` gives every backend a count within its bounds, `total` in all. */
  ghost predicate Feasible(params: seq<Param>, y: map<string, int>, total: int) {
    && (forall p :: p in params ==> p.key in y && p.min <= y[p.key] <= p.max)
    && SumOf(params, Share(y)) == total
  }

  lemma {:induction false} OrderFromParams(meta: Meta, params: seq<Param>, rate: int, overflow: int)
    requires IsMeta(meta, params, rate, overflow)
    ensures FromParams(meta.order, params, rate) && Positive(meta.order)
    ensures forall b :: b in meta.order ==> HasKey(params, b.key)
  {
    BlocksFill(params, rate, overflow, "");
    forall b | b in meta.order ensures b in Blocks(params, rate, overflow) {
      assert b in multiset(meta.order);
    }
  }

  lemma {:induction false} SumOfZero(params: seq<Param>)
    ensures SumOf(params, (x: Param) => 0) == 0
  {
    if params != [] {
      SumOfZero(params[1..]);
    }
  }

  lemma {:induction false} BaseOfOne(params: seq<Param>, i: nat)
    requires Distinct(params) && i < |params|
    ensures Base(params, params[i].key) == params[i].min
  {
    if i < |params| - 1 {
      BaseOfOne(params[..|params| - 1], i);
    }
  }

  lemma {:induction false} KeyOfOne(params: seq<Param>, i: nat)
    requires Distinct(params) && i < |params|
    ensures SumOf(params, KeyRoom(params[i].key)) == Room(params[i])
    ensures Base(params, params[i].key) == params[i].min
  {
    var key, p := params[i].key, params[i];
    var front, back := params[..i], params[i + 1..];
    assert params == front + ([p] + back);
    SumOfConcatenation(front, [p] + back, KeyRoom(key));
    SumOfConcatenation([p], back, KeyRoom(key));
    SumOfEqual(front, KeyRoom(key), (x: Param) => 0);
    SumOfEqual(back, KeyRoom(key), (x: Param) => 0);
    SumOfZero(front);
    SumOfZero(back);
    BaseOfOne(params, i);
  }

  lemma {:induction false} FilledBounds(order: seq<Block>, n: nat, key: string)
    requires Positive(order)
    ensures 0 <= Filled(order, n, key) <= SumOf(order, KeySum(key))
    ensures Filled(order, 0, key) == 0
  {
    if order != [] {
      FilledBounds(order[1..], n - Min(n, order[0].replicas), key);
    }
  }

  /** The backend that receives the replica after the first `n`. */
  ghost function Next(order: seq<Block>, n: nat): string
    requires Positive(order) && n < SumOf(order, Size())
  {
    if n < order[0].replicas then order[0].key else Next(order[1..], n - order[0].replicas)
  }

  lemma {:induction false} FilledStep(order: seq<Block>, n: nat, key: string)
    requires Positive(order) && n < SumOf(order, Size())
    ensures Filled(order, n + 1, key) == Filled(order, n, key) + if key == Next(order, n) then 1 else 0
  {
    FilledBounds(order[1..], 0, key);
    if n >= order[0].replicas {
      FilledStep(order[1..], n - order[0].replicas, key);
    }
  }

  ghost function FilledFor(order: seq<Block>, n: int): Param -> int { (p: Param) => Filled(order, n, p.key) }

  /** One block serves one backend. */
  lemma {:induction false} OneBlockServes(params: seq<Param>, order: seq<Block>, n: nat)
    requires Distinct(params) && Positive(order) && order != []
    ensures var slot := Min(n, order[0].replicas);
      SumOf(params, FilledFor(order, n)) ==
      SumOf(params, FilledFor(order[1..], n - slot)) + if HasKey(params, order[0].key) then slot else 0
  {
    if params != [] {
      var slot, rest := Min(n, order[0].replicas), params[1..];
      OneBlockServes(rest, order, n);
      FilledBounds(order[1..], 0, params[0].key);
      assert HasKey(params, order[0].key) <==> params[0].key == order[0].key || HasKey(rest, order[0].key) by {
        if HasKey(rest, order[0].key) {
          var k :| 0 <= k < |rest| && rest[k].key == order[0].key;
          assert params[k + 1].key == order[0].key;
        }
      }
    }
  }

  lemma {:induction false} SumIsNonNegative(order: seq<Block>)
    requires Positive(order)
    ensures SumOf(order, Size()) >= 0
  {
    if order != [] {
      SumIsNonNegative(order[1..]);
    }
  }

  /** Everything handed out reaches some backend. */
  lemma {:induction false} HandOutConserves(params: seq<Param>, order: seq<Block>, n: nat)
    requires Distinct(params) && Positive(order) && n <= SumOf(order, Size())
    requires forall b :: b in order ==> HasKey(params, b.key)
    ensures SumOf(params, FilledFor(order, n)) == n
  {
    if order == [] {
      SumOfEqual(params, FilledFor(order, n), (x: Param) => 0);
      SumOfZero(params);
    } else {
      OneBlockServes(params, order, n);
      var slot := Min(n, order[0].replicas);
      SumIsNonNegative(order[1..]);
      HandOutConserves(params, order[1..], n - slot);
    }
  }

  /** What the theorems need of a constructed order: its blocks make up the range between the bounds. */
  ghost predicate Sized(meta: Meta) {
    && Positive(meta.order) && (forall b :: b in meta.order ==> HasKey(meta.params, b.key))
    && meta.min == SumOf(meta.params, MinOf()) && SumOf(meta.order, Size()) == meta.max - meta.min >= 0
  }

  ghost predicate HasRoom(meta: Meta, p: Param) {
    SumOf(meta.order, KeySum(p.key)) == p.max - p.min
  }

  /** With distinct keys they also hold each backend's capacity. */
  ghost predicate Fits(meta: Meta) {
    Sized(meta) && forall i :: 0 <= i < |meta.params| ==> HasRoom(meta, meta.params[i])
  }

  lemma {:induction false} ConstructedIsSized(meta: Meta, params: seq<Param>, rate: int, overflow: int)
    requires IsMeta(meta, params, rate, overflow) && Ordered(params)
    ensures Sized(meta)
  {
    BlocksFill(params, rate, overflow, "");
    SumOfPermutation(meta.order, Blocks(params, rate, overflow), Size());
    SumOfPlus(params, MinOf(), RoomOf(), MaxOf());
    OrderFromParams(meta, params, rate, overflow);
    SumIsNonNegative(meta.order);
  }

  lemma {:induction false} ConstructedFits(meta: Meta, params: seq<Param>, rate: int, overflow: int)
    requires IsMeta(meta, params, rate, overflow) && Distinct(params) && Ordered(params)
    ensures Fits(meta)
  {
    ConstructedIsSized(meta, params, rate, overflow);
    forall i | 0 <= i < |params| ensures HasRoom(meta, params[i]) {
      BlocksFill(params, rate, overflow, params[i].key);
      SumOfPermutation(meta.order, Blocks(params, rate, overflow), KeySum(params[i].key));
      KeyOfOne(params, i);
    }
  }

  /** The number of replicas handed out above the minimums. */
  function Extra(meta: Meta, replicas: int): int { Clamp(replicas, meta.min, meta.max) - meta.min }

  /** What one backend is given. */
  lemma {:induction false} RestoredShare(meta: Meta, replicas: int, m: map<string, int>, i: nat)
    requires Fits(meta) && Distinct(meta.params) && Restored(meta, replicas, m) && i < |meta.params|
    ensures var p, n := meta.params[i], Extra(meta, replicas);
      && p.key in m && m[p.key] == p.min + Filled(meta.order, n, p.key)
      && 0 <= Filled(meta.order, n, p.key) <= p.max - p.min
  {
    var p := meta.params[i];
    FilledBounds(meta.order, Extra(meta, replicas), p.key);
    KeyOfOne(meta.params, i);
    assert HasKey(meta.params, p.key) && HasRoom(meta, p);
  }

  lemma {:induction false} RestoredSum(meta: Meta, replicas: int, m: map<string, int>)
    requires Fits(meta) && Distinct(meta.params) && Restored(meta, replicas, m)
    ensures Feasible(meta.params, m, Clamp(replicas, meta.min, meta.max))
  {
    var n := Extra(meta, replicas);
    forall p | p in meta.params
      ensures p.key in m && p.min <= m[p.key] <= p.max && Share(m)(p) == MinOf()(p) + FilledFor(meta.order, n)(p)
    {
      var i :| 0 <= i < |meta.params| && meta.params[i] == p;
      RestoredShare(meta, replicas, m, i);
    }
    SumOfPlus(meta.params, MinOf(), FilledFor(meta.order, n), Share(m));
    HandOutConserves(meta.params, meta.order, n);
  }

  lemma {:induction false} NextIsABackend(order: seq<Block>, n: nat)
    requires Positive(order) && n < SumOf(order, Size())
    ensures exists b :: b in order && b.key == Next(order, n)
  {
    if n < order[0].replicas {
      assert order[0] in order;
    } else {
      NextIsABackend(order[1..], n - order[0].replicas);
    }
  }

  lemma {:induction false} RestoredStep(meta: Meta, replicas: int, m: map<string, int>, m': map<string, int>) returns (key: string)
    requires Sized(meta) && Restored(meta, replicas, m) && Restored(meta, replicas + 1, m')
    requires meta.min <= replicas < meta.max
    ensures key in m && m' == m[key := m[key] + 1]
  {
    var n := Extra(meta, replicas);
    key := Next(meta.order, n);
    forall k | k in m ensures k in m' && m'[k] == m[k] + if k == key then 1 else 0 {
      FilledStep(meta.order, n, k);
    }
    NextIsABackend(meta.order, n);
  }

  /** A backend's price per replica, by key. */
  ghost function UnitPrice(params: seq<Param>, key: string): int {
    if params == [] then 0 else if params[0].key == key then params[0].cost else UnitPrice(params[1..], key)
  }

  lemma {:induction false} UnitPriceOfOne(params: seq<Param>, i: nat)
    requires Distinct(params) && i < |params|
    ensures UnitPrice(params, params[i].key) == params[i].cost
  {
    if i > 0 {
      UnitPriceOfOne(params[1..], i - 1);
    }
  }

  ghost function Unit(params: seq<Param>): string -> int { (key: string) => UnitPrice(params, key) }

  /** The prices per replica do not fall along the order. */
  ghost predicate Rising(order: seq<Block>, unit: string -> int) {
    forall i, j :: 0 <= i < j < |order| ==> unit(order[i].key) <= unit(order[j].key)
  }

  /** The price per replica of the block at which the hand-out of `n` replicas stops. */
  ghost function CutPrice(order: seq<Block>, unit: string -> int, n: int): int
    requires order != []
  {
    if |order| == 1 || n <= order[0].replicas then unit(order[0].key) else CutPrice(order[1..], unit, n - order[0].replicas)
  }

  lemma {:induction false} CutIsNotCheaper(order: seq<Block>, unit: string -> int, n: int)
    requires order != [] && Rising(order, unit)
    ensures CutPrice(order, unit, n) >= unit(order[0].key)
  {
    if |order| > 1 && n > order[0].replicas {
      CutIsNotCheaper(order[1..], unit, n - order[0].replicas);
      assert unit(order[0].key) <= unit(order[1].key);
    }
  }

  lemma {:induction false} NoBlocksNoSum(order: seq<Block>, key: string)
    requires forall b :: b in order ==> b.key != key
    ensures SumOf(order, KeySum(key)) == 0
  {
    if order != [] {
      NoBlocksNoSum(order[1..], key);
    }
  }

  /** A backend has received something only if its price is at most that of the cut, and lacks something only if at least. */
  lemma {:induction false} CutSeparates(order: seq<Block>, unit: string -> int, n: nat, key: string)
    requires order != [] && Rising(order, unit) && Positive(order)
    ensures Filled(order, n, key) > 0 ==> unit(key) <= CutPrice(order, unit, n)
    ensures Filled(order, n, key) < SumOf(order, KeySum(key)) ==> unit(key) >= CutPrice(order, unit, n)
  {
    var first, rest := order[0], order[1..];
    if n <= first.replicas {
      FilledBounds(rest, 0, key);
      if forall b :: b in order ==> b.key != key {
        NoBlocksNoSum(order, key);
      } else {
        var k :| 0 <= k < |order| && order[k].key == key;
        assert k > 0 ==> unit(order[0].key) <= unit(order[k].key);
      }
    } else if rest == [] {
      assert Filled(rest, n - first.replicas, key) == 0 && SumOf(rest, KeySum(key)) == 0;
    } else {
      assert |order| > 1;
      CutSeparates(rest, unit, n - first.replicas, key);
      CutIsNotCheaper(order, unit, n);
    }
  }

  ghost predicate OnExpensiveSide(p: Param, d: int, c: int) {
    (d > 0 ==> p.cost >= c) && (d < 0 ==> p.cost <= c)
  }

  lemma {:induction false} ExchangeOne(q: int, y: int, m: int, c: int, rest: int)
    requires (y > m ==> q >= c) && (y < m ==> q <= c)
    ensures q * y - q * m + c * rest >= c * (y - m + rest)
  {
    assert (q - c) * (y - m) >= 0;
  }

  /** Exchange: against any allocation, every backend off by some replicas is off on the expensive side of `c`. */
  lemma {:induction false} ExchangeAtCut(params: seq<Param>, m: map<string, int>, y: map<string, int>, c: int)
    requires forall p :: p in params ==> OnExpensiveSide(p, Share(y)(p) - Share(m)(p), c)
    ensures SumOf(params, Price(y)) - SumOf(params, Price(m)) >= c * (SumOf(params, Share(y)) - SumOf(params, Share(m)))
  {
    if params != [] {
      ExchangeAtCut(params[1..], m, y, c);
      var p := params[0];
      assert OnExpensiveSide(p, Share(y)(p) - Share(m)(p), c);
      ExchangeOne(p.cost, Share(y)(p), Share(m)(p), c, SumOf(params[1..], Share(y)) - SumOf(params[1..], Share(m)));
    }
  }

  lemma {:induction false} ExchangeSavesNothing(params: seq<Param>, m: map<string, int>, y: map<string, int>, c: int)
    requires forall p :: p in params ==> OnExpensiveSide(p, Share(y)(p) - Share(m)(p), c)
    requires SumOf(params, Share(y)) == SumOf(params, Share(m))
    ensures SumOf(params, Price(m)) <= SumOf(params, Price(y))
  {
    ExchangeAtCut(params, m, y, c);
  }

  lemma {:induction false} BackendAgainstCut(meta: Meta, replicas: int, m: map<string, int>, y: map<string, int>, c: int, i: nat)
    requires Fits(meta) && Distinct(meta.params) && Rising(meta.order, Unit(meta.params)) && Restored(meta, replicas, m)
    requires i < |meta.params| && (meta.order != [] ==> c == CutPrice(meta.order, Unit(meta.params), Extra(meta, replicas)))
    requires var p := meta.params[i]; p.key in y && p.min <= y[p.key] <= p.max
    ensures var p := meta.params[i]; OnExpensiveSide(p, Share(y)(p) - Share(m)(p), c)
  {
    var p := meta.params[i];
    RestoredShare(meta, replicas, m, i);
    UnitPriceOfOne(meta.params, i);
    assert HasRoom(meta, p);
    if meta.order != [] {
      CutSeparates(meta.order, Unit(meta.params), Extra(meta, replicas), p.key);
    }
  }

  lemma {:induction false} BackendsAgainstCut(meta: Meta, replicas: int, m: map<string, int>, y: map<string, int>, c: int)
    requires Fits(meta) && Distinct(meta.params) && Rising(meta.order, Unit(meta.params)) && Restored(meta, replicas, m)
    requires meta.order != [] ==> c == CutPrice(meta.order, Unit(meta.params), Extra(meta, replicas))
    requires forall p :: p in meta.params ==> p.key in y && p.min <= y[p.key] <= p.max
    ensures forall p :: p in meta.params ==> OnExpensiveSide(p, Share(y)(p) - Share(m)(p), c)
  {
    forall p | p in meta.params ensures OnExpensiveSide(p, Share(y)(p) - Share(m)(p), c) {
      var i :| 0 <= i < |meta.params| && meta.params[i] == p;
      BackendAgainstCut(meta, replicas, m, y, c, i);
    }
  }

  lemma {:induction false} CheapestFill(meta: Meta, replicas: int, m: map<string, int>, y: map<string, int>)
    requires Fits(meta) && Distinct(meta.params) && Rising(meta.order, Unit(meta.params)) && Restored(meta, replicas, m)
    requires Feasible(meta.params, y, Clamp(replicas, meta.min, meta.max))
    ensures SumOf(meta.params, Price(m)) <= SumOf(meta.params, Price(y))
  {
    var c := if meta.order == [] then 0 else CutPrice(meta.order, Unit(meta.params), Extra(meta, replicas));
    BackendsAgainstCut(meta, replicas, m, y, c);
    RestoredSum(meta, replicas, m);
    ExchangeSavesNothing(meta.params, m, y, c);
  }

  // ----- Where the prices fall, one replica can be moved to save -----

  /** A hand-out of exactly the first `i` blocks fills these and nothing else. */
  lemma {:induction false} FilledPrefix(order: seq<Block>, i: nat, key: string)
    requires Positive(order) && i <= |order|
    ensures Filled(order, SumOf(order[..i], Size()), key) == SumOf(order[..i], KeySum(key))
  {
    FilledBounds(order, 0, key);
    if i > 0 {
      var n := SumOf(order[1..][..i - 1], Size());
      assert order[..i][1..] == order[1..][..i - 1];
      SumIsNonNegative(order[1..][..i - 1]);
      FilledPrefix(order[1..], i - 1, key);
      FilledBounds(order[1..], 0, key);
    }
  }

  lemma {:induction false} KeySumHolds(order: seq<Block>, i: nat)
    requires Positive(order) && i < |order|
    ensures SumOf(order, KeySum(order[i].key)) >= order[i].replicas
  {
    FilledBounds(order[1..], 0, order[i].key);
    if i > 0 {
      KeySumHolds(order[1..], i - 1);
    }
  }

  lemma {:induction false} MovedShare(params: seq<Param>, m: map<string, int>, i: nat, d: int)
    requires Distinct(params) && i < |params| && forall p :: p in params ==> p.key in m
    ensures var m' := m[params[i].key := m[params[i].key] + d];
      && SumOf(params, Share(m')) == SumOf(params, Share(m)) + d
      && SumOf(params, Price(m')) == SumOf(params, Price(m)) + params[i].cost * d
  {
    var p, m', rest := params[i], m[params[i].key := m[params[i].key] + d], params[1..];
    if i > 0 {
      MovedShare(rest, m, i - 1, d);
    } else {
      SumOfEqual(rest, Share(m'), Share(m));
      SumOfEqual(rest, Price(m'), Price(m));
      assert p.cost * (m[p.key] + d) == p.cost * m[p.key] + p.cost * d;
    }
  }

  /** The counts that a total is restored to. */
  ghost function RestoredCounts(meta: Meta, replicas: int): map<string, int> {
    map key | key in (set p | p in meta.params :: p.key) :: Base(meta.params, key) + Filled(meta.order, Extra(meta, replicas), key)
  }

  lemma {:induction false} RestoredCountsAre(meta: Meta, replicas: int)
    ensures Restored(meta, replicas, RestoredCounts(meta, replicas))
  {
    forall key ensures key in RestoredCounts(meta, replicas) <==> HasKey(meta.params, key) {
      if HasKey(meta.params, key) {
        var k :| 0 <= k < |meta.params| && meta.params[k].key == key;
        assert meta.params[k] in meta.params;
      }
    }
  }

  ghost predicate CheapestAt(meta: Meta, replicas: int) {
    forall m, y :: Restored(meta, replicas, m) && Feasible(meta.params, y, Clamp(replicas, meta.min, meta.max)) ==>
      SumOf(meta.params, Price(m)) <= SumOf(meta.params, Price(y))
  }

  /** After the hand-out of the first `i + 1` blocks, block `i` can give a replica and a later block `j` can take one. */
  lemma {:induction false} PrefixLeavesRoom(order: seq<Block>, i: nat, j: nat)
    requires Positive(order) && i < j < |order|
    ensures var n := SumOf(order[..i + 1], Size());
      && 0 <= n <= SumOf(order, Size()) && Filled(order, n, order[i].key) > 0
      && Filled(order, n, order[j].key) < SumOf(order, KeySum(order[j].key))
  {
    var front, back := order[..i + 1], order[i + 1..];
    assert order == front + back && front[i] == order[i] && back[j - i - 1] == order[j];
    SumOfConcatenation(front, back, Size());
    SumIsNonNegative(front);
    SumIsNonNegative(back);
    SumOfConcatenation(front, back, KeySum(order[j].key));
    FilledPrefix(order, i + 1, order[i].key);
    FilledPrefix(order, i + 1, order[j].key);
    KeySumHolds(front, i);
    KeySumHolds(back, j - i - 1);
  }

  ghost predicate CanMove(params: seq<Param>, m: map<string, int>, a: int, b: int)
    requires 0 <= a < |params| && 0 <= b < |params|
  {
    params[a].key in m && params[b].key in m && m[params[a].key] > params[a].min && m[params[b].key] < params[b].max
  }

  lemma {:induction false} RoomToMove(meta: Meta, i: nat, j: nat, a: nat, b: nat, replicas: int, m: map<string, int>)
    requires Fits(meta) && Distinct(meta.params) && i < j < |meta.order| && a < |meta.params| && b < |meta.params|
    requires meta.params[a].key == meta.order[i].key && meta.params[b].key == meta.order[j].key
    requires replicas == meta.min + SumOf(meta.order[..i + 1], Size()) && Restored(meta, replicas, m)
    ensures CanMove(meta.params, m, a, b)
  {
    PrefixLeavesRoom(meta.order, i, j);
    RestoredShare(meta, replicas, m, a);
    RestoredShare(meta, replicas, m, b);
    assert HasRoom(meta, meta.params[b]);
  }

  /** Moving one replica from backend `a` to another backend `b`. */
  lemma {:induction false} Moved(params: seq<Param>, m: map<string, int>, total: int, a: nat, b: nat) returns (y: map<string, int>)
    requires Distinct(params) && a < |params| && b < |params| && a != b && CanMove(params, m, a, b) && Feasible(params, m, total)
    ensures Feasible(params, y, total)
    ensures SumOf(params, Price(y)) == SumOf(params, Price(m)) - params[a].cost + params[b].cost
  {
    var p, q := params[a], params[b];
    assert p.key != q.key;
    var m1 := m[p.key := m[p.key] + -1];
    y := m1[q.key := m1[q.key] + 1];
    MovedShare(params, m, a, -1);
    MovedShare(params, m1, b, 1);
    forall x | x in params ensures x.key in y && x.min <= y[x.key] <= x.max {
      var k :| 0 <= k < |params| && params[k] == x;
      assert x.key == p.key ==> k == a;
      assert x.key == q.key ==> k == b;
    }
  }

  lemma {:induction false} MoveSaves(meta: Meta, a: nat, b: nat, replicas: int, m: map<string, int>)
    requires Fits(meta) && Distinct(meta.params) && a < |meta.params| && b < |meta.params| && Restored(meta, replicas, m)
    requires meta.params[a].cost > meta.params[b].cost && CanMove(meta.params, m, a, b)
    ensures !CheapestAt(meta, replicas)
  {
    RestoredSum(meta, replicas, m);
    var y := Moved(meta.params, m, Clamp(replicas, meta.min, meta.max), a, b);
  }

  lemma {:induction false} FallingPriceIsNotCheapest(meta: Meta, i: nat, j: nat)
    requires Fits(meta) && Distinct(meta.params) && i < j < |meta.order|
    requires Unit(meta.params)(meta.order[i].key) > Unit(meta.params)(meta.order[j].key)
    ensures exists replicas :: !CheapestAt(meta, replicas)
  {
    assert meta.order[i] in meta.order && meta.order[j] in meta.order;
    var a :| 0 <= a < |meta.params| && meta.params[a].key == meta.order[i].key;
    var b :| 0 <= b < |meta.params| && meta.params[b].key == meta.order[j].key;
    UnitPriceOfOne(meta.params, a);
    UnitPriceOfOne(meta.params, b);
    var replicas := meta.min + SumOf(meta.order[..i + 1], Size());
    RestoredCountsAre(meta, replicas);
    RoomToMove(meta, i, j, a, b, replicas, RestoredCounts(meta, replicas));
    MoveSaves(meta, a, b, replicas, RestoredCounts(meta, replicas));
  }

  // ----- Theorems -----

  /** Conservation: at every rate the restored counts respect each backend's bounds and add up to the clamped total. */
  lemma {:induction false} RestoredIsFeasible(meta: Meta, params: seq<Param>, rate: int, overflow: int, replicas: int, m: map<string, int>)
    requires IsMeta(meta, params, rate, overflow) && Distinct(params) && Ordered(params)
    requires Restored(meta, replicas, m)
    ensures Feasible(params, m, Clamp(replicas, meta.min, meta.max))
  {
    ConstructedFits(meta, params, rate, overflow);
    RestoredSum(meta, replicas, m);
  }

  /** Monotonicity: one more replica in range goes to exactly one backend and is taken from none. */
  lemma {:induction false} OneMoreReplica(meta: Meta, params: seq<Param>, rate: int, overflow: int, replicas: int, m: map<string, int>, m': map<string, int>)
    requires IsMeta(meta, params, rate, overflow) && Ordered(params)
    requires Restored(meta, replicas, m) && Restored(meta, replicas + 1, m')
    requires meta.min <= replicas < meta.max
    ensures exists key :: key in m && m' == m[key := m[key] + 1]
  {
    ConstructedIsSized(meta, params, rate, overflow);
    var key := RestoredStep(meta, replicas, m, m');
  }

  /** The backends that decide the minimum of their key: the last with each key. */
  ghost function LastOnes(params: seq<Param>): seq<Param> {
    if params == [] then []
    else if HasKey(params[1..], params[0].key) then LastOnes(params[1..])
    else [params[0]] + LastOnes(params[1..])
  }

  lemma {:induction false} HasKeyFront(params: seq<Param>, key: string)
    requires params != []
    ensures HasKey(params, key) <==> params[0].key == key || HasKey(params[1..], key)
  {
    var rest := params[1..];
    if HasKey(rest, key) {
      var k :| 0 <= k < |rest| && rest[k].key == key;
      assert params[k + 1].key == key;
    }
    if HasKey(params, key) && params[0].key != key {
      var k :| 0 <= k < |params| && params[k].key == key;
      assert rest[k - 1].key == key;
    }
  }

  lemma {:induction false} LastOnesAreDistinct(params: seq<Param>)
    ensures Distinct(LastOnes(params)) && forall key :: HasKey(LastOnes(params), key) <==> HasKey(params, key)
  {
    if params != [] {
      var p, rest := params[0], params[1..];
      LastOnesAreDistinct(rest);
      forall key ensures HasKey(params, key) <==> p.key == key || HasKey(rest, key) {
        HasKeyFront(params, key);
      }
      var r := LastOnes(params);
      if !HasKey(rest, p.key) {
        forall key ensures HasKey(r, key) <==> p.key == key || HasKey(LastOnes(rest), key) {
          assert r[1..] == LastOnes(rest);
          HasKeyFront(r, key);
        }
        forall i, j | 0 <= i < j < |r| ensures r[i].key != r[j].key {
          assert r[j] == LastOnes(rest)[j - 1] && HasKey(LastOnes(rest), r[j].key);
          assert i > 0 ==> r[i] == LastOnes(rest)[i - 1];
        }
      }
    }
  }

  lemma {:induction false} BaseFront(params: seq<Param>, key: string)
    requires params != []
    ensures Base(params, key) == if HasKey(params[1..], key) then Base(params[1..], key) else if params[0].key == key then params[0].min else 0
  {
    var last := |params| - 1;
    if last > 0 && params[last].key != key {
      var init := params[..last];
      BaseFront(init, key);
      assert init[1..] == params[1..][..last - 1];
      assert HasKey(params[1..], key) <==> HasKey(init[1..], key) by {
        if HasKey(params[1..], key) {
          var k :| 0 <= k < last && params[1..][k].key == key;
          assert init[1..][k].key == key;
        }
        if HasKey(init[1..], key) {
          var k :| 0 <= k < last - 1 && init[1..][k].key == key;
          assert params[1..][k].key == key;
        }
      }
    } else if last > 0 {
      assert params[1..][last - 1].key == key;
    }
  }

  lemma {:induction false} BaseOfNone(params: seq<Param>, key: string)
    ensures !HasKey(params, key) ==> Base(params, key) == 0
  {
    if params != [] && !HasKey(params, key) {
      BaseFront(params, key);
      HasKeyFront(params, key);
      BaseOfNone(params[1..], key);
    }
  }

  lemma {:induction false} LastOnesKeepBase(params: seq<Param>, key: string)
    ensures Base(LastOnes(params), key) == Base(params, key)
  {
    if params != [] {
      var rest, r := params[1..], LastOnes(params);
      LastOnesKeepBase(rest, key);
      BaseFront(params, key);
      BaseOfNone(rest, key);
      if !HasKey(rest, params[0].key) {
        assert r[1..] == LastOnes(rest);
        BaseFront(r, key);
        LastOnesAreDistinct(rest);
      }
    }
  }

  lemma {:induction false} LastOneShare(meta: Meta, replicas: int, m: map<string, int>, i: nat)
    requires Restored(meta, replicas, m) && i < |LastOnes(meta.params)|
    ensures var p := LastOnes(meta.params)[i]; Share(m)(p) == p.min + Filled(meta.order, Extra(meta, replicas), p.key)
  {
    var last := LastOnes(meta.params);
    LastOnesAreDistinct(meta.params);
    assert HasKey(last, last[i].key);
    BaseOfOne(last, i);
    LastOnesKeepBase(meta.params, last[i].key);
  }

  lemma {:induction false} RestoredLastOnes(meta: Meta, replicas: int, m: map<string, int>)
    requires Sized(meta) && Restored(meta, replicas, m)
    ensures SumOf(LastOnes(meta.params), Share(m)) == SumOf(LastOnes(meta.params), MinOf()) + Extra(meta, replicas)
  {
    LastOnesAreDistinct(meta.params);
    var n, last := Extra(meta, replicas), LastOnes(meta.params);
    forall p | p in last ensures Share(m)(p) == MinOf()(p) + FilledFor(meta.order, n)(p) {
      var i :| 0 <= i < |last| && last[i] == p;
      LastOneShare(meta, replicas, m, i);
    }
    SumOfPlus(last, MinOf(), FilledFor(meta.order, n), Share(m));
    HandOutConserves(last, meta.order, n);
  }

  /**
   Without distinct keys: the restored counts add up to the clamped total exactly when the minimums that a later
   backend with the same key overwrites come to nothing.
   */
  lemma {:induction false} RepeatedKeysConserveIff(meta: Meta, params: seq<Param>, rate: int, overflow: int, replicas: int, m: map<string, int>)
    requires IsMeta(meta, params, rate, overflow) && Ordered(params) && Restored(meta, replicas, m)
    ensures SumOf(LastOnes(params), Share(m)) == Clamp(replicas, meta.min, meta.max) <==>
            SumOf(LastOnes(params), MinOf()) == SumOf(params, MinOf())
  {
    ConstructedIsSized(meta, params, rate, overflow);
    RestoredLastOnes(meta, replicas, m);
  }

  lemma {:induction false} LastOfTwo(a: Param, b: Param)
    requires a.key == b.key
    ensures LastOnes([a, b]) == [b]
  {
    var s := [a, b];
    assert s[1..] == [b] && s[1..][0].key == a.key && HasKey(s[1..], a.key);
    assert [b][1..] == [] && !HasKey([b][1..], b.key);
    assert LastOnes([b]) == [b];
  }

  lemma {:induction false} SumOfTwo(s: seq<Param>, f: Param -> int)
    requires |s| == 2
    ensures SumOf(s, f) == f(s[0]) + f(s[1])
  {
    assert s[1..] == [s[1]];
    assert SumOf([s[1]], f) == f(s[1]);
  }

  /** Two backends with one key lose the first one's minimum: no total is restored. */
  lemma {:induction false} RepeatedKeyLosesMinimum(meta: Meta, a: Param, b: Param, rate: int, overflow: int, replicas: int, m: map<string, int>)
    requires a.key == b.key && a.min != 0 && a.min <= a.max && b.min <= b.max
    requires IsMeta(meta, [a, b], rate, overflow) && Restored(meta, replicas, m)
    ensures a.key in m && m[a.key] != Clamp(replicas, meta.min, meta.max)
  {
    var s := [a, b];
    LastOfTwo(a, b);
    SumOfTwo(s, MinOf());
    RepeatedKeysConserveIff(meta, s, rate, overflow, replicas, m);
    assert SumOf([b], MinOf()) == b.min && SumOf([b], Share(m)) == Share(m)(b);
    assert s[0].key == a.key && HasKey(s, a.key);
  }

  /**
   Cost optimality: at every rate, the hand-out of every total is the cheapest within the bounds exactly when the
   price per replica does not fall along the order of the blocks.
   */
  lemma {:induction false} CheapestIff(meta: Meta, params: seq<Param>, rate: int, overflow: int)
    requires IsMeta(meta, params, rate, overflow) && Distinct(params) && Ordered(params)
    ensures (forall replicas :: CheapestAt(meta, replicas)) <==> Rising(meta.order, Unit(params))
  {
    ConstructedFits(meta, params, rate, overflow);
    if Rising(meta.order, Unit(params)) {
      forall replicas, m, y | Restored(meta, replicas, m) && Feasible(params, y, Clamp(replicas, meta.min, meta.max))
        ensures SumOf(params, Price(m)) <= SumOf(params, Price(y))
      {
        CheapestFill(meta, replicas, m, y);
      }
    } else {
      var i, j :| 0 <= i < j < |meta.order| && Unit(params)(meta.order[i].key) > Unit(params)(meta.order[j].key);
      FallingPriceIsNotCheapest(meta, i, j);
    }
  }

  lemma {:induction false} ShareIsSmaller(share: real, whole: real)
    requires 0.0 <= whole && 0.0 <= share <= 1.0
    ensures 0.0 <= share * whole <= whole
  {
    var rest := 1.0 - share;
    assert rest * whole >= 0.0;
    assert share * whole + rest * whole == whole;
  }

  lemma {:induction false} StaysSmall(package: real, rate: real)
    requires 0.0 <= rate <= 100.0 && 0.0 <= package <= 1.0
    ensures 0.0 <= package * rate / 100.0 <= 1.0
  {
    ShareIsSmaller(package, rate);
  }

  /** Packages that do not grow are single replicas. */
  lemma {:induction false} SmallPackages(p: Param, index: nat, left: int, package: real, rate: int, overflow: int)
    requires 0 <= rate <= FLAT_RATE && 0.0 <= package <= 1.0
    ensures forall b :: b in Packages(p, index, left, package, rate, overflow) ==> b.key == p.key && b.cost == p.cost
    decreases left
  {
    if left > 0 {
      assert PackageLen(package, left, overflow) == 1;
      StaysSmall(package, rate as real);
      SmallPackages(p, index, left - 1, package * rate as real / 100.0, rate, overflow);
    }
  }

  lemma {:induction false} SmallBlocks(params: seq<Param>, rate: int, overflow: int)
    requires 0 <= rate <= FLAT_RATE
    ensures forall b :: b in Blocks(params, rate, overflow) ==> exists p :: p in params && b.key == p.key && b.cost == p.cost
  {
    if params != [] {
      var last := |params| - 1;
      SmallBlocks(params[..last], rate, overflow);
      SmallPackages(params[last], last, params[last].max - params[last].min, 1.0, rate, overflow);
      forall b | b in Blocks(params, rate, overflow) ensures exists p :: p in params && b.key == p.key && b.cost == p.cost {
        if b !in Blocks(params[..last], rate, overflow) {
          assert params[last] in params && b.key == params[last].key && b.cost == params[last].cost;
        }
      }
    }
  }

  /** Up to rate 100 a block costs its price per replica, so the sorted order is always one of rising prices. */
  lemma {:induction false} LowRateRises(meta: Meta, params: seq<Param>, rate: int, overflow: int)
    requires IsMeta(meta, params, rate, overflow) && Distinct(params) && 0 <= rate <= FLAT_RATE
    ensures Rising(meta.order, Unit(params))
  {
    SmallBlocks(params, rate, overflow);
    forall b | b in meta.order ensures Unit(params)(b.key) == b.cost {
      assert b in multiset(meta.order) && b in Blocks(params, rate, overflow);
      var p :| p in params && b.key == p.key && b.cost == p.cost;
      var i :| 0 <= i < |params| && params[i] == p;
      UnitPriceOfOne(params, i);
    }
    forall i, j | 0 <= i < j < |meta.order| ensures Unit(params)(meta.order[i].key) <= Unit(params)(meta.order[j].key) {
      assert meta.order[i] in meta.order && meta.order[j] in meta.order && !Before(meta.order[j], meta.order[i]);
    }
  }

  /** So up to rate 100 no allocation with the same total within the same bounds is cheaper. */
  lemma {:induction false} RestoredIsCheapest(meta: Meta, params: seq<Param>, rate: int, overflow: int, replicas: int, m: map<string, int>, y: map<string, int>)
    requires IsMeta(meta, params, rate, overflow) && 0 <= rate <= FLAT_RATE && Distinct(params) && Ordered(params)
    requires Restored(meta, replicas, m)
    requires Feasible(params, y, Clamp(replicas, meta.min, meta.max))
    ensures SumOf(params, Price(m)) <= SumOf(params, Price(y))
  {
    ConstructedFits(meta, params, rate, overflow);
    LowRateRises(meta, params, rate, overflow);
    CheapestFill(meta, replicas, m, y);
  }

  /** Two backends, the cheaper with room for three replicas and less than half the other's price cheaper. */
  ghost predicate CloseInPrice(a: Param, b: Param) {
    a.key != b.key && a.min == b.min == 0 && a.max == 3 && b.max == 1 && a.cost < b.cost < 2 * a.cost
  }

  ghost function Expanded(a: Param, b: Param): Meta {
    Meta([a, b], 0, 4, [Block(a.key, 0, 1, a.cost), Block(b.key, 1, 1, b.cost), Block(a.key, 0, 2, a.cost * 2)])
  }

  lemma {:induction false} ExpandedBlocks(a: Param, b: Param, rate: int, overflow: int)
    requires CloseInPrice(a, b) && rate == 200
    ensures Blocks([a, b], rate, overflow) == [Block(a.key, 0, 1, a.cost), Block(a.key, 0, 2, a.cost * 2), Block(b.key, 1, 1, b.cost)]
  {
    var s, package := [a, b], 1.0 * rate as real / 100.0;
    assert s[..1] == [a] && s[..1][..0] == [];
    assert Packages(a, 0, 2, package, rate, overflow) == [Block(a.key, 0, 2, a.cost * 2)];
    assert Blocks(s[..1], rate, overflow) == BlocksOf(a, 0, rate, overflow);
  }

  /** What the construction makes of the two at rate 200. */
  lemma {:induction false} ExpandedIsConstructed(a: Param, b: Param, rate: int, overflow: int)
    requires CloseInPrice(a, b) && rate == 200
    ensures IsMeta(Expanded(a, b), [a, b], rate, overflow)
  {
    SumOfTwo([a, b], MinOf());
    SumOfTwo([a, b], MaxOf());
    ExpandedBlocks(a, b, rate, overflow);
  }

  lemma {:induction false} ExpandedShares(a: Param, b: Param, m: map<string, int>)
    requires CloseInPrice(a, b) && Restored(Expanded(a, b), 2, m)
    ensures a.key in m && b.key in m && m[a.key] == m[b.key] == 1
  {
    var s, order := [a, b], Expanded(a, b).order;
    assert s[0] == a && s[1] == b && HasKey(s, a.key) && HasKey(s, b.key);
    assert s[..1] == [a] && Base(s[..1], a.key) == 0;
    assert Filled(order[1..], 1, a.key) == 0 && Filled(order[1..], 1, b.key) == 1;
  }

  lemma {:induction false} PriceOfTwo(a: Param, b: Param, y: map<string, int>)
    requires a.key in y && b.key in y
    ensures SumOf([a, b], Share(y)) == y[a.key] + y[b.key]
    ensures SumOf([a, b], Price(y)) == a.cost * y[a.key] + b.cost * y[b.key]
  {
    SumOfTwo([a, b], Share(y));
    SumOfTwo([a, b], Price(y));
  }

  /**
   Prices can fall at other rates: at rate 200 the second replica of these two goes to the dearer backend, because the
   cheaper one only offers two more together.
   */
  lemma {:induction false} ExpansionIsNotCheapest(a: Param, b: Param, m: map<string, int>)
    requires CloseInPrice(a, b) && Restored(Expanded(a, b), 2, m)
    ensures var y := map[a.key := 2, b.key := 0];
      Feasible([a, b], y, 2) && SumOf([a, b], Price(y)) == 2 * a.cost < SumOf([a, b], Price(m)) == a.cost + b.cost
  {
    ExpandedShares(a, b, m);
    var y := map[a.key := 2, b.key := 0];
    PriceOfTwo(a, b, m);
    PriceOfTwo(a, b, y);
  }
}
