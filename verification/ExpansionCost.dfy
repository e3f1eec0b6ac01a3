/**
 What the hand-out costs when the packages of a backend double (expansion rate 200, the default of the API;
 pkg/autoscaler/autoscaler/optimizer.go).

 The API reference speaks of up to twice the minimal cost.  That is not so; what holds is a factor of three per
 backend on the cost above the minimums.
 */
module ExpansionCost {
  import opened Common
  import opened Sums
  import opened Optimizer

  const DOUBLING := 200

  /** The cost of a key's blocks that cost at most, or less than, `c`. */
  ghost function CostUpTo(key: string, c: int): Block -> int { (b: Block) => if b.key == key && b.cost <= c then b.cost else 0 }

  ghost function CostUnder(key: string, c: int): Block -> int { (b: Block) => if b.key == key && b.cost < c then b.cost else 0 }

  ghost predicate HasCostly(s: seq<Block>, key: string, c: int) {
    exists b :: b in s && b.key == key && b.cost >= c
  }

  // ----- The packages of one backend -----

  ghost function Times(q: int, k: int): int { q * k }

  lemma {:induction false} TimesGrows(q: int, a: int, b: int)
    requires q >= 0 && a <= b
    ensures Times(q, a) <= Times(q, b) && Times(q, 0) == 0 && Times(q, 2 * b) == 2 * Times(q, b) && Times(q, 1) == q
  {
  }

  /** Packages that start at size `w` and double. */
  ghost function Doubled(p: Param, index: nat, left: int, w: int): seq<Block>
    requires w >= 1
    decreases left
  {
    if left <= 0 then [] else
      var len := Min(left, w);
      [Block(p.key, index, len, Times(p.cost, len))] + Doubled(p, index, left - len, 2 * w)
  }

  lemma {:induction false} PackagesDouble(p: Param, index: nat, left: int, w: int, overflow: int)
    requires 1 <= w && w + left <= 1_000_001
    ensures Packages(p, index, left, w as real, DOUBLING, overflow) == Doubled(p, index, left, w)
    decreases left
  {
    if left > 0 {
      assert (w as real).Floor == w;
      assert w as real * DOUBLING as real / 100.0 == (2 * w) as real;
      var len := Min(left, w);
      if left > w {
        PackagesDouble(p, index, left - len, 2 * w, overflow);
      }
    }
  }

  /** Packages up to a cost of `c` cost at most three times that together. */
  lemma {:induction false} CheapPackages(p: Param, index: nat, left: int, w: int, c: int)
    requires 1 <= w && p.cost >= 0 && c >= 0
    ensures SumOf(Doubled(p, index, left, w), CostUpTo(p.key, c)) <=
            if Times(p.cost, w) <= c then 3 * c - Times(p.cost, w) else c
    decreases left
  {
    if left > 0 {
      var len := Min(left, w);
      TimesGrows(p.cost, len, w);
      TimesGrows(p.cost, 0, w);
      CheapPackages(p, index, left - len, 2 * w, c);
    }
  }

  /** Before a package of cost `c` or more, the cheaper ones nearly add up to it. */
  lemma {:induction false} CostlyPackage(p: Param, index: nat, left: int, w: int, c: int)
    requires 1 <= w && p.cost >= 0
    ensures SumOf(Doubled(p, index, left, w), CostUnder(p.key, c)) >= 0
    ensures HasCostly(Doubled(p, index, left, w), p.key, c) ==>
      SumOf(Doubled(p, index, left, w), CostUnder(p.key, c)) >= c - Times(p.cost, w)
    decreases left
  {
    if left > 0 {
      var len := Min(left, w);
      TimesGrows(p.cost, len, w);
      TimesGrows(p.cost, 0, len);
      var rest, s := Doubled(p, index, left - len, 2 * w), Doubled(p, index, left, w);
      CostlyPackage(p, index, left - len, 2 * w, c);
      if HasCostly(s, p.key, c) && Times(p.cost, len) < c {
        var b :| b in s && b.key == p.key && b.cost >= c;
        assert b in rest;
      }
    }
  }

  lemma {:induction false} BlocksDouble(p: Param, index: nat, overflow: int)
    requires p.max <= p.min + 1_000_000
    ensures BlocksOf(p, index, DOUBLING, overflow) == Doubled(p, index, p.max - p.min, 1)
  {
    PackagesDouble(p, index, p.max - p.min, 1, overflow);
  }

  // ----- The blocks of one key among all -----

  lemma {:induction false} SumOfNothing(s: seq<Block>, f: Block -> int)
    requires forall b :: b in s ==> f(b) == 0
    ensures SumOf(s, f) == 0
  {
    if s != [] {
      SumOfNothing(s[1..], f);
    }
  }

  ghost predicate OnlyOn(f: Block -> int, key: string) {
    forall b :: f(b) != 0 ==> b.key == key
  }

  /** With distinct keys a measure of one key's blocks is one of that backend's blocks. */
  lemma {:induction false} OneBackendsBlocks(params: seq<Param>, rate: int, overflow: int, i: nat, f: Block -> int)
    requires Distinct(params) && i < |params| && OnlyOn(f, params[i].key)
    ensures SumOf(Blocks(params, rate, overflow), f) == SumOf(BlocksOf(params[i], i, rate, overflow), f)
  {
    var last := |params| - 1;
    var init, own := params[..last], BlocksOf(params[last], last, rate, overflow);
    SumOfConcatenation(Blocks(init, rate, overflow), own, f);
    if i < last {
      OneBackendsBlocks(init, rate, overflow, i, f);
      BlocksOfFill(params[last], last, rate, overflow, "");
      SumOfNothing(own, f);
    } else {
      BlocksFill(init, rate, overflow, "");
      forall b | b in Blocks(init, rate, overflow) ensures f(b) == 0 {
        var p :| p in init && PartOf(b, p, rate);
      }
      SumOfNothing(Blocks(init, rate, overflow), f);
    }
  }

  /** What a policy may ask for: capacities in the range of the API and no negative prices. */
  ghost predicate Reasonable(params: seq<Param>) {
    Distinct(params) && forall p :: p in params ==> p.min <= p.max <= p.min + 1_000_000 && p.cost >= 0
  }

  lemma {:induction false} CheapBlocks(meta: Meta, params: seq<Param>, overflow: int, i: nat, c: int)
    requires IsMeta(meta, params, DOUBLING, overflow) && Reasonable(params) && i < |params| && c >= 0
    ensures SumOf(meta.order, CostUpTo(params[i].key, c)) <= 3 * c
  {
    var p, f := params[i], CostUpTo(params[i].key, c);
    SumOfPermutation(meta.order, Blocks(params, DOUBLING, overflow), f);
    OneBackendsBlocks(params, DOUBLING, overflow, i, f);
    BlocksDouble(p, i, overflow);
    CheapPackages(p, i, p.max - p.min, 1, c);
    TimesGrows(p.cost, 0, 1);
  }

  lemma {:induction false} OwnBlock(params: seq<Param>, overflow: int, i: nat, b: Block)
    requires Distinct(params) && i < |params| && b in Blocks(params, DOUBLING, overflow) && b.key == params[i].key
    ensures b in BlocksOf(params[i], i, DOUBLING, overflow)
  {
    var last := |params| - 1;
    var init := params[..last];
    if b in Blocks(init, DOUBLING, overflow) {
      BlocksFill(init, DOUBLING, overflow, "");
      var p :| p in init && PartOf(b, p, DOUBLING);
      var j :| 0 <= j < |init| && init[j] == p;
      OwnBlock(init, overflow, i, b);
    } else {
      BlocksOfFill(params[last], last, DOUBLING, overflow, "");
    }
  }

  lemma {:induction false} CostlyBlock(meta: Meta, params: seq<Param>, overflow: int, i: nat, c: int)
    requires IsMeta(meta, params, DOUBLING, overflow) && Reasonable(params) && i < |params|
    requires HasCostly(meta.order, params[i].key, c)
    ensures SumOf(meta.order, CostUnder(params[i].key, c)) >= c - params[i].cost
  {
    var p, f, blocks := params[i], CostUnder(params[i].key, c), Blocks(params, DOUBLING, overflow);
    SumOfPermutation(meta.order, blocks, f);
    OneBackendsBlocks(params, DOUBLING, overflow, i, f);
    var b :| b in meta.order && b.key == p.key && b.cost >= c;
    assert b in multiset(meta.order) && b in blocks;
    OwnBlock(params, overflow, i, b);
    BlocksDouble(p, i, overflow);
    CostlyPackage(p, i, p.max - p.min, 1, c);
    TimesGrows(p.cost, 0, 1);
  }

  // ----- The hand-out against the block at which it stops -----

  ghost function CutCost(order: seq<Block>, n: int): int
    requires order != []
  {
    if |order| == 1 || n <= order[0].replicas then order[0].cost else CutCost(order[1..], n - order[0].replicas)
  }

  lemma {:induction false} CutIsNotCheaper(order: seq<Block>, n: int)
    requires order != [] && Sorted(order)
    ensures CutCost(order, n) >= order[0].cost
  {
    if |order| > 1 && n > order[0].replicas {
      CutIsNotCheaper(order[1..], n - order[0].replicas);
      assert !Before(order[1], order[0]);
    }
  }

  /** Every block of the key costs `q` per replica. */
  ghost predicate PricedAt(order: seq<Block>, key: string, q: int) {
    forall b :: b in order && b.key == key ==> b.cost == Times(q, b.replicas)
  }

  lemma {:induction false} TimesOfSum(q: int, a: int, b: int)
    ensures Times(q, a + b) == Times(q, a) + Times(q, b)
  {
  }

  lemma {:induction false} CostsAreNonNegative(order: seq<Block>, key: string, q: int, c: int)
    requires Positive(order) && PricedAt(order, key, q) && q >= 0
    ensures SumOf(order, CostUpTo(key, c)) >= 0
  {
    if order != [] {
      TimesGrows(q, 0, order[0].replicas);
      assert order[0] in order;
      CostsAreNonNegative(order[1..], key, q, c);
    }
  }

  lemma {:induction false} NothingUnderFirst(order: seq<Block>, key: string)
    requires order != [] && Sorted(order)
    ensures SumOf(order, CostUnder(key, order[0].cost)) == 0
  {
    forall b | b in order ensures CostUnder(key, order[0].cost)(b) == 0 {
      var k :| 0 <= k < |order| && order[k] == b;
      assert k > 0 ==> !Before(order[k], order[0]);
    }
    SumOfNothing(order, CostUnder(key, order[0].cost));
  }

  /** What a key is given costs at most all its blocks up to the cut, and at least all its blocks under it. */
  lemma {:induction false} FilledCost(order: seq<Block>, n: nat, key: string, q: int)
    requires order != [] && Sorted(order) && Positive(order) && PricedAt(order, key, q) && q >= 0
    ensures var paid, cut := Times(q, Filled(order, n, key)), CutCost(order, n);
      SumOf(order, CostUnder(key, cut)) <= paid <= SumOf(order, CostUpTo(key, cut))
  {
    var first, rest := order[0], order[1..];
    var slot := Min(n, first.replicas);
    assert first in order;
    FilledBounds(rest, 0, key);
    TimesGrows(q, 0, slot);
    TimesGrows(q, slot, first.replicas);
    if n <= first.replicas {
      NothingUnderFirst(order, key);
      CostsAreNonNegative(rest, key, q, first.cost);
    } else if rest == [] {
      NothingUnderFirst(order, key);
      assert Filled(rest, n - slot, key) == 0;
    } else {
      FilledCost(rest, n - slot, key, q);
      CutIsNotCheaper(order, n);
      TimesOfSum(q, slot, Filled(rest, n - slot, key));
    }
  }

  /** A key that lacks something has a block at least as costly as the cut. */
  lemma {:induction false} LackingIsCostly(order: seq<Block>, n: nat, key: string)
    requires order != [] && Sorted(order) && Positive(order) && Filled(order, n, key) < SumOf(order, KeySum(key))
    ensures HasCostly(order, key, CutCost(order, n))
  {
    var first, rest := order[0], order[1..];
    if n <= first.replicas {
      FilledBounds(order, n, key);
      if forall b :: b in order ==> b.key != key {
        NoBlocksNoSum(order, key);
      } else {
        var k :| 0 <= k < |order| && order[k].key == key;
        assert k > 0 ==> !Before(order[k], order[0]);
      }
    } else if rest != [] {
      LackingIsCostly(rest, n - first.replicas, key);
    }
  }

  // ----- Sums over the backends -----

  /** The cost of an allocation above the minimums. */
  ghost function ExtraPrice(y: map<string, int>): Param -> int { (p: Param) => Times(p.cost, Share(y)(p) - p.min) }

  lemma {:induction false} SumAtMost(s: seq<Param>, f: Param -> int, bound: int)
    requires forall p :: p in s ==> f(p) <= bound
    ensures SumOf(s, f) <= |s| * bound
  {
    if s != [] {
      SumAtMost(s[1..], f, bound);
    }
  }

  lemma {:induction false} SumIsAtLeastZero(s: seq<Param>, f: Param -> int)
    requires forall p :: p in s ==> f(p) >= 0
    ensures SumOf(s, f) >= 0
  {
    if s != [] {
      SumIsAtLeastZero(s[1..], f);
    }
  }

  lemma {:induction false} SumAtLeast(s: seq<Param>, f: Param -> int, i: nat)
    requires i < |s| && forall p :: p in s ==> f(p) >= 0
    ensures SumOf(s, f) >= f(s[i])
  {
    if i > 0 {
      SumAtLeast(s[1..], f, i - 1);
    } else {
      SumIsAtLeastZero(s[1..], f);
    }
  }

  /** Sums that agree although one side is nowhere larger agree everywhere. */
  lemma {:induction false} SumsAgree(s: seq<Param>, f: Param -> int, g: Param -> int)
    requires forall p :: p in s ==> f(p) <= g(p)
    ensures SumOf(s, f) <= SumOf(s, g)
    ensures SumOf(s, f) == SumOf(s, g) ==> forall p :: p in s ==> f(p) == g(p)
  {
    if s != [] {
      SumsAgree(s[1..], f, g);
    }
  }

  // ----- Theorems -----

  lemma {:induction false} OrderIsPriced(meta: Meta, params: seq<Param>, overflow: int, i: nat)
    requires IsMeta(meta, params, DOUBLING, overflow) && Reasonable(params) && i < |params|
    ensures PricedAt(meta.order, params[i].key, params[i].cost)
    ensures forall b :: b in meta.order ==> b.cost >= 0
  {
    OrderFromParams(meta, params, DOUBLING, overflow);
    forall b | b in meta.order
      ensures b.cost >= 0
      ensures b.key == params[i].key ==> b.cost == Times(params[i].cost, b.replicas)
    {
      var p :| p in params && PartOf(b, p, DOUBLING);
      var j :| 0 <= j < |params| && params[j] == p;
      TimesGrows(p.cost, 0, b.replicas);
      assert b.cost == Times(p.cost, b.replicas);
      assert b.key == params[i].key ==> i == j;
    }
  }

  lemma {:induction false} ExtraPriceOf(y: map<string, int>, p: Param, d: int)
    requires Share(y)(p) == p.min + d
    ensures ExtraPrice(y)(p) == Times(p.cost, d)
  {
  }

  lemma {:induction false} ExtraPriceIsFilled(meta: Meta, replicas: int, m: map<string, int>, i: nat)
    requires Fits(meta) && Distinct(meta.params) && Restored(meta, replicas, m) && i < |meta.params|
    ensures var p, f := meta.params[i], Filled(meta.order, Extra(meta, replicas), meta.params[i].key);
      ExtraPrice(m)(p) == Times(p.cost, f) && Share(m)(p) == p.min + f && Extra(meta, replicas) >= 0
      && SumOf(meta.order, KeySum(p.key)) == p.max - p.min
  {
    RestoredShare(meta, replicas, m, i);
    ExtraPriceOf(m, meta.params[i], Filled(meta.order, Extra(meta, replicas), meta.params[i].key));
    assert HasRoom(meta, meta.params[i]);
  }

  lemma {:induction false} FilledCostsAtMost(meta: Meta, params: seq<Param>, overflow: int, n: nat, i: nat)
    requires IsMeta(meta, params, DOUBLING, overflow) && Reasonable(params) && Positive(meta.order) && meta.order != [] && i < |params|
    ensures Times(params[i].cost, Filled(meta.order, n, params[i].key)) <= 3 * CutCost(meta.order, n)
  {
    OrderIsPriced(meta, params, overflow, i);
    CutIsNotCheaper(meta.order, n);
    assert meta.order[0] in meta.order;
    FilledCost(meta.order, n, params[i].key, params[i].cost);
    CheapBlocks(meta, params, overflow, i, CutCost(meta.order, n));
  }

  lemma {:induction false} OneMoreCostsAtLeast(meta: Meta, params: seq<Param>, overflow: int, n: nat, i: nat)
    requires IsMeta(meta, params, DOUBLING, overflow) && Reasonable(params) && Positive(meta.order) && meta.order != [] && i < |params|
    requires Filled(meta.order, n, params[i].key) < SumOf(meta.order, KeySum(params[i].key))
    ensures Times(params[i].cost, Filled(meta.order, n, params[i].key) + 1) >= CutCost(meta.order, n)
  {
    var p := params[i];
    OrderIsPriced(meta, params, overflow, i);
    LackingIsCostly(meta.order, n, p.key);
    CostlyBlock(meta, params, overflow, i, CutCost(meta.order, n));
    FilledCost(meta.order, n, p.key, p.cost);
    TimesOfSum(p.cost, Filled(meta.order, n, p.key), 1);
    TimesGrows(p.cost, 0, 1);
  }

  /** Each backend is given at most three times the cost of the block at which the hand-out stops. */
  lemma {:induction false} BackendCostsAtMost(meta: Meta, params: seq<Param>, overflow: int, replicas: int, m: map<string, int>, i: nat)
    requires IsMeta(meta, params, DOUBLING, overflow) && Reasonable(params) && Fits(meta) && meta.order != []
    requires Restored(meta, replicas, m) && i < |params|
    ensures ExtraPrice(m)(params[i]) <= 3 * CutCost(meta.order, Extra(meta, replicas))
  {
    ExtraPriceIsFilled(meta, replicas, m, i);
    FilledCostsAtMost(meta, params, overflow, Extra(meta, replicas), i);
  }

  lemma {:induction false} GivenMore(meta: Meta, replicas: int, m: map<string, int>, y: map<string, int>, i: nat) returns (d: int)
    requires Fits(meta) && Distinct(meta.params) && Restored(meta, replicas, m) && i < |meta.params|
    requires Share(m)(meta.params[i]) < Share(y)(meta.params[i]) <= meta.params[i].max
    ensures var f := Filled(meta.order, Extra(meta, replicas), meta.params[i].key);
      f < SumOf(meta.order, KeySum(meta.params[i].key)) && f + 1 <= d && Extra(meta, replicas) >= 0
    ensures ExtraPrice(y)(meta.params[i]) == Times(meta.params[i].cost, d)
  {
    d := Share(y)(meta.params[i]) - meta.params[i].min;
    ExtraPriceIsFilled(meta, replicas, m, i);
    ExtraPriceOf(y, meta.params[i], d);
  }

  lemma {:induction false} ManyMoreCostAtLeast(meta: Meta, params: seq<Param>, overflow: int, n: nat, i: nat, d: int)
    requires IsMeta(meta, params, DOUBLING, overflow) && Reasonable(params) && Positive(meta.order) && meta.order != [] && i < |params|
    requires var f := Filled(meta.order, n, params[i].key); f < SumOf(meta.order, KeySum(params[i].key)) && f + 1 <= d
    ensures Times(params[i].cost, d) >= CutCost(meta.order, n)
  {
    OneMoreCostsAtLeast(meta, params, overflow, n, i);
    TimesGrows(params[i].cost, Filled(meta.order, n, params[i].key) + 1, d);
  }

  /** A backend that another allocation gives more costs it at least as much as that block. */
  lemma {:induction false} MoreCostsAtLeast(meta: Meta, params: seq<Param>, overflow: int, replicas: int, m: map<string, int>, y: map<string, int>, i: nat)
    requires IsMeta(meta, params, DOUBLING, overflow) && Reasonable(params) && Fits(meta) && meta.order != []
    requires Restored(meta, replicas, m) && i < |params|
    requires Share(m)(params[i]) < Share(y)(params[i]) <= params[i].max
    ensures ExtraPrice(y)(params[i]) >= CutCost(meta.order, Extra(meta, replicas))
  {
    var d := GivenMore(meta, replicas, m, y, i);
    ManyMoreCostAtLeast(meta, params, overflow, Extra(meta, replicas), i, d);
  }

  lemma {:induction false} ExtraPriceIsNonNegative(params: seq<Param>, y: map<string, int>, total: int)
    requires Reasonable(params) && Feasible(params, y, total)
    ensures forall p :: p in params ==> ExtraPrice(y)(p) >= 0
    ensures SumOf(params, ExtraPrice(y)) >= 0
  {
    forall p | p in params ensures ExtraPrice(y)(p) >= 0 {
      TimesGrows(p.cost, 0, Share(y)(p) - p.min);
    }
    SumIsAtLeastZero(params, ExtraPrice(y));
  }

  /** Two allocations of one total agree, or the second gives some backend more. */
  lemma {:induction false} AgreeOrMore(params: seq<Param>, m: map<string, int>, y: map<string, int>)
    requires SumOf(params, Share(y)) == SumOf(params, Share(m))
    ensures SumOf(params, ExtraPrice(m)) == SumOf(params, ExtraPrice(y))
      || exists i :: 0 <= i < |params| && Share(m)(params[i]) < Share(y)(params[i])
  {
    if forall i :: 0 <= i < |params| ==> Share(y)(params[i]) <= Share(m)(params[i]) {
      SumsAgree(params, Share(y), Share(m));
      SumOfEqual(params, ExtraPrice(m), ExtraPrice(y));
    }
  }

  lemma {:induction false} FactorCarries(k: int, a: int, b: int)
    requires k >= 0 && a <= b
    ensures k * (3 * a) <= 3 * k * b
  {
    assert k * (b - a) >= 0;
  }

  lemma {:induction false} OneOfMany(k: int, x: int)
    requires k >= 1 && x >= 0
    ensures x <= 3 * k * x
  {
    assert (3 * k - 1) * x >= 0;
  }

  lemma {:induction false} BoundedByCut(meta: Meta, params: seq<Param>, overflow: int, replicas: int, m: map<string, int>, y: map<string, int>, i: nat)
    requires IsMeta(meta, params, DOUBLING, overflow) && Reasonable(params) && Fits(meta)
    requires Restored(meta, replicas, m) && Feasible(params, y, Clamp(replicas, meta.min, meta.max))
    requires i < |params| && Share(m)(params[i]) < Share(y)(params[i])
    ensures SumOf(params, ExtraPrice(m)) <= 3 * |params| * SumOf(params, ExtraPrice(y))
  {
    RestoredShare(meta, replicas, m, i);
    assert HasRoom(meta, meta.params[i]);
    var c := CutCost(meta.order, Extra(meta, replicas));
    forall p | p in params ensures ExtraPrice(m)(p) <= 3 * c {
      var k :| 0 <= k < |params| && params[k] == p;
      BackendCostsAtMost(meta, params, overflow, replicas, m, k);
    }
    SumAtMost(params, ExtraPrice(m), 3 * c);
    MoreCostsAtLeast(meta, params, overflow, replicas, m, y, i);
    ExtraPriceIsNonNegative(params, y, Clamp(replicas, meta.min, meta.max));
    SumAtLeast(params, ExtraPrice(y), i);
    FactorCarries(|params|, c, SumOf(params, ExtraPrice(y)));
  }

  /**
   What the doubling packages can cost: above the minimums at most three times per backend what any allocation of the
   same total within the same bounds costs.
   */
  lemma {:induction false} ExpansionIsBounded(meta: Meta, params: seq<Param>, overflow: int, replicas: int, m: map<string, int>, y: map<string, int>)
    requires IsMeta(meta, params, DOUBLING, overflow) && Reasonable(params)
    requires Restored(meta, replicas, m) && Feasible(params, y, Clamp(replicas, meta.min, meta.max))
    ensures SumOf(params, ExtraPrice(m)) <= 3 * |params| * SumOf(params, ExtraPrice(y))
  {
    ConstructedFits(meta, params, DOUBLING, overflow);
    RestoredSum(meta, replicas, m);
    ExtraPriceIsNonNegative(params, y, Clamp(replicas, meta.min, meta.max));
    AgreeOrMore(params, m, y);
    if SumOf(params, ExtraPrice(m)) == SumOf(params, ExtraPrice(y)) {
      if params != [] {
        OneOfMany(|params|, SumOf(params, ExtraPrice(y)));
      }
    } else {
      var i :| 0 <= i < |params| && Share(m)(params[i]) < Share(y)(params[i]);
      BoundedByCut(meta, params, overflow, replicas, m, y, i);
    }
  }

  ghost function MinPrice(): Param -> int { (p: Param) => Times(p.cost, p.min) }

  lemma {:induction false} PriceSplits(params: seq<Param>, y: map<string, int>)
    ensures SumOf(params, Price(y)) == SumOf(params, MinPrice()) + SumOf(params, ExtraPrice(y))
  {
    forall p | p in params ensures Price(y)(p) == MinPrice()(p) + ExtraPrice(y)(p) {
      TimesOfSum(p.cost, p.min, Share(y)(p) - p.min);
    }
    SumOfPlus(params, MinPrice(), ExtraPrice(y), Price(y));
  }

  lemma {:induction false} FactorAbsorbs(k: int, base: int, mine: int, theirs: int)
    requires k >= 1 && base >= 0 && mine <= 3 * k * theirs
    ensures base + mine <= 3 * k * (base + theirs)
  {
    OneOfMany(k, base);
    assert 3 * k * (base + theirs) == 3 * k * base + 3 * k * theirs;
  }

  /** So the whole hand-out costs at most three times per backend what the cheapest allocation costs. */
  lemma {:induction false} ExpansionIsBoundedInAll(meta: Meta, params: seq<Param>, overflow: int, replicas: int, m: map<string, int>, y: map<string, int>)
    requires IsMeta(meta, params, DOUBLING, overflow) && Reasonable(params) && forall p :: p in params ==> p.min >= 0
    requires Restored(meta, replicas, m) && Feasible(params, y, Clamp(replicas, meta.min, meta.max))
    ensures SumOf(params, Price(m)) <= 3 * |params| * SumOf(params, Price(y))
  {
    ExpansionIsBounded(meta, params, overflow, replicas, m, y);
    PriceSplits(params, m);
    PriceSplits(params, y);
    if params != [] {
      forall p | p in params ensures MinPrice()(p) >= 0 {
        TimesGrows(p.cost, 0, p.min);
      }
      SumIsAtLeastZero(params, MinPrice());
      FactorAbsorbs(|params|, SumOf(params, MinPrice()), SumOf(params, ExtraPrice(m)), SumOf(params, ExtraPrice(y)));
    }
  }

  // ----- More than twice the minimal cost -----

  /** A cheap backend with room for all, and one eight times as dear. */
  ghost predicate FarInPrice(b: Param, a: Param) {
    a.key != b.key && a.min == b.min == 0 && a.max == 31 && a.cost == 1 && b.max == 3 && b.cost == 8
  }

  ghost function Cheap(a: Param, n: int): Block { Block(a.key, 1, n, n) }

  ghost function Dear(b: Param, n: int): Block { Block(b.key, 0, n, 8 * n) }

  ghost function Mixed(b: Param, a: Param): Meta {
    Meta([b, a], 0, 34, [Cheap(a, 1), Cheap(a, 2), Cheap(a, 4)] + [Dear(b, 1)] + [Cheap(a, 8)] + [Dear(b, 2)] + [Cheap(a, 16)])
  }

  lemma {:induction false} MixedPackages(b: Param, a: Param)
    requires FarInPrice(b, a)
    ensures Doubled(a, 1, 31, 1) == [Cheap(a, 1), Cheap(a, 2), Cheap(a, 4), Cheap(a, 8), Cheap(a, 16)]
    ensures Doubled(b, 0, 3, 1) == [Dear(b, 1), Dear(b, 2)]
  {
    assert Doubled(a, 1, 0, 32) == [] && Doubled(b, 0, 0, 4) == [];
    assert Doubled(a, 1, 16, 16) == [Cheap(a, 16)];
    assert Doubled(a, 1, 24, 8) == [Cheap(a, 8)] + Doubled(a, 1, 16, 16);
    assert Doubled(a, 1, 28, 4) == [Cheap(a, 4)] + Doubled(a, 1, 24, 8);
    assert Doubled(a, 1, 30, 2) == [Cheap(a, 2)] + Doubled(a, 1, 28, 4);
    assert Doubled(b, 0, 2, 2) == [Dear(b, 2)];
  }

  lemma {:induction false} MixedBlocks(b: Param, a: Param, overflow: int)
    requires FarInPrice(b, a)
    ensures Blocks([b, a], DOUBLING, overflow) == ([Dear(b, 1)] + [Dear(b, 2)]) + [Cheap(a, 1), Cheap(a, 2), Cheap(a, 4), Cheap(a, 8), Cheap(a, 16)]
  {
    var s := [b, a];
    MixedPackages(b, a);
    BlocksDouble(b, 0, overflow);
    BlocksDouble(a, 1, overflow);
    assert s[..1] == [b] && s[..1][..0] == [];
    assert Blocks(s[..1], DOUBLING, overflow) == Doubled(b, 0, 3, 1);
  }

  lemma {:induction false} MixedIsSorted(b: Param, a: Param)
    ensures Sorted(Mixed(b, a).order)
  {
  }

  lemma {:induction false} Interleaved(d: seq<Block>, e: seq<Block>, x: seq<Block>, y: seq<Block>, z: seq<Block>)
    ensures multiset(x + d + y + e + z) == multiset((d + e) + (x + y + z))
  {
  }

  lemma {:induction false} Five(c1: Block, c2: Block, c3: Block, c4: Block, c5: Block)
    ensures [c1, c2, c3] + [c4] + [c5] == [c1, c2, c3, c4, c5]
  {
  }

  lemma {:induction false} MixedBounds(b: Param, a: Param)
    requires FarInPrice(b, a)
    ensures SumOf([b, a], MinOf()) == 0 && SumOf([b, a], MaxOf()) == 34
  {
    SumOfTwo([b, a], MinOf());
    SumOfTwo([b, a], MaxOf());
  }

  /** What the construction makes of the two. */
  lemma {:induction false} MixedIsConstructed(b: Param, a: Param, overflow: int)
    requires FarInPrice(b, a)
    ensures IsMeta(Mixed(b, a), [b, a], DOUBLING, overflow)
  {
    MixedBlocks(b, a, overflow);
    MixedIsSorted(b, a);
    Interleaved([Dear(b, 1)], [Dear(b, 2)], [Cheap(a, 1), Cheap(a, 2), Cheap(a, 4)], [Cheap(a, 8)], [Cheap(a, 16)]);
    Five(Cheap(a, 1), Cheap(a, 2), Cheap(a, 4), Cheap(a, 8), Cheap(a, 16));
    MixedBounds(b, a);
  }

  lemma {:induction false} SumOfThree(s: seq<Block>, f: Block -> int)
    requires |s| == 3
    ensures SumOf(s, f) == f(s[0]) + f(s[1]) + f(s[2])
  {
    assert s[1..][1..] == [s[2]] && s[1..][0] == s[1];
    assert SumOf([s[2]], f) == f(s[2]);
  }

  lemma {:induction false} SumOfSix(s: seq<Block>, f: Block -> int)
    requires |s| == 6
    ensures SumOf(s, f) == f(s[0]) + f(s[1]) + f(s[2]) + f(s[3]) + f(s[4]) + f(s[5])
  {
    var t := s[3..];
    assert s == s[..3] + t;
    SumOfConcatenation(s[..3], t, f);
    SumOfThree(s[..3], f);
    SumOfThree(t, f);
  }

  lemma {:induction false} MixedShares(b: Param, a: Param, m: map<string, int>)
    requires FarInPrice(b, a) && Restored(Mixed(b, a), 18, m)
    ensures a.key in m && b.key in m && m[a.key] == 15 && m[b.key] == 3
  {
    var s, order := [b, a], Mixed(b, a).order;
    var front := order[..6];
    assert s[0] == b && s[1] == a && HasKey(s, a.key) && HasKey(s, b.key);
    assert s[..1] == [b] && Base(s[..1], b.key) == 0;
    SumOfSix(front, Size());
    SumOfSix(front, KeySum(a.key));
    SumOfSix(front, KeySum(b.key));
    FilledPrefix(order, 6, a.key);
    FilledPrefix(order, 6, b.key);
  }

  /** With a total of 18 the hand-out costs 39, although 18 replicas of the cheap backend cost 18. */
  lemma {:induction false} ExpansionExceedsTwice(b: Param, a: Param, m: map<string, int>)
    requires FarInPrice(b, a) && Restored(Mixed(b, a), 18, m)
    ensures var y := map[a.key := 18, b.key := 0];
      Feasible([b, a], y, 18) && SumOf([b, a], Price(y)) == 18 && SumOf([b, a], Price(m)) == 39
  {
    MixedShares(b, a, m);
    var y := map[a.key := 18, b.key := 0];
    PriceOfTwo(b, a, m);
    PriceOfTwo(b, a, y);
  }
}
