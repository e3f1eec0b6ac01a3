/** Integer measures summed over a sequence. */
module Sums {

  ghost function SumOf<T(!new)>(s: seq<T>, f: T -> int): int {
    if s == [] then 0 else f(s[0]) + SumOf(s[1..], f)
  }

  lemma {:induction false} SumOfConcatenation<T(!new)>(a: seq<T>, b: seq<T>, f: T -> int)
    ensures SumOf(a + b, f) == SumOf(a, f) + SumOf(b, f)
  {
    if a == [] {
      assert a + b == b;
    } else {
      SumOfConcatenation(a[1..], b, f);
      assert (a + b)[1..] == a[1..] + b;
    }
  }

  /** Taking one occurrence of `x` out of `s`. */
  lemma {:induction false} SumOfRemoval<T(!new)>(s: seq<T>, x: T, f: T -> int) returns (rest: seq<T>)
    requires x in s
    ensures |rest| == |s| - 1 && multiset(rest) == multiset(s) - multiset{x}
    ensures SumOf(s, f) == SumOf(rest, f) + f(x)
  {
    var k :| 0 <= k < |s| && s[k] == x;
    var front, back := s[..k], s[k + 1..];
    assert s == front + [x] + back;
    SumOfConcatenation(front + [x], back, f);
    SumOfConcatenation(front, [x], f);
    SumOfConcatenation(front, back, f);
    rest := front + back;
  }

  lemma {:induction false} SumOfPermutation<T(!new)>(a: seq<T>, b: seq<T>, f: T -> int)
    requires multiset(a) == multiset(b)
    ensures SumOf(a, f) == SumOf(b, f)
    decreases |a|
  {
    if a == [] {
      assert |multiset(b)| == 0;
    } else {
      var x := a[0];
      assert x in multiset(a);
      var a' := SumOfRemoval(a, x, f);
      var b' := SumOfRemoval(b, x, f);
      SumOfPermutation(a', b', f);
    }
  }

  lemma {:induction false} SumOfEqual<T(!new)>(s: seq<T>, f: T -> int, g: T -> int)
    requires forall x :: x in s ==> f(x) == g(x)
    ensures SumOf(s, f) == SumOf(s, g)
  {
    if s != [] {
      SumOfEqual(s[1..], f, g);
    }
  }

  lemma {:induction false} SumOfPlus<T(!new)>(s: seq<T>, f: T -> int, g: T -> int, h: T -> int)
    requires forall x :: x in s ==> h(x) == f(x) + g(x)
    ensures SumOf(s, h) == SumOf(s, f) + SumOf(s, g)
  {
    if s != [] {
      SumOfPlus(s[1..], f, g, h);
    }
  }
}
