/** Sums of an integer measure over a finite set, independent of the order of summation. */
module Sums {
  ghost function Sum<T(!new)>(s: set<T>, f: T -> int): int
    decreases |s|
  {
    if s == {} then 0
    else
      var x :| x in s;
      f(x) + Sum(s - {x}, f)
  }

  /** Any element may be taken out first. */
  lemma {:induction false} SumRemove<T(!new)>(s: set<T>, f: T -> int, x: T)
    requires x in s
    ensures Sum(s, f) == f(x) + Sum(s - {x}, f)
    decreases |s|
  {
    var y :| y in s && Sum(s, f) == f(y) + Sum(s - {y}, f);
    if y != x {
      SumRemove(s - {y}, f, x);
      SumRemove(s - {x}, f, y);
      assert s - {y} - {x} == s - {x} - {y};
    }
  }

  lemma SumAdd<T(!new)>(s: set<T>, f: T -> int, x: T)
    requires x !in s
    ensures Sum(s + {x}, f) == f(x) + Sum(s, f)
  {
    SumRemove(s + {x}, f, x);
    assert s + {x} - {x} == s;
  }

  lemma {:induction false} SumSame<T(!new)>(s: set<T>, f: T -> int, g: T -> int)
    requires forall x :: x in s ==> f(x) == g(x)
    ensures Sum(s, f) == Sum(s, g)
    decreases |s|
  {
    if s != {} {
      var x :| x in s;
      SumRemove(s, f, x);
      SumRemove(s, g, x);
      SumSame(s - {x}, f, g);
    }
  }

  /** Two measures that differ at one element only. */
  lemma SumUpdate<T(!new)>(s: set<T>, f: T -> int, g: T -> int, x: T)
    requires x in s
    requires forall y :: y in s && y != x ==> f(y) == g(y)
    ensures Sum(s, g) == Sum(s, f) - f(x) + g(x)
  {
    SumRemove(s, f, x);
    SumRemove(s, g, x);
    SumSame(s - {x}, f, g);
  }

  /** A sum of non-negative terms only falls when the set shrinks. */
  lemma {:induction false} SumSubset<T(!new)>(s: set<T>, t: set<T>, f: T -> int)
    requires s <= t
    requires forall x :: x in t ==> 0 <= f(x)
    ensures Sum(s, f) <= Sum(t, f)
    decreases |t|
  {
    if s != t {
      var x :| x in t && x !in s;
      SumRemove(t, f, x);
      SumSubset(s, t - {x}, f);
    }
  }

  // ----- sums along a sequence -----

  function SeqSum<T>(s: seq<T>, f: T -> int): int {
    if s == [] then 0 else SeqSum(s[..|s| - 1], f) + f(s[|s| - 1])
  }

  lemma SeqSumLast<T>(s: seq<T>, x: T, f: T -> int)
    ensures SeqSum(s + [x], f) == SeqSum(s, f) + f(x)
  {
    assert (s + [x])[..|s|] == s;
  }

  lemma {:induction false} SeqSumConcat<T>(s: seq<T>, t: seq<T>, f: T -> int)
    ensures SeqSum(s + t, f) == SeqSum(s, f) + SeqSum(t, f)
    decreases |t|
  {
    if t == [] {
      assert s + t == s;
    } else {
      var n := |t| - 1;
      SeqSumConcat(s, t[..n], f);
      assert (s + t)[..|s + t| - 1] == s + t[..n];
    }
  }

  /** Any element may be taken out. */
  lemma SeqSumRemove<T>(s: seq<T>, i: nat, f: T -> int)
    requires i < |s|
    ensures SeqSum(s, f) == SeqSum(s[..i] + s[i + 1..], f) + f(s[i])
    ensures multiset(s[..i] + s[i + 1..]) == multiset(s) - multiset{s[i]}
  {
    hide SeqSum;
    var before, after := s[..i], s[i + 1..];
    assert s == before + ([s[i]] + after);
    SeqSumSplit(before, s[i], after, f);
    MultisetSplit(before, s[i], after);
  }

  lemma MultisetSplit<T>(before: seq<T>, x: T, after: seq<T>)
    ensures multiset(before + ([x] + after)) == multiset(before + after) + multiset{x}
  {}

  lemma SeqSumSplit<T>(before: seq<T>, x: T, after: seq<T>, f: T -> int)
    ensures SeqSum(before + ([x] + after), f) == SeqSum(before + after, f) + f(x)
  {
    assert [] + [x] == [x] && [x][..0] == [];
    SeqSumLast([], x, f);
    SeqSumConcat([x], after, f);
    SeqSumConcat(before, [x] + after, f);
    SeqSumConcat(before, after, f);
  }

  /** The order of the elements does not matter. */
  lemma {:induction false} SeqSumPermute<T>(s: seq<T>, t: seq<T>, f: T -> int)
    requires multiset(s) == multiset(t)
    ensures SeqSum(s, f) == SeqSum(t, f)
    decreases |s|
  {
    assert |s| == |multiset(s)| == |multiset(t)| == |t|;
    if s != [] {
      var n := |s| - 1;
      assert s[n] in multiset(t);
      var i :| 0 <= i < |t| && t[i] == s[n];
      SeqSumRemove(s, n, f);
      SeqSumRemove(t, i, f);
      SeqSumPermute(s[..n] + s[n + 1..], t[..i] + t[i + 1..], f);
    }
  }

  lemma {:induction false} SeqSumNonNegative<T>(s: seq<T>, f: T -> int)
    requires forall x :: x in s ==> 0 <= f(x)
    ensures 0 <= SeqSum(s, f)
    decreases |s|
  {
    if s != [] {
      SeqSumNonNegative(s[..|s| - 1], f);
    }
  }
}
