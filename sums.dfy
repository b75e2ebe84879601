/** Sums of integer-valued functions over sequences: the additive reductions used throughout
    the application. */
module Sums {

  function SumOf<T>(s: seq<T>, f: T -> int): int
  {
    if s == [] then 0 else f(s[0]) + SumOf(s[1..], f)
  }

  lemma {:induction false} SumOfAppend<T>(a: seq<T>, b: seq<T>, f: T -> int)
    ensures SumOf(a + b, f) == SumOf(a, f) + SumOf(b, f)
  {
    if a == [] {
      assert a + b == b;
    } else {
      assert (a + b)[1..] == a[1..] + b;
      SumOfAppend(a[1..], b, f);
    }
  }

  /** Summation does not depend on the order of the summands. */
  lemma {:induction false} SumOfPermutation<T>(s: seq<T>, t: seq<T>, f: T -> int)
    requires multiset(s) == multiset(t)
    ensures SumOf(s, f) == SumOf(t, f)
    decreases |s|
  {
    if s == [] {
      assert |multiset(t)| == 0;
      assert t == [];
    } else {
      var x := s[0];
      assert x in multiset(s);
      var j :| 0 <= j < |t| && t[j] == x;
      var rest := t[..j] + t[j + 1..];
      RemoveAt(s, t, j);
      SumOfPermutation(s[1..], rest, f);
      SumSplitAt(t, j, f);
    }
  }

  /** Removing matching elements from two permutations of each other leaves permutations. */
  lemma {:induction false} RemoveAt<T>(s: seq<T>, t: seq<T>, j: int)
    requires s != [] && 0 <= j < |t| && t[j] == s[0]
    requires multiset(s) == multiset(t)
    ensures multiset(s[1..]) == multiset(t[..j] + t[j + 1..])
  {
    var x := s[0];
    assert t == t[..j] + [x] + t[j + 1..];
    assert s == [x] + s[1..];
    assert multiset(t) == multiset(t[..j]) + multiset{x} + multiset(t[j + 1..]);
    assert multiset(s) == multiset{x} + multiset(s[1..]);
    assert multiset(t[..j] + t[j + 1..]) == multiset(t[..j]) + multiset(t[j + 1..]);
    assert multiset(s[1..]) == multiset(s) - multiset{x};
    assert multiset(t[..j] + t[j + 1..]) == multiset(t) - multiset{x};
  }

  /** The sum of a sequence is its element at j plus the sum of the others. */
  lemma {:induction false} SumSplitAt<T>(t: seq<T>, j: int, f: T -> int)
    requires 0 <= j < |t|
    ensures SumOf(t, f) == f(t[j]) + SumOf(t[..j] + t[j + 1..], f)
  {
    var a, x, b := t[..j], t[j], t[j + 1..];
    assert t == (a + [x]) + b;
    SumOfAppend(a + [x], b, f);
    SumOfAppend(a, [x], f);
    SumOfAppend(a, b, f);
    assert [x][1..] == [];
  }
}
