/** A plain JavaScript object used as a string-keyed accumulator
    (each addition raises the value under a key, starting from 0), kept as the list of its properties in
    insertion order, which is the order `Object.entries` reports them in. */
module Dict {
  import opened Sums

  type Entry = (string, int)

  /** The properties of an accumulator object, in insertion order. */
  type Entries = seq<Entry>

  function Value(e: Entry): int { e.1 }

  /** Sum of all values. */
  function Total(d: Entries): int { SumOf(d, Value) }

  function KeySeq(d: Entries): seq<string>
  {
    if d == [] then [] else [d[0].0] + KeySeq(d[1..])
  }

  function Keys(d: Entries): set<string>
  {
    if d == [] then {} else {d[0].0} + Keys(d[1..])
  }

  ghost predicate DistinctKeys(d: Entries)
  {
    forall i, j :: 0 <= i < j < |d| ==> d[i].0 != d[j].0
  }

  /** The value stored under `k`, or 0 when there is none. */
  function Get(d: Entries, k: string): int
  {
    if d == [] then 0 else if d[0].0 == k then d[0].1 else Get(d[1..], k)
  }

  /** The object as a mathematical map, forgetting the insertion order. */
  function AsMap(d: Entries): map<string, int>
  {
    map k | k in Keys(d) :: Get(d, k)
  }

  /** Adding `a` under `k`: an existing property keeps its place, a new one goes last. */
  function Add(d: Entries, k: string, a: int): Entries
  {
    if d == [] then [(k, a)]
    else if d[0].0 == k then [(k, d[0].1 + a)] + d[1..]
    else [d[0]] + Add(d[1..], k, a)
  }

  lemma {:induction false} KeysAppend(a: Entries, b: Entries)
    ensures Keys(a + b) == Keys(a) + Keys(b)
    ensures KeySeq(a + b) == KeySeq(a) + KeySeq(b)
  {
    if a != [] {
      assert (a + b)[1..] == a[1..] + b;
      KeysAppend(a[1..], b);
    } else {
      assert a + b == b;
    }
  }

  lemma {:induction false} KeysMembership(d: Entries, k: string)
    ensures k in Keys(d) <==> k in KeySeq(d)
    ensures k in Keys(d) <==> exists i :: 0 <= i < |d| && d[i].0 == k
  {
    if d != [] {
      KeysMembership(d[1..], k);
      if k in Keys(d[1..]) {
        var i :| 0 <= i < |d[1..]| && d[1..][i].0 == k;
        assert d[i + 1].0 == k;
      }
      forall i | 0 < i < |d| && d[i].0 == k ensures k in Keys(d[1..]) {
        assert d[1..][i - 1].0 == k;
      }
    }
  }

  /** Adding `a` under `k` raises the value under `k` by `a` and leaves every other key alone. */
  lemma {:induction false} AddGet(d: Entries, k: string, a: int, j: string)
    ensures Get(Add(d, k, a), j) == Get(d, j) + (if j == k then a else 0)
  {
    if d != [] && d[0].0 != k {
      AddGet(d[1..], k, a, j);
    }
  }

  /** The key set grows by `k` and nothing else; a new key is appended at the end. */
  lemma {:induction false} AddKeys(d: Entries, k: string, a: int)
    ensures Keys(Add(d, k, a)) == Keys(d) + {k}
    ensures KeySeq(Add(d, k, a)) == if k in Keys(d) then KeySeq(d) else KeySeq(d) + [k]
  {
    if d == [] {
    } else if d[0].0 == k {
      assert Add(d, k, a)[1..] == d[1..];
    } else {
      AddKeys(d[1..], k, a);
      assert Add(d, k, a)[1..] == Add(d[1..], k, a);
      assert KeySeq(d) + [k] == [d[0].0] + (KeySeq(d[1..]) + [k]);
    }
  }

  lemma {:induction false} AddTotal(d: Entries, k: string, a: int)
    ensures Total(Add(d, k, a)) == Total(d) + a
  {
    if d == [] {
      assert Add(d, k, a)[1..] == [];
    } else if d[0].0 == k {
      assert Add(d, k, a)[1..] == d[1..];
    } else {
      AddTotal(d[1..], k, a);
      assert Add(d, k, a)[1..] == Add(d[1..], k, a);
    }
  }

  lemma {:induction false} AddDistinct(d: Entries, k: string, a: int)
    requires DistinctKeys(d)
    ensures DistinctKeys(Add(d, k, a))
  {
    if d != [] && d[0].0 != k {
      AddDistinct(d[1..], k, a);
      AddKeys(d[1..], k, a);
      var r := Add(d, k, a);
      assert r[1..] == Add(d[1..], k, a);
      assert forall i :: 0 <= i < |d[1..]| ==> d[1..][i].0 != d[0].0;
      KeysMembership(d[1..], d[0].0);
      forall j | 0 < j < |r| ensures r[0].0 != r[j].0 {
        assert r[j] == r[1..][j - 1];
        KeysMembership(r[1..], r[j].0);
      }
    }
  }

  /** Distinct labels in order of first appearance. */
  function FirstAppearances(ks: seq<string>): seq<string>
  {
    if ks == [] then []
    else
      var earlier := FirstAppearances(ks[..|ks| - 1]);
      if ks[|ks| - 1] in earlier then earlier else earlier + [ks[|ks| - 1]]
  }

  /** The accumulator obtained by adding each (label, amount) pair in turn, starting from `{}`. */
  function Tally(p: Entries): Entries
  {
    if p == [] then [] else Add(Tally(p[..|p| - 1]), p[|p| - 1].0, p[|p| - 1].1)
  }

  /** Sum of the amounts paired with label `k`. */
  function SumFor(p: Entries, k: string): int
  {
    if p == [] then 0
    else SumFor(p[..|p| - 1], k) + (if p[|p| - 1].0 == k then p[|p| - 1].1 else 0)
  }

  lemma {:induction false} KeySeqLength(d: Entries)
    ensures |KeySeq(d)| == |d|
  {
    if d != [] {
      KeySeqLength(d[1..]);
    }
  }

  /** Each key of the accumulator holds exactly the sum of the amounts added under it. */
  lemma {:induction false} TallyGet(p: Entries, k: string)
    ensures Get(Tally(p), k) == SumFor(p, k)
  {
    if p != [] {
      var init, last := p[..|p| - 1], p[|p| - 1];
      TallyGet(init, k);
      AddGet(Tally(init), last.0, last.1, k);
    }
  }

  /** The accumulator's keys are exactly the labels that occur. */
  lemma {:induction false} TallyKeys(p: Entries)
    ensures Keys(Tally(p)) == Keys(p)
  {
    if p != [] {
      var init, last := p[..|p| - 1], p[|p| - 1];
      TallyKeys(init);
      AddKeys(Tally(init), last.0, last.1);
      assert p == init + [last];
      KeysAppend(init, [last]);
    }
  }

  /** Nothing is lost or counted twice: the values add up to the sum of all amounts. */
  lemma {:induction false} TallyTotal(p: Entries)
    ensures Total(Tally(p)) == Total(p)
  {
    if p != [] {
      var init, last := p[..|p| - 1], p[|p| - 1];
      TallyTotal(init);
      AddTotal(Tally(init), last.0, last.1);
      assert p == init + [last];
      SumOfAppend(init, [last], Value);
    }
  }

  /** Keys are never repeated, and `Object.entries` lists them in order of first appearance. */
  lemma {:induction false} TallyKeyOrder(p: Entries)
    ensures DistinctKeys(Tally(p))
    ensures KeySeq(Tally(p)) == FirstAppearances(KeySeq(p))
  {
    if p != [] {
      var init, last := p[..|p| - 1], p[|p| - 1];
      TallyKeyOrder(init);
      TallyKeys(init);
      AddKeys(Tally(init), last.0, last.1);
      AddDistinct(Tally(init), last.0, last.1);
      assert p == init + [last];
      KeysAppend(init, [last]);
      KeySeqLength(p);
      var ks := KeySeq(p);
      assert ks[..|ks| - 1] == KeySeq(init);
      assert ks[|ks| - 1] == last.0;
      FirstAppearancesSameSet(KeySeq(init));
      KeysMembership(init, last.0);
    }
  }

  lemma {:induction false} FirstAppearancesSameSet(ks: seq<string>)
    ensures forall x :: x in FirstAppearances(ks) <==> x in ks
  {
    if ks != [] {
      FirstAppearancesSameSet(ks[..|ks| - 1]);
      assert ks == ks[..|ks| - 1] + [ks[|ks| - 1]];
    }
  }

  lemma {:induction false} SumForAsSumOf(p: Entries, k: string, f: Entry -> int)
    requires forall e :: f(e) == if e.0 == k then e.1 else 0
    ensures SumFor(p, k) == SumOf(p, f)
  {
    if p != [] {
      var init := p[..|p| - 1];
      SumForAsSumOf(init, k, f);
      assert p == init + [p[|p| - 1]];
      SumOfAppend(init, [p[|p| - 1]], f);
    }
  }

  lemma KeysPermutation(p: Entries, q: Entries)
    requires multiset(p) == multiset(q)
    ensures Keys(p) == Keys(q)
  {
    forall k ensures k in Keys(p) ==> k in Keys(q) {
      KeysMembership(p, k);
      KeysMembership(q, k);
      if k in Keys(p) {
        var i :| 0 <= i < |p| && p[i].0 == k;
        assert p[i] in multiset(q);
        var j :| 0 <= j < |q| && q[j] == p[i];
      }
    }
    forall k ensures k in Keys(q) ==> k in Keys(p) {
      KeysMembership(p, k);
      KeysMembership(q, k);
      if k in Keys(q) {
        var i :| 0 <= i < |q| && q[i].0 == k;
        assert q[i] in multiset(p);
        var j :| 0 <= j < |p| && p[j] == q[i];
      }
    }
  }

  /** Adding the same pairs in another order gives the same object up to property order. */
  lemma TallyPermutation(p: Entries, q: Entries)
    requires multiset(p) == multiset(q)
    ensures AsMap(Tally(p)) == AsMap(Tally(q))
  {
    TallyKeys(p);
    TallyKeys(q);
    KeysPermutation(p, q);
    forall k | k in Keys(p)
      ensures Get(Tally(p), k) == Get(Tally(q), k)
    {
      var f := (e: Entry) => if e.0 == k then e.1 else 0;
      SumForAsSumOf(p, k, f);
      SumForAsSumOf(q, k, f);
      SumOfPermutation(p, q, f);
      TallyGet(p, k);
      TallyGet(q, k);
    }
  }
}
