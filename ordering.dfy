/** The two sorts the revenue page applies to an accumulator's entries: ascending by key
    (a locale comparison, which on the fixed-width ISO date keys agrees with code-unit order)
    and descending by value (a stable sort). */
module Ordering {
  import opened Dict

  /** Code-unit lexicographic order on strings. */
  predicate StrLess(a: string, b: string)
  {
    if a == [] then b != []
    else if b == [] then false
    else if a[0] != b[0] then a[0] < b[0]
    else StrLess(a[1..], b[1..])
  }

  lemma {:induction false} StrLessAsymmetric(a: string, b: string)
    requires StrLess(a, b)
    ensures !StrLess(b, a)
  {
    if a != [] && b != [] && a[0] == b[0] {
      StrLessAsymmetric(a[1..], b[1..]);
    }
  }

  lemma {:induction false} StrLessTransitive(a: string, b: string, c: string)
    requires StrLess(a, b) && StrLess(b, c)
    ensures StrLess(a, c)
  {
    if a != [] && a[0] == b[0] && b[0] == c[0] {
      StrLessTransitive(a[1..], b[1..], c[1..]);
    }
  }

  lemma {:induction false} StrLessTotal(a: string, b: string)
    requires a != b
    ensures StrLess(a, b) || StrLess(b, a)
  {
    if a != [] && b != [] && a[0] == b[0] {
      assert a == [a[0]] + a[1..] && b == [b[0]] + b[1..];
      StrLessTotal(a[1..], b[1..]);
    }
  }

  // ---------------------------------------------------------------- sort by key

  ghost predicate KeysAscending(s: Entries)
  {
    forall i, j :: 0 <= i < j < |s| ==> !StrLess(s[j].0, s[i].0)
  }

  function InsertByKey(e: Entry, s: Entries): Entries
  {
    if s == [] || !StrLess(s[0].0, e.0) then [e] + s else [s[0]] + InsertByKey(e, s[1..])
  }

  /** The entries sorted by key, ascending. */
  function SortByKey(d: Entries): Entries
  {
    if d == [] then [] else InsertByKey(d[0], SortByKey(d[1..]))
  }

  lemma {:induction false} InsertByKeyPermutes(e: Entry, s: Entries)
    ensures multiset(InsertByKey(e, s)) == multiset(s) + multiset{e}
  {
    if s != [] && StrLess(s[0].0, e.0) {
      InsertByKeyPermutes(e, s[1..]);
      assert s == [s[0]] + s[1..];
    }
  }

  lemma {:induction false} InsertByKeyAscending(e: Entry, s: Entries)
    requires KeysAscending(s)
    ensures KeysAscending(InsertByKey(e, s))
  {
    var r := InsertByKey(e, s);
    if s == [] {
    } else if !StrLess(s[0].0, e.0) {
      forall j | 0 < j < |r| ensures !StrLess(r[j].0, e.0) {
        assert r[j] == s[j - 1];
        if StrLess(s[j - 1].0, e.0) {
          if j - 1 > 0 {
            assert !StrLess(s[j - 1].0, s[0].0);
            if s[j - 1].0 != s[0].0 {
              StrLessTotal(s[j - 1].0, s[0].0);
              StrLessTransitive(s[0].0, s[j - 1].0, e.0);
            }
          }
        }
      }
    } else {
      InsertByKeyAscending(e, s[1..]);
      InsertByKeyPermutes(e, s[1..]);
      assert r[1..] == InsertByKey(e, s[1..]);
      forall j | 0 < j < |r| ensures !StrLess(r[j].0, s[0].0) {
        assert r[j] in multiset(r[1..]);
        if r[j] == e {
          StrLessAsymmetric(s[0].0, e.0);
        } else {
          assert r[j] in multiset(s[1..]);
          var m :| 0 <= m < |s[1..]| && s[1..][m] == r[j];
          assert s[m + 1] == r[j];
        }
      }
    }
  }

  /** The key sort returns a permutation of its input, in ascending key order. */
  lemma {:induction false} SortByKeyCorrect(d: Entries)
    ensures multiset(SortByKey(d)) == multiset(d)
    ensures KeysAscending(SortByKey(d))
  {
    if d != [] {
      SortByKeyCorrect(d[1..]);
      InsertByKeyPermutes(d[0], SortByKey(d[1..]));
      InsertByKeyAscending(d[0], SortByKey(d[1..]));
      assert d == [d[0]] + d[1..];
    }
  }

  lemma InsertByKeyKeys(e: Entry, s: Entries)
    ensures Keys(InsertByKey(e, s)) == Keys(s) + {e.0}
  {
    InsertByKeyPermutes(e, s);
    assert multiset(s + [e]) == multiset(s) + multiset{e};
    KeysPermutation(InsertByKey(e, s), s + [e]);
    KeysAppend(s, [e]);
  }

  lemma {:induction false} InsertByKeyDistinct(e: Entry, s: Entries)
    requires DistinctKeys(s) && e.0 !in Keys(s)
    ensures DistinctKeys(InsertByKey(e, s))
  {
    var r := InsertByKey(e, s);
    if s == [] || !StrLess(s[0].0, e.0) {
      forall j | 0 < j < |r| ensures r[0].0 != r[j].0 {
        assert r[j] == s[j - 1];
        KeysMembership(s, r[j].0);
      }
    } else {
      KeysMembership(s, e.0);
      assert forall i :: 0 <= i < |s[1..]| ==> s[1..][i].0 == s[i + 1].0;
      KeysMembership(s[1..], e.0);
      InsertByKeyDistinct(e, s[1..]);
      InsertByKeyKeys(e, s[1..]);
      KeysMembership(s[1..], s[0].0);
      assert r[1..] == InsertByKey(e, s[1..]);
      forall j | 0 < j < |r| ensures r[0].0 != r[j].0 {
        assert r[j] == r[1..][j - 1];
        KeysMembership(r[1..], r[j].0);
      }
    }
  }

  /** With distinct keys (every accumulator object has them) the sort keeps the keys distinct
      and they strictly increase. */
  lemma {:induction false} SortByKeyStrict(d: Entries)
    requires DistinctKeys(d)
    ensures Keys(SortByKey(d)) == Keys(d)
    ensures DistinctKeys(SortByKey(d))
    ensures forall i, j :: 0 <= i < j < |SortByKey(d)| ==> StrLess(SortByKey(d)[i].0, SortByKey(d)[j].0)
  {
    var r := SortByKey(d);
    if d != [] {
      SortByKeyStrict(d[1..]);
      assert forall i :: 0 <= i < |d[1..]| ==> d[1..][i].0 == d[i + 1].0;
      KeysMembership(d[1..], d[0].0);
      InsertByKeyDistinct(d[0], SortByKey(d[1..]));
      InsertByKeyKeys(d[0], SortByKey(d[1..]));
    }
    SortByKeyCorrect(d);
    forall i, j | 0 <= i < j < |r| ensures StrLess(r[i].0, r[j].0) {
      StrLessTotal(r[i].0, r[j].0);
    }
  }

  // ---------------------------------------------------------------- sort by revenue, stable

  ghost predicate RevenueDescending(s: Entries)
  {
    forall i, j :: 0 <= i < j < |s| ==> s[i].1 >= s[j].1
  }

  /** The entries whose value is `v`, in their original order. */
  function WithValue(s: Entries, v: int): Entries
  {
    if s == [] then []
    else if s[0].1 == v then [s[0]] + WithValue(s[1..], v)
    else WithValue(s[1..], v)
  }

  function InsertByRevenue(e: Entry, s: Entries): Entries
  {
    if s == [] || s[0].1 <= e.1 then [e] + s else [s[0]] + InsertByRevenue(e, s[1..])
  }

  /** The entries sorted by value, descending, with the stability the JavaScript array sort
      guarantees: entries of equal value keep their insertion order. */
  function SortByRevenueDesc(d: Entries): Entries
  {
    if d == [] then [] else InsertByRevenue(d[0], SortByRevenueDesc(d[1..]))
  }

  lemma {:induction false} InsertByRevenuePermutes(e: Entry, s: Entries)
    ensures multiset(InsertByRevenue(e, s)) == multiset(s) + multiset{e}
  {
    if s != [] && s[0].1 > e.1 {
      InsertByRevenuePermutes(e, s[1..]);
      assert s == [s[0]] + s[1..];
    }
  }

  lemma {:induction false} InsertByRevenueDescending(e: Entry, s: Entries)
    requires RevenueDescending(s)
    ensures RevenueDescending(InsertByRevenue(e, s))
  {
    var r := InsertByRevenue(e, s);
    if s != [] && s[0].1 > e.1 {
      InsertByRevenueDescending(e, s[1..]);
      InsertByRevenuePermutes(e, s[1..]);
      assert r[1..] == InsertByRevenue(e, s[1..]);
      forall j | 0 < j < |r| ensures r[0].1 >= r[j].1 {
        assert r[j] in multiset(r[1..]);
        if r[j] != e {
          assert r[j] in multiset(s[1..]);
          var m :| 0 <= m < |s[1..]| && s[1..][m] == r[j];
          assert s[m + 1] == r[j];
        }
      }
    } else if s != [] {
      forall j | 0 < j < |r| ensures r[0].1 >= r[j].1 {
        assert r[j] == s[j - 1];
      }
    }
  }

  /** An inserted entry goes before every entry of equal value: entries with the same value
      keep their relative order. */
  lemma {:induction false} InsertByRevenueStable(e: Entry, s: Entries, v: int)
    ensures WithValue(InsertByRevenue(e, s), v) == (if e.1 == v then [e] else []) + WithValue(s, v)
  {
    if s != [] && s[0].1 > e.1 {
      InsertByRevenueStable(e, s[1..], v);
      assert InsertByRevenue(e, s)[1..] == InsertByRevenue(e, s[1..]);
    } else {
      assert ([e] + s)[1..] == s;
    }
  }

  /** The merchant ranking is a permutation of the entries, in non-increasing order of revenue,
      and entries of equal revenue keep their insertion order. */
  lemma {:induction false} SortByRevenueDescCorrect(d: Entries)
    ensures multiset(SortByRevenueDesc(d)) == multiset(d)
    ensures RevenueDescending(SortByRevenueDesc(d))
    ensures forall v :: WithValue(SortByRevenueDesc(d), v) == WithValue(d, v)
  {
    if d != [] {
      SortByRevenueDescCorrect(d[1..]);
      InsertByRevenuePermutes(d[0], SortByRevenueDesc(d[1..]));
      InsertByRevenueDescending(d[0], SortByRevenueDesc(d[1..]));
      assert d == [d[0]] + d[1..];
      forall v ensures WithValue(SortByRevenueDesc(d), v) == WithValue(d, v) {
        InsertByRevenueStable(d[0], SortByRevenueDesc(d[1..]), v);
      }
    }
  }

  lemma {:induction false} WithValueMember(s: Entries, v: int, x: Entry)
    ensures x in WithValue(s, v) <==> x in s && x.1 == v
  {
    if s != [] {
      WithValueMember(s[1..], v, x);
      assert s == [s[0]] + s[1..];
    }
  }

  lemma WithValueOfFirst(s: Entries)
    requires s != []
    ensures WithValue(s, s[0].1) == [s[0]] + WithValue(s[1..], s[0].1)
  {
  }

  /** Two descending orders of the same entries that agree on the order within every revenue
      value are the same sequence: any stable sort gives the result of SortByRevenueDesc. */
  lemma {:induction false} StableDescendingUnique(r: Entries, t: Entries)
    requires RevenueDescending(r) && RevenueDescending(t)
    requires forall v :: WithValue(r, v) == WithValue(t, v)
    ensures r == t
    decreases |r| + |t|
  {
    if r == [] && t == [] {
    } else if r == [] {
      WithValueOfFirst(t);
      assert false;
    } else if t == [] {
      WithValueOfFirst(r);
      assert false;
    } else {
      WithValueMember(r, r[0].1, r[0]);
      WithValueMember(t, t[0].1, t[0]);
      assert r[0] in WithValue(t, r[0].1);
      WithValueMember(t, r[0].1, r[0]);
      assert t[0] in WithValue(r, t[0].1);
      WithValueMember(r, t[0].1, t[0]);
      assert r[0].1 == t[0].1 by {
        var a :| 0 <= a < |t| && t[a] == r[0];
        var b :| 0 <= b < |r| && r[b] == t[0];
      }
      assert WithValue(r, r[0].1)[0] == r[0];
      assert WithValue(t, t[0].1)[0] == t[0];
      assert r[0] == t[0];
      forall v ensures WithValue(r[1..], v) == WithValue(t[1..], v) {
        assert WithValue(r, v) == WithValue(t, v);
        if r[0].1 == v {
          assert WithValue(r, v)[1..] == WithValue(r[1..], v);
          assert WithValue(t, v)[1..] == WithValue(t[1..], v);
        }
      }
      StableDescendingUnique(r[1..], t[1..]);
      assert r == [r[0]] + r[1..] && t == [t[0]] + t[1..];
    }
  }
}
