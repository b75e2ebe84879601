/** `searchReceipts`: a case-insensitive substring search over a user's receipts, on the store
    name and the item names, keeping the store's order. */
module Search {
  import opened Wrappers
  import opened Receipts
  import opened RevenueStats

  /** Lower-casing, on ASCII letters only. */
  function LowerChar(c: char): (l: char)
    ensures 'A' <= c <= 'Z' ==> l as int == c as int + 32
    ensures !('A' <= c <= 'Z') ==> l == c
  {
    if 'A' <= c <= 'Z' then (c as int + 32) as char else c
  }

  function Lower(s: string): (l: string)
    ensures |l| == |s|
    ensures forall i :: 0 <= i < |s| ==> l[i] == LowerChar(s[i])
  {
    seq(|s|, i requires 0 <= i < |s| => LowerChar(s[i]))
  }

  lemma LowerIdempotent(s: string)
    ensures Lower(Lower(s)) == Lower(s)
  {
    assert forall i :: 0 <= i < |s| ==> LowerChar(LowerChar(s[i])) == LowerChar(s[i]);
  }

  predicate OccursAt(s: string, t: string, i: nat)
  {
    i + |t| <= |s| && s[i..i + |t|] == t
  }

  /** `t` occurs in `s` at some position. */
  predicate Contains(s: string, t: string)
  {
    exists i: nat | i <= |s| :: OccursAt(s, t, i)
  }

  lemma ContainsEmpty(s: string)
    ensures Contains(s, "")
  {
    assert OccursAt(s, "", 0);
  }

  /** The receipt's store name or one of its item names contains the term, ignoring case. */
  predicate Matches(r: Receipt, term: string)
  {
    || Contains(Lower(r.storeName), Lower(term))
    || exists j :: 0 <= j < |r.items| && Contains(Lower(r.items[j].name), Lower(term))
  }

  /** The client-side filter, in order. */
  function FilterMatching(rs: seq<Receipt>, term: string): (found: seq<Receipt>)
    ensures |found| <= |rs|
    ensures forall r {:trigger r in found} :: r in found <==> r in rs && Matches(r, term)
  {
    if rs == [] then []
    else
      var rest := FilterMatching(rs[1..], term);
      assert rs == [rs[0]] + rs[1..];
      if Matches(rs[0], term) then [rs[0]] + rest else rest
  }

  /** `searchReceipts` for `userId` and `term` over the store's receipts `all`, given in the order
      the store query returns them. */
  function SearchReceipts(all: seq<Receipt>, userId: string, term: string): (found: seq<Receipt>)
    ensures |found| <= |all|
    ensures forall r :: r in found <==> r in all && r.userId == userId && Matches(r, term)
  {
    FilterMatching(Query(all, userId, None, None), term)
  }

  /** Filtering distributes over concatenation: what is found keeps the receipts' order. */
  lemma {:induction false} FilterMatchingAppend(a: seq<Receipt>, b: seq<Receipt>, term: string)
    ensures FilterMatching(a + b, term) == FilterMatching(a, term) + FilterMatching(b, term)
  {
    if a == [] {
      assert a + b == b;
    } else {
      var ab := a + b;
      assert ab[1..] == a[1..] + b && ab[0] == a[0];
      FilterMatchingAppend(a[1..], b, term);
      var tail := FilterMatching(a[1..], term);
      if Matches(a[0], term) {
        assert FilterMatching(a, term) == [a[0]] + tail;
        assert FilterMatching(ab, term) == [a[0]] + FilterMatching(ab[1..], term);
        assert [a[0]] + (tail + FilterMatching(b, term)) == ([a[0]] + tail) + FilterMatching(b, term);
      } else {
        assert FilterMatching(a, term) == tail;
        assert FilterMatching(ab, term) == FilterMatching(ab[1..], term);
      }
    }
  }

  /** An empty term matches every receipt: all of the user's receipts come back, in order. */
  lemma {:induction false} EmptyTermFindsAll(rs: seq<Receipt>)
    ensures FilterMatching(rs, "") == rs
  {
    if rs != [] {
      ContainsEmpty(Lower(rs[0].storeName));
      EmptyTermFindsAll(rs[1..]);
    }
  }

  lemma SearchEmptyTerm(all: seq<Receipt>, userId: string)
    ensures SearchReceipts(all, userId, "") == Query(all, userId, None, None)
  {
    EmptyTermFindsAll(Query(all, userId, None, None));
  }

  /** The search ignores the case of the term. */
  lemma {:induction false} SearchIgnoresCase(rs: seq<Receipt>, term: string)
    ensures FilterMatching(rs, Lower(term)) == FilterMatching(rs, term)
  {
    LowerIdempotent(term);
    if rs != [] {
      SearchIgnoresCase(rs[1..], term);
    }
  }

  /** Searching the results again with the same term finds them all. */
  lemma {:induction false} FilterMatchingIdempotent(rs: seq<Receipt>, term: string)
    ensures FilterMatching(FilterMatching(rs, term), term) == FilterMatching(rs, term)
  {
    if rs != [] {
      FilterMatchingIdempotent(rs[1..], term);
    }
  }
}
