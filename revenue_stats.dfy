/** `getRevenueStats`: selecting a user's receipts, optionally within a time window, and
    aggregating them into totals, an average and five string-keyed accumulators. */
module RevenueStats {
  import opened Wrappers
  import opened Sums
  import opened Dict
  import opened Receipts

  /** The calendar functions the aggregation uses, left abstract: the month key comes from the
      local-time getters (`YYYY-MM`), the day and hour keys from the UTC ISO form
      (`YYYY-MM-DD`, `YYYY-MM-DDTHH`), and `parseIso` is the JavaScript date parser, which yields no
      time (an Invalid Date) for text it cannot parse. */
  datatype DateKeys = DateKeys(
    monthKey: int -> string,
    dayKey: int -> string,
    hourKey: int -> string,
    parseIso: string -> Option<int>)

  datatype Stats = Stats(
    totalRevenue: int,
    totalReceipts: nat,
    averageTransaction: real,
    hourlyRevenue: Entries,
    monthlyRevenue: Entries,
    dailyRevenue: Entries,
    categoryBreakdown: Entries,
    merchantBreakdown: Entries)

  /** Formatting an invalid date as an ISO string throws a RangeError. */
  datatype StatsError = InvalidTimeValue

  const UnknownMerchant: string := "Unknown Merchant"

  // ---------------------------------------------------------------- selection

  /** The store query: the user's receipts and, only when both bounds are given, those whose
      `createdAt` Timestamp lies in the inclusive window. A range filter on a Timestamp matches
      only Timestamp values. */
  predicate Selected(r: Receipt, userId: string, startDate: Option<int>, endDate: Option<int>)
  {
    && r.userId == userId
    && (startDate.Some? && endDate.Some? ==>
          r.createdAt.Stamp? && startDate.value <= r.createdAt.millis <= endDate.value)
  }

  function Query(all: seq<Receipt>, userId: string, startDate: Option<int>, endDate: Option<int>): (rs: seq<Receipt>)
    ensures |rs| <= |all|
    ensures forall r :: r in rs <==> r in all && Selected(r, userId, startDate, endDate)
  {
    if all == [] then []
    else
      var rest := Query(all[1..], userId, startDate, endDate);
      assert all == [all[0]] + all[1..];
      if Selected(all[0], userId, startDate, endDate) then [all[0]] + rest else rest
  }

  /** Without both bounds there is no window: all of the user's receipts are aggregated. */
  lemma {:induction false} HalfOpenWindowIgnored(all: seq<Receipt>, userId: string, startDate: Option<int>, endDate: Option<int>)
    requires startDate.None? || endDate.None?
    ensures Query(all, userId, startDate, endDate) == Query(all, userId, None, None)
  {
    if all != [] {
      HalfOpenWindowIgnored(all[1..], userId, startDate, endDate);
    }
  }

  // ---------------------------------------------------------------- bucket labels

  /** The receipt's date: a Timestamp's own time, a string as the date parser reads it, and the
      current time for any other value. */
  function EffectiveTime(v: TimeValue, now: int, keys: DateKeys): (t: Option<int>)
    ensures t.None? <==> v.Text? && keys.parseIso(v.text).None?
    ensures v.Text? ==> t == keys.parseIso(v.text)
    ensures v.Stamp? ==> t == Some(v.millis)
    ensures v.Other? ==> t == Some(now)
  {
    match v
    case Stamp(t) => Some(t)
    case Text(s) => keys.parseIso(s)
    case Other => Some(now)
  }

  ghost predicate AllDated(rs: seq<Receipt>, now: int, keys: DateKeys)
  {
    forall i :: 0 <= i < |rs| ==> EffectiveTime(rs[i].createdAt, now, keys).Some?
  }

  function MerchantName(r: Receipt): string
  {
    if r.storeName != "" then r.storeName else UnknownMerchant
  }

  datatype Dimension = Monthly | Daily | Hourly | ByCategory | ByMerchant

  /** The key a receipt is credited under in one accumulator, or None when it is not credited
      there (no category, or a date that cannot be determined). */
  function LabelOf(r: Receipt, dim: Dimension, now: int, keys: DateKeys): Option<string>
  {
    match dim
    case ByCategory => if r.category != "" then Some(r.category) else None
    case ByMerchant => Some(MerchantName(r))
    case _ =>
      match EffectiveTime(r.createdAt, now, keys)
      case None => None
      case Some(t) =>
        Some(if dim == Monthly then keys.monthKey(t) else if dim == Daily then keys.dayKey(t) else keys.hourKey(t))
  }

  /** The (key, amount) additions one accumulator receives, in receipt order. */
  function Pairs(rs: seq<Receipt>, dim: Dimension, now: int, keys: DateKeys): Entries
  {
    if rs == [] then []
    else
      var r := rs[|rs| - 1];
      Pairs(rs[..|rs| - 1], dim, now, keys)
        + match LabelOf(r, dim, now, keys) case None => [] case Some(k) => [(k, r.totalAmount)]
  }

  /** Sum of the amounts of the receipts credited under `k`. */
  function BucketSum(rs: seq<Receipt>, dim: Dimension, now: int, keys: DateKeys, k: string): int
  {
    if rs == [] then 0
    else
      var r := rs[|rs| - 1];
      BucketSum(rs[..|rs| - 1], dim, now, keys, k) + (if LabelOf(r, dim, now, keys) == Some(k) then r.totalAmount else 0)
  }

  /** Some receipt is credited under `k`. */
  ghost predicate Credited(rs: seq<Receipt>, dim: Dimension, now: int, keys: DateKeys, k: string)
  {
    exists r :: r in rs && LabelOf(r, dim, now, keys) == Some(k)
  }

  /** The average amount: zero when there are no receipts. */
  function Average(total: int, count: nat): (avg: real)
    ensures count > 0 ==> avg * (count as real) == total as real
    ensures count == 0 ==> avg == 0.0
  {
    if count > 0 then total as real / count as real else 0.0
  }

  /** The statistics `getRevenueStats` returns for the selected receipts `rs`. */
  function StatsOf(rs: seq<Receipt>, now: int, keys: DateKeys): Stats
  {
    Stats(
      SumAmounts(rs),
      |rs|,
      Average(SumAmounts(rs), |rs|),
      Tally(Pairs(rs, Hourly, now, keys)),
      Tally(Pairs(rs, Monthly, now, keys)),
      Tally(Pairs(rs, Daily, now, keys)),
      Tally(Pairs(rs, ByCategory, now, keys)),
      Tally(Pairs(rs, ByMerchant, now, keys)))
  }

  // ---------------------------------------------------------------- the aggregation loop

  /** One receipt's addition to one accumulator. */
  function Credit(acc: Entries, r: Receipt, dim: Dimension, now: int, keys: DateKeys): Entries
  {
    match LabelOf(r, dim, now, keys)
    case None => acc
    case Some(k) => Add(acc, k, r.totalAmount)
  }

  /** The accumulator after the first `n` receipts have been credited in order. */
  function Accumulated(rs: seq<Receipt>, n: nat, dim: Dimension, now: int, keys: DateKeys): Entries
    requires n <= |rs|
  {
    if n == 0 then [] else Credit(Accumulated(rs, n - 1, dim, now, keys), rs[n - 1], dim, now, keys)
  }

  /** Crediting the receipts one by one is tallying their additions. */
  lemma {:induction false} AccumulatedIsTally(rs: seq<Receipt>, n: nat, dim: Dimension, now: int, keys: DateKeys)
    requires n <= |rs|
    ensures Accumulated(rs, n, dim, now, keys) == Tally(Pairs(rs[..n], dim, now, keys))
  {
    if n > 0 {
      AccumulatedIsTally(rs, n - 1, dim, now, keys);
      var prefix := rs[..n];
      assert prefix[..n - 1] == rs[..n - 1];
      assert prefix[n - 1] == rs[n - 1];
      var p := Pairs(prefix, dim, now, keys);
      match LabelOf(rs[n - 1], dim, now, keys)
      case None =>
        assert p == Pairs(rs[..n - 1], dim, now, keys);
      case Some(k) =>
        assert p == Pairs(rs[..n - 1], dim, now, keys) + [(k, rs[n - 1].totalAmount)];
        assert p[..|p| - 1] == Pairs(rs[..n - 1], dim, now, keys);
    }
  }

  /** The first `n` receipts all have a determinable date. */
  predicate DatedPrefix(rs: seq<Receipt>, n: nat, now: int, keys: DateKeys)
    requires n <= |rs|
  {
    n == 0 || (DatedPrefix(rs, n - 1, now, keys) && EffectiveTime(rs[n - 1].createdAt, now, keys).Some?)
  }

  lemma {:induction false} DatedPrefixAll(rs: seq<Receipt>, n: nat, now: int, keys: DateKeys)
    requires n == |rs|
    requires DatedPrefix(rs, n, now, keys)
    ensures AllDated(rs, now, keys)
  {
    forall j | 0 <= j < |rs|
      ensures EffectiveTime(rs[j].createdAt, now, keys).Some?
    {
      DatedPrefixAt(rs, n, j, now, keys);
    }
  }

  lemma {:induction false} DatedPrefixAt(rs: seq<Receipt>, n: nat, j: nat, now: int, keys: DateKeys)
    requires j < n <= |rs|
    requires DatedPrefix(rs, n, now, keys)
    ensures EffectiveTime(rs[j].createdAt, now, keys).Some?
  {
    if j < n - 1 {
      DatedPrefixAt(rs, n - 1, j, now, keys);
    }
  }

  lemma UndatedReceipt(rs: seq<Receipt>, i: nat, now: int, keys: DateKeys)
    requires i < |rs|
    requires EffectiveTime(rs[i].createdAt, now, keys).None?
    ensures !AllDated(rs, now, keys)
  {
  }

  /** Crediting one dated receipt: its amount goes under its month, day and hour keys, its
      category when it has one, and its merchant name. */
  lemma CreditStep(rs: seq<Receipt>, i: nat, date: int, now: int, keys: DateKeys)
    requires i < |rs|
    requires EffectiveTime(rs[i].createdAt, now, keys) == Some(date)
    ensures Accumulated(rs, i + 1, Monthly, now, keys) == Add(Accumulated(rs, i, Monthly, now, keys), keys.monthKey(date), rs[i].totalAmount)
    ensures Accumulated(rs, i + 1, Daily, now, keys) == Add(Accumulated(rs, i, Daily, now, keys), keys.dayKey(date), rs[i].totalAmount)
    ensures Accumulated(rs, i + 1, Hourly, now, keys) == Add(Accumulated(rs, i, Hourly, now, keys), keys.hourKey(date), rs[i].totalAmount)
    ensures Accumulated(rs, i + 1, ByCategory, now, keys) ==
      if rs[i].category != "" then Add(Accumulated(rs, i, ByCategory, now, keys), rs[i].category, rs[i].totalAmount)
      else Accumulated(rs, i, ByCategory, now, keys)
    ensures Accumulated(rs, i + 1, ByMerchant, now, keys) == Add(Accumulated(rs, i, ByMerchant, now, keys), MerchantName(rs[i]), rs[i].totalAmount)
  {
  }

  /** The statistics of the receipts, with the accumulators as the loop builds them. */
  lemma StatsOfAccumulated(rs: seq<Receipt>, now: int, keys: DateKeys)
    ensures StatsOf(rs, now, keys) == Stats(
      SumAmounts(rs), |rs|, Average(SumAmounts(rs), |rs|),
      Accumulated(rs, |rs|, Hourly, now, keys),
      Accumulated(rs, |rs|, Monthly, now, keys),
      Accumulated(rs, |rs|, Daily, now, keys),
      Accumulated(rs, |rs|, ByCategory, now, keys),
      Accumulated(rs, |rs|, ByMerchant, now, keys))
  {
    assert rs[..|rs|] == rs;
    AccumulatedIsTally(rs, |rs|, Monthly, now, keys);
    AccumulatedIsTally(rs, |rs|, Daily, now, keys);
    AccumulatedIsTally(rs, |rs|, Hourly, now, keys);
    AccumulatedIsTally(rs, |rs|, ByCategory, now, keys);
    AccumulatedIsTally(rs, |rs|, ByMerchant, now, keys);
  }

  /** `getRevenueStats` for `userId` and the optional bounds, over the store's receipts `all`:
      the store query, then the aggregation of the receipts it returns. */
  method GetRevenueStats(all: seq<Receipt>, userId: string, startDate: Option<int>, endDate: Option<int>, now: int, keys: DateKeys)
    returns (result: Result<Stats, StatsError>)
    ensures var rs := Query(all, userId, startDate, endDate);
      && (result.Success? <==> AllDated(rs, now, keys))
      && (result.Success? ==> result.value == StatsOf(rs, now, keys))
      && (result.Failure? ==> result.error == InvalidTimeValue)
  {
    var receipts := Query(all, userId, startDate, endDate);
    result := Aggregate(receipts, now, keys);
  }

  /** The aggregation of the selected receipts. `now` is the current time used for receipts
      whose `createdAt` is neither a Timestamp nor a string. It fails exactly when some
      receipt has a `createdAt` string that does not parse. */
  method Aggregate(receipts: seq<Receipt>, now: int, keys: DateKeys) returns (result: Result<Stats, StatsError>)
    ensures result.Success? <==> AllDated(receipts, now, keys)
    ensures result.Success? ==> result.value == StatsOf(receipts, now, keys)
    ensures result.Failure? ==> result.error == InvalidTimeValue
  {
    var totalRevenue := SumAmounts(receipts);
    var totalReceipts := |receipts|;
    var averageTransaction := Average(totalRevenue, totalReceipts);

    var monthlyRevenue: Entries := [];
    var dailyRevenue: Entries := [];
    var hourlyRevenue: Entries := [];
    var categoryBreakdown: Entries := [];
    var merchantBreakdown: Entries := [];

    var i := 0;
    while i < |receipts|
      invariant 0 <= i <= |receipts|
      invariant DatedPrefix(receipts, i, now, keys)
      invariant monthlyRevenue == Accumulated(receipts, i, Monthly, now, keys)
      invariant dailyRevenue == Accumulated(receipts, i, Daily, now, keys)
      invariant hourlyRevenue == Accumulated(receipts, i, Hourly, now, keys)
      invariant categoryBreakdown == Accumulated(receipts, i, ByCategory, now, keys)
      invariant merchantBreakdown == Accumulated(receipts, i, ByMerchant, now, keys)
    {
      var receipt := receipts[i];

      var receiptDate: int;
      match receipt.createdAt {
        case Stamp(t) =>
          receiptDate := t;
        case Text(s) =>
          var parsed := keys.parseIso(s);
          if parsed.None? {
            UndatedReceipt(receipts, i, now, keys);
            return Failure(InvalidTimeValue);
          }
          receiptDate := parsed.value;
        case Other =>
          receiptDate := now;
      }

      assert EffectiveTime(receipt.createdAt, now, keys) == Some(receiptDate);
      var monthKey := keys.monthKey(receiptDate);
      var dayKey := keys.dayKey(receiptDate);
      var hourKey := keys.hourKey(receiptDate);
      var merchantName := if receipt.storeName != "" then receipt.storeName else UnknownMerchant;
      CreditStep(receipts, i, receiptDate, now, keys);
      monthlyRevenue := Add(monthlyRevenue, monthKey, receipt.totalAmount);
      dailyRevenue := Add(dailyRevenue, dayKey, receipt.totalAmount);
      hourlyRevenue := Add(hourlyRevenue, hourKey, receipt.totalAmount);

      if receipt.category != "" {
        categoryBreakdown := Add(categoryBreakdown, receipt.category, receipt.totalAmount);
      }

      merchantBreakdown := Add(merchantBreakdown, merchantName, receipt.totalAmount);

      i := i + 1;
    }
    StatsOfAccumulated(receipts, now, keys);
    DatedPrefixAll(receipts, i, now, keys);
    result := Success(Stats(
      totalRevenue, totalReceipts, averageTransaction,
      hourlyRevenue, monthlyRevenue, dailyRevenue, categoryBreakdown, merchantBreakdown));
  }

  // ---------------------------------------------------------------- properties of the statistics

  /** When every receipt is credited in an accumulator, its additions sum to the total revenue. */
  lemma {:induction false} PairsTotal(rs: seq<Receipt>, dim: Dimension, now: int, keys: DateKeys)
    requires forall i :: 0 <= i < |rs| ==> LabelOf(rs[i], dim, now, keys).Some?
    ensures Total(Pairs(rs, dim, now, keys)) == SumAmounts(rs)
  {
    if rs != [] {
      var init := rs[..|rs| - 1];
      var r := rs[|rs| - 1];
      PairsTotal(init, dim, now, keys);
      var k := LabelOf(r, dim, now, keys).value;
      assert Pairs(rs, dim, now, keys) == Pairs(init, dim, now, keys) + [(k, r.totalAmount)];
      SumOfAppend(Pairs(init, dim, now, keys), [(k, r.totalAmount)], Value);
      assert rs == init + [r];
      SumOfAppend(init, [r], Amount);
    }
  }

  /** The amount a receipt contributes to the category breakdown. */
  function CategorisedAmount(r: Receipt): int
  {
    if r.category != "" then r.totalAmount else 0
  }

  /** The category accumulator receives one (category, amount) addition for each receipt with
      a non-empty category and no other, and so sums to those receipts' revenue. */
  lemma {:induction false} CategoryPairsTotal(rs: seq<Receipt>, now: int, keys: DateKeys)
    ensures forall e :: e in Pairs(rs, ByCategory, now, keys) <==>
      exists r :: r in rs && r.category != "" && e == (r.category, r.totalAmount)
    ensures Total(Pairs(rs, ByCategory, now, keys)) == SumOf(rs, CategorisedAmount)
  {
    if rs != [] {
      var init := rs[..|rs| - 1];
      var r := rs[|rs| - 1];
      CategoryPairsTotal(init, now, keys);
      assert rs == init + [r];
      SumOfAppend(init, [r], CategorisedAmount);
      var p := Pairs(init, ByCategory, now, keys);
      if r.category != "" {
        assert Pairs(rs, ByCategory, now, keys) == p + [(r.category, r.totalAmount)];
        SumOfAppend(p, [(r.category, r.totalAmount)], Value);
      } else {
        assert Pairs(rs, ByCategory, now, keys) == p;
      }
      forall e
        ensures e in Pairs(rs, ByCategory, now, keys) <==>
          exists q :: q in rs && q.category != "" && e == (q.category, q.totalAmount)
      {
        if e in p {
          var q :| q in init && q.category != "" && e == (q.category, q.totalAmount);
          assert q in rs;
        }
        if exists q :: q in rs && q.category != "" && e == (q.category, q.totalAmount) {
          var q :| q in rs && q.category != "" && e == (q.category, q.totalAmount);
          if q != r {
            assert q in init;
          }
        }
      }
    }
  }

  /** The totals: the receipt count, and every date and merchant accumulator summing to the
      total revenue. */
  lemma StatsTotals(rs: seq<Receipt>, now: int, keys: DateKeys)
    requires AllDated(rs, now, keys)
    ensures var st := StatsOf(rs, now, keys);
      && st.totalReceipts == |rs|
      && st.totalRevenue == SumAmounts(rs)
      && Total(st.monthlyRevenue) == st.totalRevenue
      && Total(st.dailyRevenue) == st.totalRevenue
      && Total(st.hourlyRevenue) == st.totalRevenue
      && Total(st.merchantBreakdown) == st.totalRevenue
  {
    DatedTotal(rs, Monthly, now, keys);
    DatedTotal(rs, Daily, now, keys);
    DatedTotal(rs, Hourly, now, keys);
    MerchantTotal(rs, now, keys);
  }

  /** The category breakdown sums to the revenue of the categorised receipts, which for
      non-negative amounts lies between zero and the total. */
  lemma CategoryTotal(rs: seq<Receipt>, now: int, keys: DateKeys)
    ensures var st := StatsOf(rs, now, keys);
      && Total(st.categoryBreakdown) == SumOf(rs, CategorisedAmount)
      && ((forall i :: 0 <= i < |rs| ==> rs[i].totalAmount >= 0) ==>
            0 <= Total(st.categoryBreakdown) <= st.totalRevenue)
  {
    CategoryPairsTotal(rs, now, keys);
    TallyTotal(Pairs(rs, ByCategory, now, keys));
    if forall i :: 0 <= i < |rs| ==> rs[i].totalAmount >= 0 {
      CategorisedBounds(rs);
    }
  }

  lemma {:induction false} CategorisedBounds(rs: seq<Receipt>)
    requires forall i :: 0 <= i < |rs| ==> rs[i].totalAmount >= 0
    ensures 0 <= SumOf(rs, CategorisedAmount) <= SumAmounts(rs)
  {
    if rs != [] {
      CategorisedBounds(rs[1..]);
    }
  }

  lemma DatedTotal(rs: seq<Receipt>, dim: Dimension, now: int, keys: DateKeys)
    requires dim == Monthly || dim == Daily || dim == Hourly
    requires AllDated(rs, now, keys)
    ensures Total(Tally(Pairs(rs, dim, now, keys))) == SumAmounts(rs)
  {
    PairsTotal(rs, dim, now, keys);
    TallyTotal(Pairs(rs, dim, now, keys));
  }

  /** The merchant accumulator always sums to the total revenue: every receipt has a merchant
      name, whatever its date. */
  lemma MerchantTotal(rs: seq<Receipt>, now: int, keys: DateKeys)
    ensures Total(StatsOf(rs, now, keys).merchantBreakdown) == SumAmounts(rs)
  {
    PairsTotal(rs, ByMerchant, now, keys);
    TallyTotal(Pairs(rs, ByMerchant, now, keys));
  }

  lemma {:induction false} PairsSumFor(rs: seq<Receipt>, dim: Dimension, now: int, keys: DateKeys, k: string)
    ensures SumFor(Pairs(rs, dim, now, keys), k) == BucketSum(rs, dim, now, keys, k)
  {
    if rs != [] {
      var init := rs[..|rs| - 1];
      var r := rs[|rs| - 1];
      PairsSumFor(init, dim, now, keys, k);
      var p := Pairs(rs, dim, now, keys);
      match LabelOf(r, dim, now, keys)
      case None =>
        assert p == Pairs(init, dim, now, keys);
      case Some(l) =>
        assert p == Pairs(init, dim, now, keys) + [(l, r.totalAmount)];
        assert p[..|p| - 1] == Pairs(init, dim, now, keys);
    }
  }

  lemma {:induction false} PairsKeys(rs: seq<Receipt>, dim: Dimension, now: int, keys: DateKeys, k: string)
    ensures k in Keys(Pairs(rs, dim, now, keys)) <==> Credited(rs, dim, now, keys, k)
  {
    if rs != [] {
      var init := rs[..|rs| - 1];
      var r := rs[|rs| - 1];
      PairsKeys(init, dim, now, keys, k);
      assert rs == init + [r];
      assert Credited(rs, dim, now, keys, k) <==> Credited(init, dim, now, keys, k) || LabelOf(r, dim, now, keys) == Some(k);
      match LabelOf(r, dim, now, keys)
      case None =>
        assert Pairs(rs, dim, now, keys) == Pairs(init, dim, now, keys);
      case Some(l) =>
        KeysAppend(Pairs(init, dim, now, keys), [(l, r.totalAmount)]);
    }
  }

  /** Each accumulator holds exactly the keys some selected receipt is credited under, and
      under each key the sum of the amounts of the receipts credited there. */
  lemma Buckets(rs: seq<Receipt>, dim: Dimension, now: int, keys: DateKeys, k: string)
    ensures var acc := Tally(Pairs(rs, dim, now, keys));
      && (k in Keys(acc) <==> Credited(rs, dim, now, keys, k))
      && Get(acc, k) == BucketSum(rs, dim, now, keys, k)
      && DistinctKeys(acc)
  {
    PairsKeys(rs, dim, now, keys, k);
    TallyKeys(Pairs(rs, dim, now, keys));
    TallyGet(Pairs(rs, dim, now, keys), k);
    PairsSumFor(rs, dim, now, keys, k);
    TallyKeyOrder(Pairs(rs, dim, now, keys));
  }

  /** The average times the count gives back the total; no receipts give all zeros. */
  lemma {:induction false} AverageTransaction(rs: seq<Receipt>, now: int, keys: DateKeys)
    ensures var st := StatsOf(rs, now, keys);
      && (|rs| > 0 ==> st.averageTransaction * (|rs| as real) == st.totalRevenue as real)
      && (rs == [] ==> st == Stats(0, 0, 0.0, [], [], [], [], []))
  {
    var total, count := SumAmounts(rs), |rs|;
    assert StatsOf(rs, now, keys).averageTransaction == Average(total, count);
  }

  // ---------------------------------------------------------------- order independence

  function BucketAmount(r: Receipt, dim: Dimension, now: int, keys: DateKeys, k: string): int
  {
    if LabelOf(r, dim, now, keys) == Some(k) then r.totalAmount else 0
  }

  lemma {:induction false} BucketSumAsSumOf(rs: seq<Receipt>, dim: Dimension, now: int, keys: DateKeys, k: string)
    ensures BucketSum(rs, dim, now, keys, k) == SumOf(rs, r => BucketAmount(r, dim, now, keys, k))
  {
    if rs != [] {
      var init := rs[..|rs| - 1];
      var r := rs[|rs| - 1];
      BucketSumAsSumOf(init, dim, now, keys, k);
      assert rs == init + [r];
      SumOfAppend(init, [r], r => BucketAmount(r, dim, now, keys, k));
    }
  }

  /** The statistics do not depend on the order the store returns the receipts in: totals,
      average, and every accumulator as a key-to-amount map agree for any reordering (only the
      insertion order of the keys differs). */
  lemma OrderIndependent(rs: seq<Receipt>, qs: seq<Receipt>, now: int, keys: DateKeys)
    requires multiset(rs) == multiset(qs)
    ensures var a := StatsOf(rs, now, keys);
      var b := StatsOf(qs, now, keys);
      && a.totalRevenue == b.totalRevenue
      && a.totalReceipts == b.totalReceipts
      && a.averageTransaction == b.averageTransaction
      && AsMap(a.monthlyRevenue) == AsMap(b.monthlyRevenue)
      && AsMap(a.dailyRevenue) == AsMap(b.dailyRevenue)
      && AsMap(a.hourlyRevenue) == AsMap(b.hourlyRevenue)
      && AsMap(a.categoryBreakdown) == AsMap(b.categoryBreakdown)
      && AsMap(a.merchantBreakdown) == AsMap(b.merchantBreakdown)
  {
    SumOfPermutation(rs, qs, Amount);
    assert |rs| == |multiset(rs)| == |qs|;
    forall dim
      ensures AsMap(Tally(Pairs(rs, dim, now, keys))) == AsMap(Tally(Pairs(qs, dim, now, keys)))
    {
      SameBuckets(rs, qs, dim, now, keys);
    }
  }

  lemma SameBuckets(rs: seq<Receipt>, qs: seq<Receipt>, dim: Dimension, now: int, keys: DateKeys)
    requires multiset(rs) == multiset(qs)
    ensures AsMap(Tally(Pairs(rs, dim, now, keys))) == AsMap(Tally(Pairs(qs, dim, now, keys)))
  {
    var a := Tally(Pairs(rs, dim, now, keys));
    var b := Tally(Pairs(qs, dim, now, keys));
    assert forall r :: r in rs <==> r in qs by {
      forall r ensures r in rs <==> r in qs {
        assert r in rs <==> r in multiset(rs);
        assert r in qs <==> r in multiset(qs);
      }
    }
    forall k ensures k in Keys(a) <==> k in Keys(b) {
      Buckets(rs, dim, now, keys, k);
      Buckets(qs, dim, now, keys, k);
    }
    forall k | k in Keys(a)
      ensures Get(a, k) == Get(b, k)
    {
      Buckets(rs, dim, now, keys, k);
      Buckets(qs, dim, now, keys, k);
      BucketSumAsSumOf(rs, dim, now, keys, k);
      BucketSumAsSumOf(qs, dim, now, keys, k);
      SumOfPermutation(rs, qs, r => BucketAmount(r, dim, now, keys, k));
    }
  }
}
