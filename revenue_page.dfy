/** The revenue page: the time window each filter asks the statistics for, the chart series
    built from the statistics' accumulators, and the merchant ranking with its percentages. */
module RevenuePage {
  import opened Wrappers
  import opened Sums
  import opened Dict
  import opened Ordering
  import opened Receipts
  import opened RevenueStats

  datatype Lang = En | Id

  /** A day of the month, as the local-time getter reports it. */
  type DayOfMonth = d: int | 1 <= d <= 31 witness 1

  /** The calendar and locale functions the page uses, left abstract: local midnight, the
      first of the month and the first of January of a time; the day of the month of a daily
      key; and the locale-formatted labels of an hourly key (time of day), a daily key
      (short weekday) and a daily key's month (short month name). */
  datatype PageCalendar = PageCalendar(
    startOfDay: int -> int,
    startOfMonth: int -> int,
    startOfYear: int -> int,
    dayOfMonth: string -> DayOfMonth,
    hourLabel: (Lang, string) -> string,
    weekdayLabel: (Lang, string) -> string,
    monthLabel: (Lang, string) -> string)

  /** The calendar facts about `now` the window lemmas rely on. */
  predicate CalendarOrdered(cal: PageCalendar, now: int)
  {
    cal.startOfYear(now) <= cal.startOfMonth(now) <= cal.startOfDay(now) <= now
  }

  const MillisPerWeek: int := 7 * 24 * 60 * 60 * 1000

  // ---------------------------------------------------------------- filter to window

  /** The window a filter asks for: the end is always now; the start is local midnight, a
      week ago, the first of the month or the first of January, and undefined for any other
      filter value. */
  function WindowFor(filter: string, now: int, cal: PageCalendar): (w: (Option<int>, Option<int>))
    ensures w.1 == Some(now)
    ensures w.0.Some? <==> filter in {"today", "week", "month", "year"}
    ensures filter == "today" ==> w.0 == Some(cal.startOfDay(now))
    ensures filter == "week" ==> w.0 == Some(now - 604800000)
    ensures filter == "month" ==> w.0 == Some(cal.startOfMonth(now))
    ensures filter == "year" ==> w.0 == Some(cal.startOfYear(now))
  {
    var start :=
      if filter == "today" then Some(cal.startOfDay(now))
      else if filter == "week" then Some(now - MillisPerWeek)
      else if filter == "month" then Some(cal.startOfMonth(now))
      else if filter == "year" then Some(cal.startOfYear(now))
      else None;
    (start, Some(now))
  }

  /** Narrowing the start of an inclusive window keeps exactly the receipts of the wider
      window's selection that the narrower window also selects, in the same order. */
  lemma {:induction false} QueryNarrows(all: seq<Receipt>, userId: string, wide: int, narrow: int, end: int)
    requires wide <= narrow
    ensures Query(all, userId, Some(narrow), Some(end))
      == Query(Query(all, userId, Some(wide), Some(end)), userId, Some(narrow), Some(end))
  {
    if all != [] {
      QueryNarrows(all[1..], userId, wide, narrow, end);
      var rest := Query(all[1..], userId, Some(wide), Some(end));
      if Selected(all[0], userId, Some(wide), Some(end)) {
        assert ([all[0]] + rest)[1..] == rest;
      }
    }
  }

  /** The filters' selections refine one another: today's receipts are those of the month's
      selection from local midnight on, the month's those of the year's from the first of the
      month on, and, when midnight lies within the last seven days, today's are those of the
      week's from midnight on. */
  lemma {:induction false} WindowsNested(all: seq<Receipt>, userId: string, now: int, cal: PageCalendar)
    requires CalendarOrdered(cal, now)
    ensures var today := WindowFor("today", now, cal);
      var month := WindowFor("month", now, cal);
      var year := WindowFor("year", now, cal);
      && Query(all, userId, today.0, today.1)
           == Query(Query(all, userId, month.0, month.1), userId, today.0, today.1)
      && Query(all, userId, month.0, month.1)
           == Query(Query(all, userId, year.0, year.1), userId, month.0, month.1)
    ensures var today := WindowFor("today", now, cal);
      var week := WindowFor("week", now, cal);
      now - MillisPerWeek <= cal.startOfDay(now) ==>
        Query(all, userId, today.0, today.1)
          == Query(Query(all, userId, week.0, week.1), userId, today.0, today.1)
  {
    assert WindowFor("today", now, cal) == (Some(cal.startOfDay(now)), Some(now));
    assert WindowFor("week", now, cal) == (Some(now - MillisPerWeek), Some(now));
    assert WindowFor("month", now, cal) == (Some(cal.startOfMonth(now)), Some(now));
    assert WindowFor("year", now, cal) == (Some(cal.startOfYear(now)), Some(now));
    QueryNarrows(all, userId, cal.startOfMonth(now), cal.startOfDay(now), now);
    QueryNarrows(all, userId, cal.startOfYear(now), cal.startOfMonth(now), now);
    if now - MillisPerWeek <= cal.startOfDay(now) {
      QueryNarrows(all, userId, now - MillisPerWeek, cal.startOfDay(now), now);
    }
  }

  /** An unrecognised filter selects all of the user's receipts. */
  lemma UnrecognisedFilterSelectsAll(all: seq<Receipt>, userId: string, filter: string, now: int, cal: PageCalendar)
    requires filter !in {"today", "week", "month", "year"}
    ensures var w := WindowFor(filter, now, cal);
      Query(all, userId, w.0, w.1) == Query(all, userId, None, None)
  {
    var w := WindowFor(filter, now, cal);
    HalfOpenWindowIgnored(all, userId, w.0, w.1);
  }

  /** A receipt in a narrower window is in the wider one: today within month within year. */
  lemma WindowSelectionNested(all: seq<Receipt>, userId: string, now: int, cal: PageCalendar, r: Receipt)
    requires CalendarOrdered(cal, now)
    ensures var today := WindowFor("today", now, cal);
      var month := WindowFor("month", now, cal);
      var year := WindowFor("year", now, cal);
      && (r in Query(all, userId, today.0, today.1) ==> r in Query(all, userId, month.0, month.1))
      && (r in Query(all, userId, month.0, month.1) ==> r in Query(all, userId, year.0, year.1))
  {
  }

  // ---------------------------------------------------------------- chart series

  datatype ChartPoint = ChartPoint(date: string, revenue: int)

  function Revenue(p: ChartPoint): int { p.revenue }

  /** Each entry as a point labelled from its key. */
  function Labelled(s: Entries, lang: Lang, labelOf: (Lang, string) -> string): (ps: seq<ChartPoint>)
    ensures |ps| == |s|
    ensures forall i :: 0 <= i < |s| ==> ps[i] == ChartPoint(labelOf(lang, s[i].0), s[i].1)
  {
    seq(|s|, i requires 0 <= i < |s| => ChartPoint(labelOf(lang, s[i].0), s[i].1))
  }

  lemma {:induction false} LabelledRevenue(s: Entries, lang: Lang, labelOf: (Lang, string) -> string)
    ensures SumOf(Labelled(s, lang, labelOf), Revenue) == Total(s)
  {
    if s != [] {
      LabelledRevenue(s[1..], lang, labelOf);
      assert Labelled(s, lang, labelOf)[1..] == Labelled(s[1..], lang, labelOf);
    }
  }

  /** The last seven entries, or all of them when there are fewer. */
  function LastSeven(s: Entries): (t: Entries)
    ensures |t| == if |s| < 7 then |s| else 7
    ensures t == s[|s| - |t|..]
  {
    if |s| <= 7 then s else s[|s| - 7..]
  }

  /** The week of the month a day falls in: the day divided by seven, rounded up. */
  function WeekNumber(day: DayOfMonth): (w: int)
    ensures 1 <= w <= 5
    ensures (w - 1) * 7 < day <= w * 7
  {
    (day + 6) / 7
  }

  /** The accumulator key of a week, `week` followed by its number. */
  function WeekKey(w: int): string
    requires 1 <= w <= 5
  {
    "week" + [('0' as int + w) as char]
  }

  function WeekKeyOfDay(cal: PageCalendar): string -> string
  {
    date => WeekKey(WeekNumber(cal.dayOfMonth(date)))
  }

  function MonthKeyOfDay(cal: PageCalendar, lang: Lang): string -> string
  {
    date => cal.monthLabel(lang, date)
  }

  /** A string with the first occurrence of `pattern` replaced. */
  function ReplaceFirst(s: string, pattern: string, replacement: string): string
    decreases |s|
  {
    if |s| < |pattern| then s
    else if s[..|pattern|] == pattern then replacement + s[|pattern|..]
    else [s[0]] + ReplaceFirst(s[1..], pattern, replacement)
  }

  /** The label of a week key: `Week n` in English, `Minggu n` in Indonesian. */
  function WeekLabel(lang: Lang, key: string): string
  {
    if lang == Id then ReplaceFirst(key, "week", "Minggu ") else "Week " + ReplaceFirst(key, "week", "")
  }

  /** The label a week's point shows. */
  function WeekLabelText(lang: Lang, w: int): string
    requires 1 <= w <= 5
  {
    (if lang == Id then "Minggu " else "Week ") + [('0' as int + w) as char]
  }

  lemma WeekLabelOfKey(lang: Lang, w: int)
    requires 1 <= w <= 5
    ensures WeekLabel(lang, WeekKey(w)) == WeekLabelText(lang, w)
  {
    var key := WeekKey(w);
    assert key[..4] == "week";
  }

  /** Each entry's key mapped through `f`, amounts unchanged. */
  function Regroup(s: Entries, f: string -> string): (p: Entries)
    ensures |p| == |s|
    ensures forall i :: 0 <= i < |s| ==> p[i] == (f(s[i].0), s[i].1)
  {
    seq(|s|, i requires 0 <= i < |s| => (f(s[i].0), s[i].1))
  }

  /** The accumulator after the first `n` entries of `s` have been added under their
      mapped keys. */
  function Grouped(s: Entries, n: nat, f: string -> string): Entries
    requires n <= |s|
  {
    if n == 0 then [] else Add(Grouped(s, n - 1, f), f(s[n - 1].0), s[n - 1].1)
  }

  lemma {:induction false} GroupedIsTally(s: Entries, n: nat, f: string -> string)
    requires n <= |s|
    ensures Grouped(s, n, f) == Tally(Regroup(s[..n], f))
  {
    if n > 0 {
      GroupedIsTally(s, n - 1, f);
      var p := Regroup(s[..n], f);
      assert p[..|p| - 1] == Regroup(s[..n - 1], f);
    }
  }

  /** Re-bucketing keeps the total, and yields one entry per distinct mapped key, in order of
      first appearance, holding the sum of the entries mapped to it. */
  lemma Rebucketed(s: Entries, f: string -> string, k: string)
    ensures var g := Tally(Regroup(s, f));
      && Total(g) == Total(s)
      && DistinctKeys(g)
      && KeySeq(g) == FirstAppearances(KeySeq(Regroup(s, f)))
      && (k in Keys(g) <==> exists i :: 0 <= i < |s| && f(s[i].0) == k)
      && Get(g, k) == SumFor(Regroup(s, f), k)
  {
    var p := Regroup(s, f);
    TallyTotal(p);
    RegroupTotal(s, f);
    TallyKeyOrder(p);
    TallyKeys(p);
    KeysMembership(p, k);
    TallyGet(p, k);
  }

  lemma {:induction false} RegroupTotal(s: Entries, f: string -> string)
    ensures Total(Regroup(s, f)) == Total(s)
  {
    if s != [] {
      RegroupTotal(s[1..], f);
      assert Regroup(s, f)[1..] == Regroup(s[1..], f);
    }
  }

  /** The week series' points. */
  function WeekPoints(weekly: Entries, lang: Lang): seq<ChartPoint>
  {
    Labelled(weekly, lang, WeekLabel)
  }

  /** The year series' points: the month labels are the keys already. */
  function MonthPoints(monthly: Entries): (ps: seq<ChartPoint>)
    ensures |ps| == |monthly|
    ensures forall i :: 0 <= i < |monthly| ==> ps[i] == ChartPoint(monthly[i].0, monthly[i].1)
  {
    seq(|monthly|, i requires 0 <= i < |monthly| => ChartPoint(monthly[i].0, monthly[i].1))
  }

  lemma {:induction false} MonthPointsRevenue(monthly: Entries)
    ensures SumOf(MonthPoints(monthly), Revenue) == Total(monthly)
  {
    if monthly != [] {
      MonthPointsRevenue(monthly[1..]);
      assert MonthPoints(monthly)[1..] == MonthPoints(monthly[1..]);
    }
  }

  /** `getChartData`: the chart series for the filter, from the statistics (none while they
      are not loaded). `today` shows each hour in key order; `week` the last seven days in key
      order; `month` the days summed into weeks of the month; `year` the days summed into
      months; any other filter nothing. */
  method GetChartData(stats: Option<Stats>, filter: string, lang: Lang, cal: PageCalendar) returns (points: seq<ChartPoint>)
    ensures stats.None? || filter !in {"today", "week", "month", "year"} ==> points == []
    ensures stats.Some? && filter == "today" ==>
      points == Labelled(SortByKey(stats.value.hourlyRevenue), lang, cal.hourLabel)
    ensures stats.Some? && filter == "week" ==>
      points == Labelled(LastSeven(SortByKey(stats.value.dailyRevenue)), lang, cal.weekdayLabel)
    ensures stats.Some? && filter == "month" ==>
      && points == WeekPoints(Tally(Regroup(SortByKey(stats.value.dailyRevenue), WeekKeyOfDay(cal))), lang)
      && SumOf(points, Revenue) == Total(stats.value.dailyRevenue)
    ensures stats.Some? && filter == "year" ==>
      && points == MonthPoints(Tally(Regroup(SortByKey(stats.value.dailyRevenue), MonthKeyOfDay(cal, lang))))
      && SumOf(points, Revenue) == Total(stats.value.dailyRevenue)
  {
    if stats.None? {
      return [];
    }
    var st := stats.value;
    if filter == "today" {
      points := Labelled(SortByKey(st.hourlyRevenue), lang, cal.hourLabel);
    } else if filter == "week" {
      points := Labelled(LastSeven(SortByKey(st.dailyRevenue)), lang, cal.weekdayLabel);
    } else if filter == "month" {
      var days := SortByKey(st.dailyRevenue);
      var weeklyData: Entries := [];
      var i := 0;
      while i < |days|
        invariant 0 <= i <= |days|
        invariant weeklyData == Grouped(days, i, WeekKeyOfDay(cal))
      {
        var date := days[i].0;
        var revenue := days[i].1;
        var dayOfMonth: int := cal.dayOfMonth(date);
        var week: int := (dayOfMonth + 6) / 7;
        var weekKey := "week" + [('0' as int + week) as char];
        weeklyData := Add(weeklyData, weekKey, revenue);
        i := i + 1;
      }
      GroupedIsTally(days, i, WeekKeyOfDay(cal));
      assert days[..i] == days;
      points := WeekPoints(weeklyData, lang);
      LabelledRevenue(weeklyData, lang, WeekLabel);
      DaysTotal(st.dailyRevenue, WeekKeyOfDay(cal));
    } else if filter == "year" {
      var days := SortByKey(st.dailyRevenue);
      var monthlyData: Entries := [];
      var i := 0;
      while i < |days|
        invariant 0 <= i <= |days|
        invariant monthlyData == Grouped(days, i, MonthKeyOfDay(cal, lang))
      {
        var date := days[i].0;
        var revenue := days[i].1;
        var monthKey := cal.monthLabel(lang, date);
        monthlyData := Add(monthlyData, monthKey, revenue);
        i := i + 1;
      }
      GroupedIsTally(days, i, MonthKeyOfDay(cal, lang));
      assert days[..i] == days;
      points := MonthPoints(monthlyData);
      MonthPointsRevenue(monthlyData);
      DaysTotal(st.dailyRevenue, MonthKeyOfDay(cal, lang));
    } else {
      points := [];
    }
  }

  /** Sorting the days and re-bucketing them keeps the total. */
  lemma DaysTotal(daily: Entries, f: string -> string)
    ensures Total(Tally(Regroup(SortByKey(daily), f))) == Total(daily)
  {
    var days := SortByKey(daily);
    SortByKeyCorrect(daily);
    SumOfPermutation(days, daily, Value);
    TallyTotal(Regroup(days, f));
    RegroupTotal(days, f);
  }

  /** The `today` series: one point per hour, in ascending key order, with the hour's revenue;
      together they sum to the day's revenue. */
  lemma TodaySeries(hourly: Entries, lang: Lang, cal: PageCalendar)
    requires DistinctKeys(hourly)
    ensures var sorted := SortByKey(hourly);
      var ps := Labelled(sorted, lang, cal.hourLabel);
      && |ps| == |hourly|
      && multiset(sorted) == multiset(hourly)
      && (forall i, j :: 0 <= i < j < |sorted| ==> StrLess(sorted[i].0, sorted[j].0))
      && (forall i :: 0 <= i < |ps| ==> ps[i].revenue == sorted[i].1 && ps[i].date == cal.hourLabel(lang, sorted[i].0))
      && SumOf(ps, Revenue) == Total(hourly)
  {
    var sorted := SortByKey(hourly);
    SortByKeyCorrect(hourly);
    SortByKeyStrict(hourly);
    assert |sorted| == |multiset(sorted)| == |hourly|;
    LabelledRevenue(sorted, lang, cal.hourLabel);
    SumOfPermutation(sorted, hourly, Value);
  }

  /** The `week` series: the min(7, n) latest days in ascending key order; every day left out
      has a key before every day shown. */
  lemma WeekSeries(daily: Entries, lang: Lang, cal: PageCalendar)
    requires DistinctKeys(daily)
    ensures var sorted := SortByKey(daily);
      var shown := LastSeven(sorted);
      var ps := Labelled(shown, lang, cal.weekdayLabel);
      && |ps| == (if |daily| < 7 then |daily| else 7)
      && (forall i, j :: 0 <= i < j < |shown| ==> StrLess(shown[i].0, shown[j].0))
      && (forall i, j :: 0 <= i < |sorted| - |shown| <= j < |sorted| ==> StrLess(sorted[i].0, sorted[j].0))
      && (forall e :: e in shown ==> e in daily)
  {
    var sorted := SortByKey(daily);
    SortByKeyCorrect(daily);
    SortByKeyStrict(daily);
    assert |sorted| == |multiset(sorted)| == |daily|;
    var shown := LastSeven(sorted);
    forall e | e in shown ensures e in daily {
      assert e in multiset(sorted);
    }
  }

  /** The `month` series: no week appears twice, the weeks appear in order of their first
      day, each holds the revenue of its days, and together they keep the total. */
  lemma MonthSeries(daily: Entries, cal: PageCalendar, w: int)
    requires 1 <= w <= 5
    ensures var days := SortByKey(daily);
      var weekly := Tally(Regroup(days, WeekKeyOfDay(cal)));
      && Total(weekly) == Total(daily)
      && DistinctKeys(weekly)
      && KeySeq(weekly) == FirstAppearances(KeySeq(Regroup(days, WeekKeyOfDay(cal))))
      && Get(weekly, WeekKey(w)) == SumFor(Regroup(days, WeekKeyOfDay(cal)), WeekKey(w))
  {
    var days := SortByKey(daily);
    DaysTotal(daily, WeekKeyOfDay(cal));
    Rebucketed(days, WeekKeyOfDay(cal), WeekKey(w));
  }

  /** Every point of the `month` series is one of the weeks 1 to 5, labelled `Week n` or
      `Minggu n`. */
  lemma MonthSeriesLabels(daily: Entries, lang: Lang, cal: PageCalendar, i: int)
    requires 0 <= i < |Tally(Regroup(SortByKey(daily), WeekKeyOfDay(cal)))|
    ensures var weekly := Tally(Regroup(SortByKey(daily), WeekKeyOfDay(cal)));
      exists v :: 1 <= v <= 5 && weekly[i].0 == WeekKey(v) && WeekPoints(weekly, lang)[i].date == WeekLabelText(lang, v)
  {
    var days := SortByKey(daily);
    var f := WeekKeyOfDay(cal);
    var weekly := Tally(Regroup(days, f));
    var k := weekly[i].0;
    KeysMembership(weekly, k);
    Rebucketed(days, f, k);
    var j :| 0 <= j < |days| && f(days[j].0) == k;
    var v := WeekNumber(cal.dayOfMonth(days[j].0));
    assert k == WeekKey(v);
    WeekLabelOfKey(lang, v);
    assert WeekPoints(weekly, lang)[i].date == WeekLabel(lang, k);
  }

  /** The `year` series: one point per distinct month label of the days, in order of first
      appearance, holding the revenue of that month's days; together they keep the total. */
  lemma YearSeries(daily: Entries, lang: Lang, cal: PageCalendar, monthName: string)
    ensures var days := SortByKey(daily);
      var monthly := Tally(Regroup(days, MonthKeyOfDay(cal, lang)));
      && Total(monthly) == Total(daily)
      && DistinctKeys(monthly)
      && (monthName in Keys(monthly) <==> exists e :: e in daily && cal.monthLabel(lang, e.0) == monthName)
      && Get(monthly, monthName) == SumFor(Regroup(days, MonthKeyOfDay(cal, lang)), monthName)
  {
    var days := SortByKey(daily);
    var f := MonthKeyOfDay(cal, lang);
    DaysTotal(daily, f);
    Rebucketed(days, f, monthName);
    SortByKeyCorrect(daily);
    if monthName in Keys(Tally(Regroup(days, f))) {
      var i :| 0 <= i < |days| && f(days[i].0) == monthName;
      assert days[i] in multiset(daily);
    }
    if e :| e in daily && cal.monthLabel(lang, e.0) == monthName {
      assert e in multiset(days);
      var i :| 0 <= i < |days| && days[i] == e;
      assert f(days[i].0) == monthName;
    }
  }

  // ---------------------------------------------------------------- merchant ranking

  /** The merchants ranked by revenue, highest first, ties in insertion order; nothing while
      the statistics are not loaded. */
  function MerchantData(stats: Option<Stats>): (ranked: Entries)
    ensures stats.None? ==> ranked == []
    ensures stats.Some? ==>
      && multiset(ranked) == multiset(stats.value.merchantBreakdown)
      && RevenueDescending(ranked)
      && forall v :: WithValue(ranked, v) == WithValue(stats.value.merchantBreakdown, v)
  {
    if stats.Some? then
      SortByRevenueDescCorrect(stats.value.merchantBreakdown);
      SortByRevenueDesc(stats.value.merchantBreakdown)
    else []
  }

  /** The ranking is a permutation of the merchant breakdown, non-increasing in revenue, and
      the only such order that keeps merchants of equal revenue in insertion order. */
  lemma MerchantRanking(stats: Stats, other: Entries)
    ensures var ranked := MerchantData(Some(stats));
      && multiset(ranked) == multiset(stats.merchantBreakdown)
      && RevenueDescending(ranked)
      && (forall v :: WithValue(ranked, v) == WithValue(stats.merchantBreakdown, v))
      && ((RevenueDescending(other) && forall v :: WithValue(other, v) == WithValue(stats.merchantBreakdown, v))
            ==> other == ranked)
  {
    var ranked := MerchantData(Some(stats));
    SortByRevenueDescCorrect(stats.merchantBreakdown);
    if RevenueDescending(other) && (forall v :: WithValue(other, v) == WithValue(stats.merchantBreakdown, v)) {
      StableDescendingUnique(other, ranked);
    }
  }

  /** The revenue as a whole percentage of the total, rounded to nearest with halves up:
      the p with p - 1/2 <= 100 * revenue / total < p + 1/2. None (NaN or an infinity) when
      the total is zero. */
  function Percentage(revenue: int, total: int): (p: Option<int>)
    ensures p.Some? <==> total != 0
    ensures total != 0 ==>
      var t := if total > 0 then total else -total;
      var r := if total > 0 then revenue else -revenue;
      (2 * p.value - 1) * t <= 200 * r < (2 * p.value + 1) * t
  {
    if total == 0 then None
    else
      var t := if total > 0 then total else -total;
      var r := if total > 0 then revenue else -revenue;
      var q := (200 * r + t) / (2 * t);
      var m := (200 * r + t) % (2 * t);
      assert 200 * r + t == 2 * t * q + m && 0 <= m < 2 * t;
      Some(q)
  }

  lemma PercentageBounds(revenue: int, total: int)
    requires 0 <= revenue <= total && total > 0
    ensures 0 <= Percentage(revenue, total).value <= 100
  {
    var p := Percentage(revenue, total).value;
    assert 200 * revenue <= 200 * total;
    ScaleDown(2 * p - 1, 200, total);
    StrictScaleDown(0, 2 * p + 1, total);
  }

  /** The value of a shown percentage, zero where none is shown. */
  function ShownValue(p: Option<int>): int
  {
    if p.Some? then p.value else 0
  }

  /** The rounded percentages of the entries of `s` against the total `t`, in list order. */
  function Percentages(s: Entries, t: int): (ps: seq<Option<int>>)
    ensures |ps| == |s|
    ensures forall i :: 0 <= i < |s| ==> ps[i] == Percentage(s[i].1, t)
  {
    if s == [] then [] else [Percentage(s[0].1, t)] + Percentages(s[1..], t)
  }

  /** The percentages the merchant list shows, each against the sum of all merchants'
      revenue: none when that sum is zero; otherwise each is the rounding of its share with
      halves up, lies in 0..100 when no revenue is negative, and together they add up to 100
      give or take half the number of merchants. */
  function Shares(ranked: Entries): (ps: seq<Option<int>>)
    ensures |ps| == |ranked|
    ensures Total(ranked) == 0 ==> forall i :: 0 <= i < |ps| ==> ps[i].None?
    ensures Total(ranked) > 0 ==> forall i :: 0 <= i < |ps| ==>
      && ps[i].Some?
      && (2 * ps[i].value - 1) * Total(ranked) <= 200 * ranked[i].1 < (2 * ps[i].value + 1) * Total(ranked)
    ensures Total(ranked) > 0 && (forall i :: 0 <= i < |ranked| ==> ranked[i].1 >= 0) ==>
      forall i :: 0 <= i < |ps| ==> 0 <= ps[i].value <= 100
    ensures Total(ranked) > 0 ==> 200 - |ranked| < 2 * SumOf(ps, ShownValue) <= 200 + |ranked|
  {
    var t := Total(ranked);
    if t > 0 then
      PercentagesNearHundred(ranked);
      if forall i :: 0 <= i < |ranked| ==> ranked[i].1 >= 0 then
        PercentagesInRange(ranked);
        Percentages(ranked, t)
      else
        Percentages(ranked, t)
    else
      Percentages(ranked, t)
  }

  /** The rounded percentages of n entries, doubled, lie within n of 200 times their share of
      a positive total, and strictly below the upper bound when there is an entry. */
  lemma {:induction false} PercentagesSumBounds(s: Entries, t: int)
    requires t > 0
    ensures var sum := SumOf(Percentages(s, t), ShownValue);
      (2 * sum - |s|) * t <= 200 * Total(s) <= (2 * sum + |s|) * t
    ensures var sum := SumOf(Percentages(s, t), ShownValue);
      s != [] ==> 200 * Total(s) < (2 * sum + |s|) * t
  {
    if s != [] {
      var rest := s[1..];
      PercentagesSumBounds(rest, t);
      var ps := Percentages(s, t);
      assert ps[1..] == Percentages(rest, t);
      var p := Percentage(s[0].1, t).value;
      var q := SumOf(Percentages(rest, t), ShownValue);
      var n := |rest|;
      assert SumOf(ps, ShownValue) == p + q && |s| == n + 1 && Total(s) == s[0].1 + Total(rest);
      Distribute(2 * p - 1, 2 * q - n, t);
      Distribute(2 * p + 1, 2 * q + n, t);
      assert (2 * p - 1) + (2 * q - n) == 2 * (p + q) - (n + 1);
      assert (2 * p + 1) + (2 * q + n) == 2 * (p + q) + (n + 1);
    }
  }

  lemma Distribute(a: int, b: int, t: int)
    ensures (a + b) * t == a * t + b * t
  {
  }

  /** With a positive total, the n percentages of the entries add up to 100 give or take n/2. */
  lemma {:induction false} PercentagesNearHundred(s: Entries)
    requires Total(s) > 0
    ensures 200 - |s| < 2 * SumOf(Percentages(s, Total(s)), ShownValue) <= 200 + |s|
  {
    var t := Total(s);
    PercentagesSumBounds(s, t);
    NearHundred(SumOf(Percentages(s, t), ShownValue), |s|, t);
  }

  lemma NearHundred(sum: int, n: int, t: int)
    requires t > 0
    requires (2 * sum - n) * t <= 200 * t < (2 * sum + n) * t
    ensures 200 - n < 2 * sum <= 200 + n
  {
    ScaleDown(2 * sum - n, 200, t);
    StrictScaleDown(200, 2 * sum + n, t);
  }

  /** Every percentage lies in 0..100 when the revenues are non-negative and their total is
      positive. */
  lemma {:induction false} PercentagesInRange(s: Entries)
    requires forall i :: 0 <= i < |s| ==> s[i].1 >= 0
    requires Total(s) > 0
    ensures forall i :: 0 <= i < |s| ==> 0 <= Percentages(s, Total(s))[i].value <= 100
  {
    forall i | 0 <= i < |s|
      ensures 0 <= Percentages(s, Total(s))[i].value <= 100
    {
      EntryAtMostTotal(s, i);
      PercentageBounds(s[i].1, Total(s));
    }
  }

  lemma {:induction false} EntryAtMostTotal(s: Entries, i: int)
    requires 0 <= i < |s|
    requires forall j :: 0 <= j < |s| ==> s[j].1 >= 0
    ensures s[i].1 <= Total(s)
  {
    NonNegativeTotal(s[1..]);
    if i > 0 {
      EntryAtMostTotal(s[1..], i - 1);
    }
  }

  lemma {:induction false} NonNegativeTotal(s: Entries)
    requires forall j :: 0 <= j < |s| ==> s[j].1 >= 0
    ensures Total(s) >= 0
  {
    if s != [] {
      NonNegativeTotal(s[1..]);
    }
  }

  /** Cancelling a positive factor. */
  lemma ScaleDown(a: int, b: int, t: int)
    requires t > 0 && a * t <= b * t
    ensures a <= b
  {
    if a > b {
      Distribute(a - b, b, t);
      MulPositive(a - b, t);
    }
  }

  lemma StrictScaleDown(a: int, b: int, t: int)
    requires t > 0 && a * t < b * t
    ensures a < b
  {
    if a >= b {
      Distribute(a - b, b, t);
      if a > b {
        MulPositive(a - b, t);
      }
    }
  }

  lemma MulPositive(x: int, t: int)
    requires x > 0 && t > 0
    ensures x * t > 0
  {
  }
}
