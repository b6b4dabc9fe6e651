/**
 * The aggregation of the trends endpoint (src/app/api/trends/route.ts): the
 * statistics rows of the period are summed per week, and over the whole
 * period. The week a date belongs to is given by `weekOf`.
 */
module Trends {
  import opened Wrappers
  import opened Records
  import SuburbGrouping
  import Text

  /** A statistics row as the endpoint selects it */
  datatype Trend = Trend(
    suburb: string,
    state: string,
    date: Date,
    totalAuctions: nat,
    soldCount: nat,
    clearanceRate: real,
    averagePrice: Option<real>,
    medianPrice: Option<real>)

  /** `trend.averagePrice` is truthy: present and not zero */
  predicate Priced(t: Trend) {
    t.averagePrice.Some? && t.averagePrice.value != 0.0
  }

  function Auctions(t: Trend): nat { t.totalAuctions }

  function Sold(t: Trend): nat { t.soldCount }

  /** The sum of `f` over the rows */
  function Total(ts: seq<Trend>, f: Trend -> nat): nat {
    if ts == [] then 0 else Total(ts[..|ts| - 1], f) + f(ts[|ts| - 1])
  }

  /** The sold value of a priced row: its mean price times its sold count */
  function Value(t: Trend): real {
    if Priced(t) then t.averagePrice.value * t.soldCount as real else 0.0
  }

  /** The sold value of the priced rows */
  function TotalValue(ts: seq<Trend>): real {
    if ts == [] then 0.0 else TotalValue(ts[..|ts| - 1]) + Value(ts[|ts| - 1])
  }

  // ------------------------------------------------------------------- weeks

  /** The distinct weeks of the rows, in order of first appearance */
  function WeekOrder(ts: seq<Trend>, weekOf: Date -> string): (ws: seq<string>)
    ensures forall i, j :: 0 <= i < j < |ws| ==> ws[i] != ws[j]
  {
    if ts == [] then []
    else
      var front := WeekOrder(ts[..|ts| - 1], weekOf);
      var w := weekOf(ts[|ts| - 1].date);
      if w in front then front else front + [w]
  }

  /** The rows of week `w`, in their order */
  function InWeek(ts: seq<Trend>, weekOf: Date -> string, w: string): (g: seq<Trend>)
    ensures |g| <= |ts|
    ensures forall j :: 0 <= j < |g| ==> weekOf(g[j].date) == w
  {
    if ts == [] then []
    else
      var last := ts[|ts| - 1];
      InWeek(ts[..|ts| - 1], weekOf, w) + (if weekOf(last.date) == w then [last] else [])
  }

  /** One more row: its week is listed if new */
  lemma WeekStep(ts: seq<Trend>, t: Trend, weekOf: Date -> string)
    ensures WeekOrder(ts + [t], weekOf) ==
      if weekOf(t.date) in WeekOrder(ts, weekOf) then WeekOrder(ts, weekOf) else WeekOrder(ts, weekOf) + [weekOf(t.date)]
  {
    assert (ts + [t])[..|ts|] == ts;
  }

  /** One more row joins the end of the rows of its week */
  lemma InWeekStep(ts: seq<Trend>, t: Trend, weekOf: Date -> string, w: string)
    ensures InWeek(ts + [t], weekOf, w) == InWeek(ts, weekOf, w) + (if weekOf(t.date) == w then [t] else [])
  {
    assert (ts + [t])[..|ts|] == ts;
  }

  /** A row leaves the rows of the other weeks as they were */
  lemma OtherWeekUnchanged(ts: seq<Trend>, t: Trend, weekOf: Date -> string, w: string)
    requires weekOf(t.date) != w
    ensures InWeek(ts + [t], weekOf, w) == InWeek(ts, weekOf, w)
  {
    assert (ts + [t])[..|ts|] == ts;
    assert InWeek(ts, weekOf, w) + [] == InWeek(ts, weekOf, w);
  }

  /** A row of another week leaves the totals of a week unchanged */
  lemma OtherWeekTotalsUnchanged(ts: seq<Trend>, t: Trend, weekOf: Date -> string, w: string)
    requires weekOf(t.date) != w && |InWeek(ts, weekOf, w)| > 0
    ensures |InWeek(ts + [t], weekOf, w)| > 0 && TotalsOf(ts + [t], weekOf, w) == TotalsOf(ts, weekOf, w)
  {
    OtherWeekUnchanged(ts, t, weekOf, w);
  }

  /** A week that no row falls in has no rows */
  lemma {:induction false} NoRowsOutsideWeekOrder(ts: seq<Trend>, weekOf: Date -> string, w: string)
    requires w !in WeekOrder(ts, weekOf)
    ensures InWeek(ts, weekOf, w) == []
  {
    if ts != [] {
      assert weekOf(ts[|ts| - 1].date) in WeekOrder(ts, weekOf);
      NoRowsOutsideWeekOrder(ts[..|ts| - 1], weekOf, w);
    }
  }

  /** Every listed week has rows */
  lemma {:induction false} WeekOrderHasRows(ts: seq<Trend>, weekOf: Date -> string, w: string)
    requires w in WeekOrder(ts, weekOf)
    ensures |InWeek(ts, weekOf, w)| > 0
  {
    if weekOf(ts[|ts| - 1].date) != w {
      WeekOrderHasRows(ts[..|ts| - 1], weekOf, w);
    }
  }

  /** The running totals `groupTrendsByWeek` keeps for one week */
  datatype WeekTotals = WeekTotals(week: string, date: Date, totalAuctions: nat, soldCount: nat, totalValue: real, count: nat)

  /** The totals of week `w`: the date of its first row and sums over its rows */
  function TotalsOf(ts: seq<Trend>, weekOf: Date -> string, w: string): (r: WeekTotals)
    requires |InWeek(ts, weekOf, w)| > 0
    ensures r.week == w && weekOf(r.date) == w
    ensures r.count == |InWeek(ts, weekOf, w)|
    ensures r.date == InWeek(ts, weekOf, w)[0].date
    ensures r.totalAuctions == Total(InWeek(ts, weekOf, w), Auctions) && r.soldCount == Total(InWeek(ts, weekOf, w), Sold)
    ensures r.totalValue == TotalValue(InWeek(ts, weekOf, w))
  {
    var g := InWeek(ts, weekOf, w);
    WeekTotals(w, g[0].date, Total(g, Auctions), Total(g, Sold), TotalValue(g), |g|)
  }

  /** A week's entry of the response */
  datatype WeekTrend = WeekTrend(week: string, date: Date, totalAuctions: nat, soldCount: nat, clearanceRate: real, averagePrice: Option<real>)

  /**
   * The entry of one week: its clearance rate, and its sold value over its
   * whole sold count, `null` when nothing sold.
   */
  function Summary(t: WeekTotals): (r: WeekTrend)
    ensures r.week == t.week && r.date == t.date
    ensures r.totalAuctions == t.totalAuctions && r.soldCount == t.soldCount
    ensures r.averagePrice.None? <==> t.soldCount == 0
    ensures t.totalAuctions == 0 ==> r.clearanceRate == 0.0
    ensures t.soldCount <= t.totalAuctions ==> 0.0 <= r.clearanceRate <= 100.0
  {
    WeekTrend(t.week, t.date, t.totalAuctions, t.soldCount,
      SuburbGrouping.ClearanceRate(t.totalAuctions, t.soldCount),
      if t.soldCount > 0 then Some(t.totalValue / t.soldCount as real) else None)
  }

  /** The entries of all weeks, in order of first appearance */
  function WeeklyTrends(ts: seq<Trend>, weekOf: Date -> string): (weeks: seq<WeekTrend>)
    ensures |weeks| == |WeekOrder(ts, weekOf)|
    ensures forall j :: 0 <= j < |weeks| ==> weeks[j].week == WeekOrder(ts, weekOf)[j]
  {
    var ws := WeekOrder(ts, weekOf);
    seq(|ws|, j requires 0 <= j < |ws| =>
      WeekOrderHasRows(ts, weekOf, ws[j]);
      Summary(TotalsOf(ts, weekOf, ws[j])))
  }

  /** The rows of a week after one more row of that week, and their sums */
  lemma WeekRowsStep(ts: seq<Trend>, t: Trend, weekOf: Date -> string)
    ensures var w := weekOf(t.date);
      var g := InWeek(ts, weekOf, w);
      var g' := InWeek(ts + [t], weekOf, w);
      && g' == g + [t]
      && g'[0].date == (if g == [] then t.date else g[0].date)
      && Total(g', Auctions) == Total(g, Auctions) + t.totalAuctions
      && Total(g', Sold) == Total(g, Sold) + t.soldCount
      && TotalValue(g') == TotalValue(g) + Value(t)
  {
    InWeekStep(ts, t, weekOf, weekOf(t.date));
    var g := InWeek(ts, weekOf, weekOf(t.date));
    assert (g + [t])[..|g|] == g;
  }

  /** `order` and `grouped` hold the weeks of `ts` and the running totals of each */
  ghost predicate Accumulated(order: seq<string>, grouped: map<string, WeekTotals>, ts: seq<Trend>, weekOf: Date -> string) {
    && order == WeekOrder(ts, weekOf)
    && KeysListed(order, grouped)
    && HoldsTotals(grouped, ts, weekOf)
  }

  /** The weeks in the map are the listed ones */
  ghost predicate KeysListed(order: seq<string>, grouped: map<string, WeekTotals>) {
    forall w :: w in grouped <==> w in order
  }

  /** Every week in the map has rows and holds their totals */
  ghost predicate HoldsTotals(grouped: map<string, WeekTotals>, ts: seq<Trend>, weekOf: Date -> string) {
    forall w :: w in grouped ==> |InWeek(ts, weekOf, w)| > 0 && grouped[w] == TotalsOf(ts, weekOf, w)
  }

  /** One row of the first loop of `groupTrendsByWeek`: its week's entry is created if new, then added to */
  method AddRow(order: seq<string>, grouped: map<string, WeekTotals>, t: Trend, weekOf: Date -> string, ghost ts: seq<Trend>)
    returns (order': seq<string>, grouped': map<string, WeekTotals>)
    requires Accumulated(order, grouped, ts, weekOf)
    ensures Accumulated(order', grouped', ts + [t], weekOf)
  {
    var weekKey := weekOf(t.date);
    WeekSoFar(order, grouped, ts, weekOf, weekKey);
    order', grouped' := order, grouped;
    if weekKey !in grouped' {
      order' := order' + [weekKey];
      grouped' := grouped'[weekKey := WeekTotals(weekKey, t.date, 0, 0, 0.0, 0)];
    }
    var week := grouped'[weekKey];
    TotalsStep(ts, t, weekOf, week);
    week := AddToWeek(week, t);
    grouped' := grouped'[weekKey := week];
    RowAccumulated(order, grouped, ts, t, weekOf, order', week);
  }

  /** What the running totals hold for a week before the next row: its totals, or nothing when it is new */
  lemma WeekSoFar(order: seq<string>, grouped: map<string, WeekTotals>, ts: seq<Trend>, weekOf: Date -> string, w: string)
    requires Accumulated(order, grouped, ts, weekOf)
    ensures w in grouped ==> |InWeek(ts, weekOf, w)| > 0 && grouped[w] == TotalsOf(ts, weekOf, w)
    ensures w !in grouped ==> |InWeek(ts, weekOf, w)| == 0
  {
    if w !in grouped {
      NoRowsOutsideWeekOrder(ts, weekOf, w);
    }
  }

  /** The weeks and totals after one more row, from those before it */
  lemma RowAccumulated(order: seq<string>, grouped: map<string, WeekTotals>, ts: seq<Trend>, t: Trend,
                       weekOf: Date -> string, order': seq<string>, week: WeekTotals)
    requires Accumulated(order, grouped, ts, weekOf)
    requires order' == if weekOf(t.date) in grouped then order else order + [weekOf(t.date)]
    requires |InWeek(ts + [t], weekOf, weekOf(t.date))| > 0
    requires week == TotalsOf(ts + [t], weekOf, weekOf(t.date))
    ensures Accumulated(order', grouped[weekOf(t.date) := week], ts + [t], weekOf)
  {
    WeekStep(ts, t, weekOf);
    KeysAfterRow(order, grouped, weekOf(t.date), order', week);
    TotalsAfterRow(grouped, ts, t, weekOf, week);
  }

  /** Listing a new week and giving it an entry keeps the map's weeks the listed ones */
  lemma KeysAfterRow(order: seq<string>, grouped: map<string, WeekTotals>, weekKey: string, order': seq<string>, week: WeekTotals)
    requires KeysListed(order, grouped)
    requires order' == if weekKey in grouped then order else order + [weekKey]
    ensures KeysListed(order', grouped[weekKey := week])
  {
  }

  /** The row's week holding its new totals keeps every week's totals */
  lemma TotalsAfterRow(grouped: map<string, WeekTotals>, ts: seq<Trend>, t: Trend, weekOf: Date -> string, week: WeekTotals)
    requires HoldsTotals(grouped, ts, weekOf)
    requires |InWeek(ts + [t], weekOf, weekOf(t.date))| > 0
    requires week == TotalsOf(ts + [t], weekOf, weekOf(t.date))
    ensures HoldsTotals(grouped[weekOf(t.date) := week], ts + [t], weekOf)
  {
    forall w | w in grouped[weekOf(t.date) := week]
      ensures |InWeek(ts + [t], weekOf, w)| > 0 && grouped[weekOf(t.date) := week][w] == TotalsOf(ts + [t], weekOf, w)
    {
      WeekEntryAfterRow(grouped, ts, t, weekOf, week, w);
    }
  }

  /** The entry of one week after a row: the new totals for the row's week, the old ones for the others */
  lemma WeekEntryAfterRow(grouped: map<string, WeekTotals>, ts: seq<Trend>, t: Trend,
                          weekOf: Date -> string, week: WeekTotals, w: string)
    requires w in grouped[weekOf(t.date) := week]
    requires w in grouped ==> |InWeek(ts, weekOf, w)| > 0 && grouped[w] == TotalsOf(ts, weekOf, w)
    requires |InWeek(ts + [t], weekOf, weekOf(t.date))| > 0
    requires week == TotalsOf(ts + [t], weekOf, weekOf(t.date))
    ensures |InWeek(ts + [t], weekOf, w)| > 0 && grouped[weekOf(t.date) := week][w] == TotalsOf(ts + [t], weekOf, w)
  {
    if w != weekOf(t.date) {
      OtherWeekTotalsUnchanged(ts, t, weekOf, w);
    }
  }

  /** A row added to the running totals of its week */
  method AddToWeek(week: WeekTotals, t: Trend) returns (week': WeekTotals)
    ensures week' == WeekTotals(week.week, week.date, week.totalAuctions + t.totalAuctions,
      week.soldCount + t.soldCount, week.totalValue + Value(t), week.count + 1)
  {
    var totalValue := week.totalValue;
    if t.averagePrice.Some? && t.averagePrice.value != 0.0 {
      totalValue := totalValue + t.averagePrice.value * t.soldCount as real;
    }
    week' := WeekTotals(week.week, week.date, week.totalAuctions + t.totalAuctions,
      week.soldCount + t.soldCount, totalValue, week.count + 1);
  }

  /** The totals of a row's week after the row, from the totals before it (zero for a new week) */
  lemma TotalsStep(ts: seq<Trend>, t: Trend, weekOf: Date -> string, week: WeekTotals)
    requires var w := weekOf(t.date);
      if |InWeek(ts, weekOf, w)| > 0 then week == TotalsOf(ts, weekOf, w)
      else week == WeekTotals(w, t.date, 0, 0, 0.0, 0)
    ensures |InWeek(ts + [t], weekOf, weekOf(t.date))| > 0
    ensures TotalsOf(ts + [t], weekOf, weekOf(t.date)) == WeekTotals(week.week, week.date,
      week.totalAuctions + t.totalAuctions, week.soldCount + t.soldCount, week.totalValue + Value(t), week.count + 1)
  {
    WeekRowsStep(ts, t, weekOf);
  }

  /** `groupTrendsByWeek`: one `Map` entry per week, filled row by row, then summarised */
  method GroupTrendsByWeek(trends: seq<Trend>, weekOf: Date -> string) returns (weeks: seq<WeekTrend>)
    ensures weeks == WeeklyTrends(trends, weekOf)
  {
    var order, grouped := AccumulateWeeks(trends, weekOf);
    weeks := Summarise(order, grouped);
    SummariesAreWeeklyTrends(order, grouped, trends, weekOf, weeks);
  }

  /** The first loop of `groupTrendsByWeek`: every row added to the totals of its week */
  method AccumulateWeeks(trends: seq<Trend>, weekOf: Date -> string)
    returns (order: seq<string>, grouped: map<string, WeekTotals>)
    ensures Accumulated(order, grouped, trends, weekOf)
  {
    order, grouped := [], map[];
    var i := 0;
    while i < |trends|
      invariant 0 <= i <= |trends|
      invariant Accumulated(order, grouped, trends[..i], weekOf)
    {
      order, grouped := AddRow(order, grouped, trends[i], weekOf, trends[..i]);
      assert trends[..i] + [trends[i]] == trends[..i + 1];
      i := i + 1;
    }
    assert trends[..|trends|] == trends;
  }

  /** The summaries of the accumulated weeks, in their order, are the weekly trends */
  lemma SummariesAreWeeklyTrends(order: seq<string>, grouped: map<string, WeekTotals>, ts: seq<Trend>,
                                 weekOf: Date -> string, weeks: seq<WeekTrend>)
    requires Accumulated(order, grouped, ts, weekOf)
    requires |weeks| == |order|
    requires forall k :: 0 <= k < |order| ==> weeks[k] == Summary(grouped[order[k]])
    ensures weeks == WeeklyTrends(ts, weekOf)
  {
    forall k | 0 <= k < |weeks| ensures weeks[k] == WeeklyTrends(ts, weekOf)[k] {
      WeekOrderHasRows(ts, weekOf, order[k]);
    }
  }

  /** The second loop of `groupTrendsByWeek`: the entry of each week, in the order the weeks were met */
  method Summarise(order: seq<string>, grouped: map<string, WeekTotals>) returns (weeks: seq<WeekTrend>)
    requires forall w :: w in order ==> w in grouped
    ensures |weeks| == |order|
    ensures forall k :: 0 <= k < |order| ==> weeks[k] == Summary(grouped[order[k]])
  {
    weeks := [];
    var j := 0;
    while j < |order|
      invariant 0 <= j <= |order|
      invariant |weeks| == j
      invariant forall k :: 0 <= k < j ==> weeks[k] == Summary(grouped[order[k]])
    {
      weeks := weeks + [Summary(grouped[order[j]])];
      j := j + 1;
    }
  }

  // ------------------------------------------------------- week sums, overall

  /** The sums of `f` over the weeks `ws` */
  function WeekTotal(ts: seq<Trend>, weekOf: Date -> string, ws: seq<string>, f: Trend -> nat): nat {
    if ws == [] then 0
    else WeekTotal(ts, weekOf, ws[..|ws| - 1], f) + Total(InWeek(ts, weekOf, ws[|ws| - 1]), f)
  }

  /** One more row adds its `f` to the sum of its own week and nothing to the others */
  lemma WeekSumStep(ts: seq<Trend>, t: Trend, weekOf: Date -> string, w: string, f: Trend -> nat)
    ensures Total(InWeek(ts + [t], weekOf, w), f) == Total(InWeek(ts, weekOf, w), f) + (if weekOf(t.date) == w then f(t) else 0)
  {
    InWeekStep(ts, t, weekOf, w);
    var g := InWeek(ts, weekOf, w);
    if weekOf(t.date) == w {
      assert (g + [t])[..|g|] == g;
    } else {
      assert g + [] == g;
    }
  }

  lemma {:induction false} WeekTotalStep(ts: seq<Trend>, t: Trend, weekOf: Date -> string, ws: seq<string>, f: Trend -> nat)
    requires forall i, j :: 0 <= i < j < |ws| ==> ws[i] != ws[j]
    ensures WeekTotal(ts + [t], weekOf, ws, f) == WeekTotal(ts, weekOf, ws, f) + (if weekOf(t.date) in ws then f(t) else 0)
  {
    if ws != [] {
      var front := ws[..|ws| - 1];
      var w := ws[|ws| - 1];
      var x := weekOf(t.date);
      assert (x in ws) == (x in front || x == w) by {
        assert ws == front + [w];
      }
      assert x == w ==> x !in front;
      WeekTotalStep(ts, t, weekOf, front, f);
      WeekSumStep(ts, t, weekOf, w, f);
    }
  }

  /** The weeks partition the rows: summed over the weeks, `f` adds up to its sum over the rows */
  lemma {:induction false} WeeksPartitionTotals(ts: seq<Trend>, weekOf: Date -> string, f: Trend -> nat)
    ensures WeekTotal(ts, weekOf, WeekOrder(ts, weekOf), f) == Total(ts, f)
  {
    if ts != [] {
      var front := ts[..|ts| - 1];
      var t := ts[|ts| - 1];
      assert ts == front + [t];
      var ws := WeekOrder(front, weekOf);
      WeeksPartitionTotals(front, weekOf, f);
      WeekTotalStep(front, t, weekOf, ws, f);
      WeekStep(front, t, weekOf);
      if weekOf(t.date) !in ws {
        NewWeekTotal(front, t, weekOf, ws, f);
      }
    }
  }

  /** A row of a week not met before adds a week whose sum is the row's own */
  lemma NewWeekTotal(ts: seq<Trend>, t: Trend, weekOf: Date -> string, ws: seq<string>, f: Trend -> nat)
    requires ws == WeekOrder(ts, weekOf) && weekOf(t.date) !in ws
    ensures WeekTotal(ts + [t], weekOf, ws + [weekOf(t.date)], f) == WeekTotal(ts + [t], weekOf, ws, f) + f(t)
  {
    var w := weekOf(t.date);
    NoRowsOutsideWeekOrder(ts, weekOf, w);
    WeekSumStep(ts, t, weekOf, w, f);
    assert (ws + [w])[..|ws|] == ws;
  }

  /** The auction and sold counts of the entries */
  function EntryAuctions(weeks: seq<WeekTrend>): nat {
    if weeks == [] then 0 else EntryAuctions(weeks[..|weeks| - 1]) + weeks[|weeks| - 1].totalAuctions
  }

  function EntrySold(weeks: seq<WeekTrend>): nat {
    if weeks == [] then 0 else EntrySold(weeks[..|weeks| - 1]) + weeks[|weeks| - 1].soldCount
  }

  lemma {:induction false} EntriesAreWeekTotals(ts: seq<Trend>, weekOf: Date -> string, n: nat)
    requires n <= |WeekOrder(ts, weekOf)|
    ensures EntryAuctions(WeeklyTrends(ts, weekOf)[..n]) == WeekTotal(ts, weekOf, WeekOrder(ts, weekOf)[..n], Auctions)
    ensures EntrySold(WeeklyTrends(ts, weekOf)[..n]) == WeekTotal(ts, weekOf, WeekOrder(ts, weekOf)[..n], Sold)
  {
    if n > 0 {
      EntriesAreWeekTotals(ts, weekOf, n - 1);
      EntryStep(ts, weekOf, n);
      WeekTotalPrefixStep(ts, weekOf, WeekOrder(ts, weekOf), n, Auctions);
      WeekTotalPrefixStep(ts, weekOf, WeekOrder(ts, weekOf), n, Sold);
    }
  }

  /** Entry `n - 1` adds its week's sums to the entries before it */
  lemma EntryStep(ts: seq<Trend>, weekOf: Date -> string, n: nat)
    requires 0 < n <= |WeekOrder(ts, weekOf)|
    ensures var w := WeekOrder(ts, weekOf)[n - 1]; var weeks := WeeklyTrends(ts, weekOf);
      && EntryAuctions(weeks[..n]) == EntryAuctions(weeks[..n - 1]) + Total(InWeek(ts, weekOf, w), Auctions)
      && EntrySold(weeks[..n]) == EntrySold(weeks[..n - 1]) + Total(InWeek(ts, weekOf, w), Sold)
  {
    EntryPrefix(WeeklyTrends(ts, weekOf), n);
    EntrySums(ts, weekOf, n - 1);
  }

  lemma EntryPrefix(weeks: seq<WeekTrend>, n: nat)
    requires 0 < n <= |weeks|
    ensures EntryAuctions(weeks[..n]) == EntryAuctions(weeks[..n - 1]) + weeks[n - 1].totalAuctions
    ensures EntrySold(weeks[..n]) == EntrySold(weeks[..n - 1]) + weeks[n - 1].soldCount
  {
    assert weeks[..n][..n - 1] == weeks[..n - 1];
  }

  /** The entry of a week holds the sums over its rows */
  lemma EntrySums(ts: seq<Trend>, weekOf: Date -> string, j: nat)
    requires j < |WeekOrder(ts, weekOf)|
    ensures var w := WeekOrder(ts, weekOf)[j];
      && WeeklyTrends(ts, weekOf)[j].totalAuctions == Total(InWeek(ts, weekOf, w), Auctions)
      && WeeklyTrends(ts, weekOf)[j].soldCount == Total(InWeek(ts, weekOf, w), Sold)
  {
    var w := WeekOrder(ts, weekOf)[j];
    WeekOrderHasRows(ts, weekOf, w);
    assert WeeklyTrends(ts, weekOf)[j] == Summary(TotalsOf(ts, weekOf, w));
  }

  /** Week `n - 1` adds its sum to the sums of the weeks before it */
  lemma WeekTotalPrefixStep(ts: seq<Trend>, weekOf: Date -> string, ws: seq<string>, n: nat, f: Trend -> nat)
    requires 0 < n <= |ws|
    ensures WeekTotal(ts, weekOf, ws[..n], f) == WeekTotal(ts, weekOf, ws[..n - 1], f) + Total(InWeek(ts, weekOf, ws[n - 1]), f)
  {
    assert ws[..n][..n - 1] == ws[..n - 1];
  }

  /** What `calculateOverallStats` returns */
  datatype OverallStats = OverallStats(totalAuctions: nat, totalSold: nat, overallClearanceRate: real, averagePrice: Option<real>)

  /** `trends.filter((t) => t.averagePrice && t.soldCount > 0)` */
  function SoldWithPrice(ts: seq<Trend>): (r: seq<Trend>)
    ensures |r| <= |ts|
    ensures forall j :: 0 <= j < |r| ==> Priced(r[j]) && r[j].soldCount > 0
    ensures r == [] <==> forall t :: t in ts ==> !(Priced(t) && t.soldCount > 0)
    ensures forall t :: t in r <==> t in ts && Priced(t) && t.soldCount > 0
    ensures |ts| == 1 ==> r == (if Priced(ts[0]) && ts[0].soldCount > 0 then ts else [])
  {
    if ts == [] then []
    else
      var front := ts[..|ts| - 1];
      var last := ts[|ts| - 1];
      assert ts == front + [last];
      SoldWithPrice(front) + (if Priced(last) && last.soldCount > 0 then [last] else [])
  }

  /**
   * The filter of a concatenation is the filter of each part in turn; with the
   * one-row case this keeps the rows' order and multiplicity.
   */
  lemma {:induction false} SoldWithPriceAppend(a: seq<Trend>, b: seq<Trend>)
    ensures SoldWithPrice(a + b) == SoldWithPrice(a) + SoldWithPrice(b)
    decreases |b|
  {
    if b == [] {
      assert a + b == a;
    } else {
      var front, last := b[..|b| - 1], b[|b| - 1];
      var tail := (if Priced(last) && last.soldCount > 0 then [last] else []);
      assert SoldWithPrice(a + b) == SoldWithPrice(a + front) + tail by {
        assert a + b == (a + front) + [last];
        SoldWithPriceSnoc(a + front, last);
      }
      assert SoldWithPrice(b) == SoldWithPrice(front) + tail;
      SoldWithPriceAppend(a, front);
      Text.ConcatAssociative(SoldWithPrice(a), SoldWithPrice(front), tail);
    }
  }

  /** One more element at the back adds its own part at the back */
  lemma SoldWithPriceSnoc(xs: seq<Trend>, x: Trend)
    ensures SoldWithPrice(xs + [x]) == SoldWithPrice(xs) + (if Priced(x) && x.soldCount > 0 then [x] else [])
  {
    assert (xs + [x])[..|xs|] == xs;
  }

  /** Rows that all sold something have a positive sold count in sum */
  lemma {:induction false} SoldSumPositive(ts: seq<Trend>)
    requires forall j :: 0 <= j < |ts| ==> ts[j].soldCount > 0
    ensures Total(ts, Sold) > 0 <==> ts != []
  {
    if ts != [] {
      SoldSumPositive(ts[..|ts| - 1]);
    }
  }

  /** `calculateOverallStats` */
  function CalculateOverallStats(trends: seq<Trend>): (s: OverallStats)
    ensures s.totalAuctions == Total(trends, Auctions) && s.totalSold == Total(trends, Sold)
    ensures s.totalAuctions == 0 ==> s.overallClearanceRate == 0.0
    ensures s.totalSold <= s.totalAuctions ==> 0.0 <= s.overallClearanceRate <= 100.0
    ensures s.averagePrice.None? <==> forall t :: t in trends ==> !(Priced(t) && t.soldCount > 0)
  {
    var totalAuctions := Total(trends, Auctions);
    var totalSold := Total(trends, Sold);
    var priced := SoldWithPrice(trends);
    var pricedSold := Total(priced, Sold);
    SoldSumPositive(priced);
    OverallStats(totalAuctions, totalSold,
      SuburbGrouping.ClearanceRate(totalAuctions, totalSold),
      if pricedSold > 0 then Some(TotalValue(priced) / pricedSold as real) else None)
  }

  /** The weekly entries add up to the overall totals */
  lemma WeekSumsEqualOverall(trends: seq<Trend>, weekOf: Date -> string)
    ensures EntryAuctions(WeeklyTrends(trends, weekOf)) == CalculateOverallStats(trends).totalAuctions
    ensures EntrySold(WeeklyTrends(trends, weekOf)) == CalculateOverallStats(trends).totalSold
  {
    EntriesSumRows(trends, weekOf);
  }

  lemma EntriesSumRows(trends: seq<Trend>, weekOf: Date -> string)
    ensures EntryAuctions(WeeklyTrends(trends, weekOf)) == Total(trends, Auctions)
    ensures EntrySold(WeeklyTrends(trends, weekOf)) == Total(trends, Sold)
  {
    var weeks := WeeklyTrends(trends, weekOf);
    var ws := WeekOrder(trends, weekOf);
    EntriesAreWeekTotals(trends, weekOf, |ws|);
    assert weeks[..|ws|] == weeks && ws[..|ws|] == ws;
    WeeksPartitionTotals(trends, weekOf, Auctions);
    WeeksPartitionTotals(trends, weekOf, Sold);
  }

  /** Rows that sell no more than they offer keep every clearance rate within 0 to 100 */
  lemma {:induction false} SoldNoMoreThanOffered(ts: seq<Trend>)
    requires forall j :: 0 <= j < |ts| ==> ts[j].soldCount <= ts[j].totalAuctions
    ensures Total(ts, Sold) <= Total(ts, Auctions)
    ensures 0.0 <= CalculateOverallStats(ts).overallClearanceRate <= 100.0
  {
    if ts != [] {
      SoldNoMoreThanOffered(ts[..|ts| - 1]);
    }
  }

  /** `v` lies within `lo` and `hi` times the weight `n` */
  predicate ScaledBetween(v: real, n: real, lo: real, hi: real) {
    lo * n <= v <= hi * n
  }

  /** Every row is priced, with a mean price within `lo` and `hi` */
  predicate PricesBetween(ts: seq<Trend>, lo: real, hi: real) {
    forall j :: 0 <= j < |ts| ==> Priced(ts[j]) && lo <= ts[j].averagePrice.value <= hi
  }

  /** A priced row's value lies within its price bounds times its sold count */
  lemma RowValueWithin(t: Trend, lo: real, hi: real)
    requires Priced(t) && lo <= t.averagePrice.value <= hi
    ensures ScaledBetween(Value(t), t.soldCount as real, lo, hi)
  {
  }

  /** Values within the bounds times their weights add up within the bounds times the summed weight */
  lemma AddWithin(v: real, n: real, v': real, n': real, lo: real, hi: real)
    requires ScaledBetween(v, n, lo, hi) && ScaledBetween(v', n', lo, hi)
    ensures ScaledBetween(v + v', n + n', lo, hi)
  {
    assert lo * (n + n') == lo * n + lo * n';
    assert hi * (n + n') == hi * n + hi * n';
  }

  /** Mean prices within bounds keep the sold value within the bounds times the sold count */
  lemma {:induction false} ValueWithin(ts: seq<Trend>, lo: real, hi: real)
    requires PricesBetween(ts, lo, hi)
    ensures ScaledBetween(TotalValue(ts), Total(ts, Sold) as real, lo, hi)
  {
    if ts != [] {
      var front := ts[..|ts| - 1];
      var t := ts[|ts| - 1];
      assert PricesBetween(front, lo, hi) by {
        forall j | 0 <= j < |front| ensures front[j] == ts[j] { }
      }
      ValueWithin(front, lo, hi);
      RowValueWithin(t, lo, hi);
      AddWithin(TotalValue(front), Total(front, Sold) as real, Value(t), t.soldCount as real, lo, hi);
    }
  }

  /**
   * The overall mean price is a weighted mean: it lies between the least and
   * the greatest mean price of the rows that count.
   */
  lemma OverallAverageWithin(trends: seq<Trend>, lo: real, hi: real)
    requires forall t :: t in trends && Priced(t) && t.soldCount > 0 ==> lo <= t.averagePrice.value <= hi
    ensures var s := CalculateOverallStats(trends);
      s.averagePrice.Some? ==> lo <= s.averagePrice.value <= hi
  {
    var priced := SoldWithPrice(trends);
    PricedRowsWithin(trends, lo, hi);
    ValueWithin(priced, lo, hi);
    var v := TotalValue(priced);
    var n := Total(priced, Sold);
    if n > 0 {
      DivideWithin(v, n as real, lo, hi);
      assert CalculateOverallStats(trends).averagePrice == Some(v / n as real);
    }
  }

  /** The rows that count keep the bounds of the rows */
  lemma PricedRowsWithin(trends: seq<Trend>, lo: real, hi: real)
    requires forall t :: t in trends && Priced(t) && t.soldCount > 0 ==> lo <= t.averagePrice.value <= hi
    ensures PricesBetween(SoldWithPrice(trends), lo, hi)
  {
    var priced := SoldWithPrice(trends);
    forall j | 0 <= j < |priced| ensures lo <= priced[j].averagePrice.value <= hi {
      PricedRowIsARow(trends, j);
    }
  }

  lemma {:induction false} PricedRowIsARow(ts: seq<Trend>, j: nat)
    requires j < |SoldWithPrice(ts)|
    ensures SoldWithPrice(ts)[j] in ts
  {
    var front := ts[..|ts| - 1];
    assert ts == front + [ts[|ts| - 1]];
    if j < |SoldWithPrice(front)| {
      PricedRowIsARow(front, j);
    }
  }

  lemma DivideWithin(v: real, n: real, lo: real, hi: real)
    requires n > 0.0 && ScaledBetween(v, n, lo, hi)
    ensures lo <= v / n <= hi
  {
  }

  /**
   * A week's mean divides the value of its priced rows by the sold count of
   * all its rows: a priced row at 1,000,000 and an unpriced row, one sale
   * each, make a week mean of 500,000, where the overall mean is 1,000,000.
   */
  lemma WeekMeanCountsUnpricedSales(weekOf: Date -> string, d: Date)
    ensures var priced := Trend("Sydney", "NSW", d, 1, 1, 100.0, Some(1000000.0), Some(1000000.0));
      var unpriced := Trend("Sydney", "NSW", d, 1, 1, 100.0, None, None);
      && WeeklyTrends([priced, unpriced], weekOf)[0].averagePrice == Some(500000.0)
      && CalculateOverallStats([priced, unpriced]).averagePrice == Some(1000000.0)
  {
    var priced := Trend("Sydney", "NSW", d, 1, 1, 100.0, Some(1000000.0), Some(1000000.0));
    var unpriced := Trend("Sydney", "NSW", d, 1, 1, 100.0, None, None);
    var ts := [priced, unpriced];
    var w := weekOf(d);
    assert ts[..1] == [priced] && [priced][..0] == [];
    assert WeekOrder([priced], weekOf) == [w];
    assert WeekOrder(ts, weekOf) == [w];
    assert InWeek([priced], weekOf, w) == [priced];
    assert InWeek(ts, weekOf, w) == [priced, unpriced];
    assert Total([priced], Sold) == Total([], Sold) + Sold(priced) == 1;
    assert Total(ts, Sold) == Total([priced], Sold) + Sold(unpriced) == 2;
    assert TotalValue([priced]) == 1000000.0;
    assert TotalValue([priced, unpriced]) == 1000000.0;
    assert TotalsOf(ts, weekOf, w).totalValue == 1000000.0;
    assert TotalsOf(ts, weekOf, w).soldCount == 2;
    assert SoldWithPrice([priced]) == [priced];
    assert SoldWithPrice(ts) == [priced];
  }
}
