/** The barber's financial summary over the rows of the financial query:
    the three totals, the revenue per day for the chart, the chart's dates
    in order, and the chart's scale. Prices are exact reals; floating-point
    rounding is outside the model. */
module BarberFinancials {
  import opened Text
  import opened Seqs
  import opened Sorting
  import opened AppointmentService

  /** `data.reduce((acc, curr) => acc + curr.total_price, 0)`. */
  function Revenue(rows: seq<FinancialRow>): (r: real)
    ensures |rows| == 0 ==> r == 0.0
    ensures |rows| == 1 ==> r == rows[0].totalPrice
  {
    if |rows| == 0 then 0.0 else Revenue(rows[..|rows| - 1]) + rows[|rows| - 1].totalPrice
  }

  /** With no negative price the revenue is not negative. */
  lemma {:induction false} RevenueNonNegative(rows: seq<FinancialRow>)
    requires forall i :: 0 <= i < |rows| ==> rows[i].totalPrice >= 0.0
    ensures Revenue(rows) >= 0.0
    decreases |rows|
  {
    if |rows| > 0 {
      RevenueNonNegative(rows[..|rows| - 1]);
    }
  }

  lemma {:induction false} RevenueAppend(a: seq<FinancialRow>, b: seq<FinancialRow>)
    ensures Revenue(a + b) == Revenue(a) + Revenue(b)
    decreases |b|
  {
    if |b| == 0 {
      assert a + b == a;
    } else {
      RevenueAppend(a, b[..|b| - 1]);
      assert (a + b)[..|a + b| - 1] == a + b[..|b| - 1];
    }
  }

  datatype Stats = Stats(totalRevenue: real, totalServices: int, avgTicket: real)

  /** `calculateStats`: the average is guarded against an empty period. */
  method CalculateStats(rows: seq<FinancialRow>) returns (stats: Stats)
    ensures stats.totalServices == |rows|
    ensures stats.totalRevenue == Revenue(rows)
    ensures |rows| == 0 ==> stats.avgTicket == 0.0
    ensures |rows| > 0 ==> stats.avgTicket * (|rows| as real) == stats.totalRevenue
  {
    var total := 0.0;
    for k := 0 to |rows|
      invariant total == Revenue(rows[..k])
    {
      assert rows[..k + 1][..k] == rows[..k];
      total := total + rows[k].totalPrice;
    }
    assert rows[..|rows|] == rows;
    var count := |rows|;
    var avg := if count > 0 then total / (count as real) else 0.0;
    stats := Stats(total, count, avg);
  }

  /** The dates present in the rows. */
  ghost function DatesOf(rows: seq<FinancialRow>): set<string> {
    set i | 0 <= i < |rows| :: rows[i].date
  }

  lemma DatesOfStep(rows: seq<FinancialRow>)
    requires |rows| > 0
    ensures DatesOf(rows) == DatesOf(rows[..|rows| - 1]) + {rows[|rows| - 1].date}
  {
    var init := rows[..|rows| - 1];
    assert forall i :: 0 <= i < |init| ==> init[i] == rows[i];
  }

  /** Reference definition of a chart bar: the revenue of the rows of one day. */
  function DateTotal(rows: seq<FinancialRow>, date: string): real {
    Revenue(Filter(rows, (x: FinancialRow) => x.date == date))
  }

  /** The last row adds its price to its own date's total and to no other. */
  lemma DateTotalStepAt(rows: seq<FinancialRow>, date: string)
    requires |rows| > 0
    ensures DateTotal(rows, date) == DateTotal(rows[..|rows| - 1], date) + if rows[|rows| - 1].date == date then rows[|rows| - 1].totalPrice else 0.0
  {
    var init, last := rows[..|rows| - 1], rows[|rows| - 1];
    assert rows == init + [last];
    var p := (x: FinancialRow) => x.date == date;
    FilterAppend(init, [last], p);
    assert Filter([last], p) == if p(last) then [last] else [];
    RevenueAppend(Filter(init, p), Filter([last], p));
    assert Revenue([last]) == last.totalPrice by {
      assert [last][..0] == [];
    }
  }

  lemma DateTotalEmpty(date: string)
    ensures DateTotal([], date) == 0.0
  {
  }

  /** The `chartData` fold: each date's accumulated sum. */
  function GroupByDate(rows: seq<FinancialRow>): (chart: map<string, real>)
    ensures chart.Keys == DatesOf(rows)
    ensures forall date :: date in chart ==> chart[date] == DateTotal(rows, date)
  {
    if |rows| == 0 then
      assert DatesOf(rows) == {};
      map[]
    else
      var init, last := rows[..|rows| - 1], rows[|rows| - 1];
      var acc := GroupByDate(init);
      GroupStep(rows, acc);
      AddTo(acc, last.date, last.totalPrice)
  }

  /** `acc[date] = (acc[date] || 0) + amount`. */
  function AddTo(acc: map<string, real>, date: string, amount: real): (r: map<string, real>)
    ensures r.Keys == acc.Keys + {date}
    ensures r[date] == (if date in acc then acc[date] else 0.0) + amount
    ensures forall d :: d in acc && d != date ==> r[d] == acc[d]
  {
    acc[date := (if date in acc then acc[date] else 0.0) + amount]
  }

  /** One step of the fold keeps the chart equal to the per-date totals. */
  lemma GroupStep(rows: seq<FinancialRow>, acc: map<string, real>)
    requires |rows| > 0
    requires acc.Keys == DatesOf(rows[..|rows| - 1])
    requires forall date :: date in acc ==> acc[date] == DateTotal(rows[..|rows| - 1], date)
    ensures AddTo(acc, rows[|rows| - 1].date, rows[|rows| - 1].totalPrice).Keys == DatesOf(rows)
    ensures forall date :: date in AddTo(acc, rows[|rows| - 1].date, rows[|rows| - 1].totalPrice) ==>
      AddTo(acc, rows[|rows| - 1].date, rows[|rows| - 1].totalPrice)[date] == DateTotal(rows, date)
  {
    var init, last := rows[..|rows| - 1], rows[|rows| - 1];
    var chart := AddTo(acc, last.date, last.totalPrice);
    DatesOfStep(rows);
    assert chart.Keys == acc.Keys + {last.date};
    forall date | date in chart
      ensures chart[date] == DateTotal(rows, date)
    {
      DateTotalStepAt(rows, date);
      if date == last.date && date !in acc {
        assert DateTotal(init, date) == 0.0 by {
          var p := (x: FinancialRow) => x.date == date;
          assert forall i :: 0 <= i < |init| ==> !p(init[i]);
          FilterNone(init, p);
        }
      }
    }
  }

  /** Every element occurs once. */
  predicate NoDuplicates(s: seq<string>) {
    forall i :: 0 <= i < |s| ==> multiset(s)[s[i]] == 1
  }

  lemma DistinctAt(s: seq<string>, i: int, j: int)
    requires NoDuplicates(s) && 0 <= i < j < |s|
    ensures s[i] != s[j]
  {
    var x := s[j];
    assert s == s[..j] + s[j..];
    assert s[j..][0] == x && s[..j][i] == s[i];
    assert multiset(s)[x] == multiset(s[..j])[x] + multiset(s[j..])[x];
    assert x !in multiset(s[..j]);
  }

  lemma PermutationKeepsNoDuplicates(a: seq<string>, b: seq<string>)
    requires multiset(a) == multiset(b) && NoDuplicates(a)
    ensures NoDuplicates(b)
  {
    forall i | 0 <= i < |b|
      ensures multiset(b)[b[i]] == 1
    {
      assert b[i] in multiset(a);
      var k :| 0 <= k < |a| && a[k] == b[i];
    }
  }

  lemma NoDuplicatesTail(s: seq<string>)
    requires |s| > 0 && NoDuplicates(s)
    ensures NoDuplicates(s[1..]) && s[0] !in s[1..]
  {
    assert s == [s[0]] + s[1..];
    forall i | 0 <= i < |s[1..]|
      ensures multiset(s[1..])[s[1..][i]] == 1
    {
      assert s[1..][i] == s[i + 1];
    }
  }

  /** `Object.keys(chartData)`: the dates in the order they first occur. */
  function KeyOrder(rows: seq<FinancialRow>): (keys: seq<string>)
    ensures NoDuplicates(keys)
    ensures forall i :: 0 <= i < |keys| ==> keys[i] in DatesOf(rows)
    ensures forall i :: 0 <= i < |rows| ==> rows[i].date in keys
  {
    if |rows| == 0 then []
    else
      var init, last := rows[..|rows| - 1], rows[|rows| - 1];
      var keys := KeyOrder(init);
      assert forall i :: 0 <= i < |init| ==> init[i] == rows[i];
      if last.date in keys then keys
      else
        assert forall i :: 0 <= i < |keys| ==> keys[i] != last.date;
        assert multiset(keys + [last.date]) == multiset(keys) + multiset{last.date};
        keys + [last.date]
  }

  /** `Object.keys(chartData).sort()`. */
  function ChartDates(rows: seq<FinancialRow>): (dates: seq<string>)
    ensures NoDuplicates(dates)
    ensures forall i, j :: 0 <= i < j < |dates| ==> StrLess(dates[i], dates[j])
    ensures forall i :: 0 <= i < |dates| ==> dates[i] in DatesOf(rows)
    ensures forall i :: 0 <= i < |rows| ==> rows[i].date in dates
  {
    var keys := KeyOrder(rows);
    var dates := SortBy(keys, (d: string) => d);
    ChartDatesFacts(rows, keys, dates);
    dates
  }

  lemma ChartDatesFacts(rows: seq<FinancialRow>, keys: seq<string>, dates: seq<string>)
    requires keys == KeyOrder(rows) && dates == SortBy(keys, (d: string) => d)
    ensures NoDuplicates(dates)
    ensures forall i, j :: 0 <= i < j < |dates| ==> StrLess(dates[i], dates[j])
    ensures forall i :: 0 <= i < |dates| ==> dates[i] in DatesOf(rows)
    ensures forall i :: 0 <= i < |rows| ==> rows[i].date in dates
  {
    PermutationKeepsNoDuplicates(keys, dates);
    forall i, j | 0 <= i < j < |dates|
      ensures StrLess(dates[i], dates[j])
    {
      DistinctAt(dates, i, j);
    }
    forall i | 0 <= i < |rows|
      ensures rows[i].date in dates
    {
      assert rows[i].date in multiset(keys);
    }
    forall i | 0 <= i < |dates|
      ensures dates[i] in DatesOf(rows)
    {
      assert dates[i] in multiset(keys);
    }
  }

  datatype ChartPoint = ChartPoint(date: string, value: real)

  /** `chartValues`: one bar per date present, in ascending date order, each
      the revenue of its day. */
  function ChartValues(rows: seq<FinancialRow>): (points: seq<ChartPoint>)
    ensures forall i, j :: 0 <= i < j < |points| ==> StrLess(points[i].date, points[j].date)
    ensures forall i :: 0 <= i < |points| ==> points[i].date in DatesOf(rows)
    ensures forall i :: 0 <= i < |rows| ==> rows[i].date in PointDates(points)
    ensures forall i :: 0 <= i < |points| ==> points[i].value == DateTotal(rows, points[i].date)
    ensures PointDates(points) == ChartDates(rows)
  {
    var chart := GroupByDate(rows);
    var dates := ChartDates(rows);
    var points := seq(|dates|, i requires 0 <= i < |dates| => ChartPoint(dates[i], chart[dates[i]]));
    ChartPointsFacts(rows, chart, dates, points);
    points
  }

  lemma ChartPointsFacts(rows: seq<FinancialRow>, chart: map<string, real>, dates: seq<string>, points: seq<ChartPoint>)
    requires chart == GroupByDate(rows) && dates == ChartDates(rows)
    requires |points| == |dates|
    requires forall i :: 0 <= i < |points| ==> points[i].date == dates[i] && points[i].value == chart[dates[i]]
    ensures forall i, j :: 0 <= i < j < |points| ==> StrLess(points[i].date, points[j].date)
    ensures forall i :: 0 <= i < |points| ==> points[i].date in DatesOf(rows)
    ensures forall i :: 0 <= i < |rows| ==> rows[i].date in PointDates(points)
    ensures forall i :: 0 <= i < |points| ==> points[i].value == DateTotal(rows, points[i].date)
    ensures PointDates(points) == dates
  {
    assert PointDates(points) == dates;
  }

  /** The dates along the chart's axis. */
  function PointDates(points: seq<ChartPoint>): (dates: seq<string>)
    ensures |dates| == |points|
    ensures forall i :: 0 <= i < |points| ==> dates[i] == points[i].date
  {
    seq(|points|, i requires 0 <= i < |points| => points[i].date)
  }

  function SumValues(points: seq<ChartPoint>): real {
    if |points| == 0 then 0.0 else points[0].value + SumValues(points[1..])
  }

  /** The bars of a set of distinct dates, summed. */
  function SumTotals(dates: seq<string>, rows: seq<FinancialRow>): real {
    if |dates| == 0 then 0.0 else DateTotal(rows, dates[0]) + SumTotals(dates[1..], rows)
  }

  lemma {:induction false} SumTotalsStep(dates: seq<string>, rows: seq<FinancialRow>)
    requires |rows| > 0 && NoDuplicates(dates)
    ensures SumTotals(dates, rows) == SumTotals(dates, rows[..|rows| - 1])
      + if rows[|rows| - 1].date in dates then rows[|rows| - 1].totalPrice else 0.0
    decreases |dates|
  {
    if |dates| > 0 {
      var init, last, d, rest := rows[..|rows| - 1], rows[|rows| - 1], dates[0], dates[1..];
      DateTotalStepAt(rows, d);
      NoDuplicatesTail(dates);
      SumTotalsStep(rest, rows);
      assert dates == [d] + rest;
      var now, before := DateTotal(rows, d), DateTotal(init, d);
      assert SumTotals(dates, rows) == now + SumTotals(rest, rows);
      assert SumTotals(dates, init) == before + SumTotals(rest, init);
      if last.date == d {
        assert last.date !in rest;
        assert now == before + last.totalPrice;
      } else {
        assert last.date in dates <==> last.date in rest;
        assert now == before;
      }
    }
  }

  lemma {:induction false} SumTotalsOfNothing(dates: seq<string>)
    ensures SumTotals(dates, []) == 0.0
    decreases |dates|
  {
    if |dates| > 0 {
      DateTotalEmpty(dates[0]);
      SumTotalsOfNothing(dates[1..]);
    }
  }

  /** Distinct dates that cover every row's date split the revenue between them. */
  lemma {:induction false} SumTotalsIsRevenue(dates: seq<string>, rows: seq<FinancialRow>)
    requires NoDuplicates(dates)
    requires forall i :: 0 <= i < |rows| ==> rows[i].date in dates
    ensures SumTotals(dates, rows) == Revenue(rows)
    decreases |rows|
  {
    if |rows| == 0 {
      SumTotalsOfNothing(dates);
    } else {
      var init := rows[..|rows| - 1];
      SumTotalsStep(dates, rows);
      assert forall i :: 0 <= i < |init| ==> init[i] == rows[i];
      SumTotalsIsRevenue(dates, init);
    }
  }

  lemma {:induction false} SumValuesIsSumTotals(points: seq<ChartPoint>, dates: seq<string>, rows: seq<FinancialRow>)
    requires |points| == |dates|
    requires forall i :: 0 <= i < |points| ==> points[i].value == DateTotal(rows, dates[i])
    ensures SumValues(points) == SumTotals(dates, rows)
    decreases |points|
  {
    if |points| > 0 {
      SumValuesIsSumTotals(points[1..], dates[1..], rows);
    }
  }

  /** The chart's bars add up to the revenue card. */
  lemma ChartSumsToRevenue(rows: seq<FinancialRow>)
    ensures SumValues(ChartValues(rows)) == Revenue(rows)
  {
    var points := ChartValues(rows);
    var dates := PointDates(points);
    SumValuesIsSumTotals(points, dates, rows);
    SumTotalsIsRevenue(dates, rows);
  }

  const ChartFloor: real := 100.0

  /** `Math.max(...chartValues.map(d => d.value), 100)`. */
  function MaxChartValue(points: seq<ChartPoint>): (m: real)
    ensures m >= ChartFloor
    ensures forall i :: 0 <= i < |points| ==> points[i].value <= m
    ensures m == ChartFloor || exists i :: 0 <= i < |points| && points[i].value == m
  {
    if |points| == 0 then ChartFloor
    else
      var rest := MaxChartValue(points[1..]);
      assert forall i :: 1 <= i < |points| ==> points[i] == points[1..][i - 1];
      if points[0].value > rest then points[0].value else rest
  }
}
