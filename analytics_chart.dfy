/**
 * The "Advanced Business Analytics" line chart of the admin dashboard: twelve
 * months of sales totals and stock-out quantities, on two y axes.
 */
module AdvancedAnalyticsChart {
  import opened Calendar
  import opened Aggregate
  import opened Wrappers

  /** An `orders` row, reduced to the month of `created_at`, `total_amount` (in minor currency units) and the status the chart does not look at. */
  datatype Order = Order(createdAt: YearMonth, totalAmount: int, status: string)

  /** A `stock_movements` row: month of `created_at`, `type` and `quantity`. */
  datatype StockMovement = StockMovement(createdAt: YearMonth, kind: string, quantity: int)

  function OrderMonth(o: Order): YearMonth { o.createdAt }
  function OrderAmount(o: Order): int { o.totalAmount }
  function MovementMonth(m: StockMovement): YearMonth { m.createdAt }
  function MovementQuantity(m: StockMovement): int { m.quantity }

  /** `range(11, 0)`: twelve months, eleven back from now down to now. */
  const MonthsShown := 12

  /** The x axis: entry `i` is now minus `11 - i` months, oldest first. */
  function Window(now: YearMonth): (w: seq<YearMonth>)
    ensures |w| == MonthsShown
    ensures forall i :: 0 <= i < MonthsShown ==> Ordinal(w[i]) == Ordinal(now) - (MonthsShown - 1 - i)
  {
    seq(MonthsShown, i requires 0 <= i < MonthsShown => MonthsBack(now, MonthsShown - 1 - i))
  }

  /**
   * The window ends at the current month, runs oldest to newest one calendar
   * month at a time (December is followed by January of the next year), and
   * names twelve different months.
   */
  lemma WindowShape(now: YearMonth)
    ensures Window(now)[MonthsShown - 1] == now
    ensures forall i :: 0 <= i < MonthsShown - 1 ==> NextMonth(Window(now)[i]) == Window(now)[i + 1]
    ensures Distinct(Window(now))
  {
    var w := Window(now);
    OrdinalInjective(w[MonthsShown - 1], now);
    forall i | 0 <= i < MonthsShown - 1 ensures NextMonth(w[i]) == w[i + 1] {
      OrdinalInjective(NextMonth(w[i]), w[i + 1]);
    }
    forall i, j | 0 <= i < j < MonthsShown ensures w[i] != w[j] {
      OrdinalInjective(w[i], w[j]);
    }
  }

  /** The window is exactly the months from eleven months ago up to now. */
  lemma WindowMembership(now: YearMonth, ym: YearMonth)
    ensures ym in Window(now) <==> Ordinal(now) - (MonthsShown - 1) <= Ordinal(ym) <= Ordinal(now)
  {
    var w := Window(now);
    if Ordinal(now) - (MonthsShown - 1) <= Ordinal(ym) <= Ordinal(now) {
      var i := Ordinal(ym) - Ordinal(now) + (MonthsShown - 1);
      OrdinalInjective(w[i], ym);
    }
  }

  /** `->where('type', 'out')`: the movements whose type is exactly "out", in their original order. */
  function OutMovements(moves: seq<StockMovement>): (r: seq<StockMovement>)
    ensures forall i :: 0 <= i < |r| ==> r[i].kind == "out"
  {
    if moves == [] then []
    else
      var last := moves[|moves| - 1];
      OutMovements(moves[..|moves| - 1]) + (if last.kind == "out" then [last] else [])
  }

  /** The filter keeps every "out" movement as often as it occurs and nothing else. */
  lemma {:induction false} OutMovementsKeepsExactlyOut(moves: seq<StockMovement>)
    ensures forall m :: multiset(OutMovements(moves))[m] == if m.kind == "out" then multiset(moves)[m] else 0
  {
    if moves != [] {
      var last := moves[|moves| - 1];
      assert moves == moves[..|moves| - 1] + [last];
      OutMovementsKeepsExactlyOut(moves[..|moves| - 1]);
    }
  }

  lemma {:induction false} OutMovementsAppend(a: seq<StockMovement>, b: seq<StockMovement>)
    ensures OutMovements(a + b) == OutMovements(a) + OutMovements(b)
  {
    if b == [] {
      assert a + b == a;
    } else {
      assert (a + b)[..|a + b| - 1] == a + b[..|b| - 1];
      OutMovementsAppend(a, b[..|b| - 1]);
    }
  }

  /** `getData`'s sales query: one sales total per window month, over every order of that month whatever its status. */
  function SalesSeries(now: YearMonth, orders: seq<Order>): (r: seq<int>)
    ensures |r| == MonthsShown
    ensures forall i :: 0 <= i < MonthsShown ==> r[i] == SumWhere(orders, OrderMonth, OrderAmount, Window(now)[i])
    ensures (forall j :: 0 <= j < |orders| ==> orders[j].totalAmount >= 0) ==>
              forall i :: 0 <= i < MonthsShown ==> r[i] >= 0
  {
    Buckets(orders, OrderMonth, OrderAmount, Window(now))
  }

  /** A movement's contribution to the stock-out total: its quantity when its type is "out", nothing otherwise. */
  function OutQuantity(m: StockMovement): int {
    if m.kind == "out" then m.quantity else 0
  }

  /** `getData`'s stock-movement query: one stock-out quantity per window month, over the "out" movements of that month. */
  function StockOutSeries(now: YearMonth, moves: seq<StockMovement>): (r: seq<int>)
    ensures |r| == MonthsShown
    ensures forall i :: 0 <= i < MonthsShown ==>
              r[i] == SumWhere(OutMovements(moves), MovementMonth, MovementQuantity, Window(now)[i])
  {
    Buckets(OutMovements(moves), MovementMonth, MovementQuantity, Window(now))
  }

  /**
   * Filtering on the type and then summing the quantities is the same as
   * summing every movement of the month with the non-"out" ones counted as 0.
   */
  lemma StockOutSeriesCountsOutQuantity(now: YearMonth, moves: seq<StockMovement>)
    ensures forall i :: 0 <= i < MonthsShown ==>
              StockOutSeries(now, moves)[i] == SumWhere(moves, MovementMonth, OutQuantity, Window(now)[i])
  {
    OutFilterThenSum(moves);
  }

  lemma {:induction false} OutFilterThenSum(moves: seq<StockMovement>)
    ensures forall k :: SumWhere(OutMovements(moves), MovementMonth, MovementQuantity, k) == SumWhere(moves, MovementMonth, OutQuantity, k)
  {
    if moves != [] {
      var init, last := moves[..|moves| - 1], moves[|moves| - 1];
      OutFilterThenSum(init);
      forall k ensures SumWhere(OutMovements(moves), MovementMonth, MovementQuantity, k) == SumWhere(moves, MovementMonth, OutQuantity, k) {
        var tail := if last.kind == "out" then [last] else [];
        SumWhereAppend(OutMovements(init), tail, MovementMonth, MovementQuantity, k);
        if tail != [] {
          assert tail[..0] == [];
        }
      }
    }
  }

  /** `getData`'s label map: one 'M Y' label per window month. */
  function Labels(now: YearMonth): (r: seq<string>)
    ensures |r| == MonthsShown
    ensures forall i :: 0 <= i < MonthsShown ==> r[i] == Label(Window(now)[i])
  {
    seq(MonthsShown, i requires 0 <= i < MonthsShown => Label(Window(now)[i]))
  }

  /** Each x-axis label reads back as exactly the window month it stands for; the last one names the current month. */
  lemma LabelsNameTheirMonths(now: YearMonth)
    ensures forall i :: 0 <= i < MonthsShown ==> ParseLabel(Labels(now)[i]) == Some(Window(now)[i])
    ensures Labels(now)[MonthsShown - 1] == Label(now)
  {
    OrdinalInjective(Window(now)[MonthsShown - 1], now);
    forall i | 0 <= i < MonthsShown ensures ParseLabel(Labels(now)[i]) == Some(Window(now)[i]) {
      LabelRoundTrip(Window(now)[i]);
    }
  }

  // ---------------------------------------------------------------------------
  // The widget's output
  // ---------------------------------------------------------------------------

  /** One Chart.js dataset (its `label`, `data` and `yAxisID`); colours are left out. */
  datatype Dataset = Dataset(seriesLabel: string, data: seq<int>, yAxisID: string)

  datatype ChartData = ChartData(datasets: seq<Dataset>, labels: seq<string>)

  /** A y-axis scale declared in `getOptions`. */
  datatype Scale = Scale(id: string, position: string)

  datatype ChartOptions = ChartOptions(scales: seq<Scale>)

  const SalesLabel := "Sales (Rp)"
  const StockOutLabel := "Stock Out (Units)"

  /** `getOptions`, reduced to its y-axis scales: money on the left, units on the right. */
  function Options(): (o: ChartOptions)
    ensures |o.scales| == 2 && o.scales[0].id != o.scales[1].id
  {
    ChartOptions([Scale("y", "left"), Scale("y1", "right")])
  }

  predicate DeclaresScale(o: ChartOptions, id: string) {
    exists i :: 0 <= i < |o.scales| && o.scales[i].id == id
  }

  /** `getData`: the whole chart as a function of the current month and snapshots of both tables. */
  function GetData(now: YearMonth, orders: seq<Order>, moves: seq<StockMovement>): (c: ChartData)
    ensures |c.datasets| == 2
    ensures c.datasets[0].seriesLabel == SalesLabel && c.datasets[0].yAxisID == Options().scales[0].id
    ensures c.datasets[1].seriesLabel == StockOutLabel && c.datasets[1].yAxisID == Options().scales[1].id
    ensures DeclaresScale(Options(), c.datasets[0].yAxisID) && DeclaresScale(Options(), c.datasets[1].yAxisID)
    ensures |c.labels| == MonthsShown
    ensures forall k :: 0 <= k < |c.datasets| ==> |c.datasets[k].data| == |c.labels|
    ensures forall i :: 0 <= i < MonthsShown ==> c.labels[i] == Label(Window(now)[i])
    ensures forall i :: 0 <= i < MonthsShown ==> c.datasets[0].data[i] == SumWhere(orders, OrderMonth, OrderAmount, Window(now)[i])
    ensures forall i :: 0 <= i < MonthsShown ==>
              c.datasets[1].data[i] == SumWhere(OutMovements(moves), MovementMonth, MovementQuantity, Window(now)[i])
  {
    var scales := Options().scales;
    assert DeclaresScale(Options(), scales[0].id) && DeclaresScale(Options(), scales[1].id);
    var sales, stockOut, labels := SalesSeries(now, orders), StockOutSeries(now, moves), Labels(now);
    ChartData([Dataset(SalesLabel, sales, "y"), Dataset(StockOutLabel, stockOut, "y1")], labels)
  }

  // ---------------------------------------------------------------------------
  // Properties of the chart
  // ---------------------------------------------------------------------------

  /** No two x-axis labels are the same. */
  lemma LabelsDistinct(now: YearMonth)
    ensures Distinct(Labels(now))
  {
    var w := Window(now);
    forall i, j | 0 <= i < j < MonthsShown ensures Labels(now)[i] != Labels(now)[j] {
      LabelInjective(w[i], w[j]);
    }
  }

  /** Each order is counted at most once: the twelve sales values add up to the orders dated inside the window. */
  lemma SalesWindowTotal(now: YearMonth, orders: seq<Order>)
    ensures Total(SalesSeries(now, orders)) == SumWhereAny(orders, OrderMonth, OrderAmount, Window(now))
  {
    BucketsTotal(orders, OrderMonth, OrderAmount, Window(now));
  }

  /** Each "out" movement is counted at most once: the twelve stock-out values add up to the "out" movements inside the window. */
  lemma StockOutWindowTotal(now: YearMonth, moves: seq<StockMovement>)
    ensures Total(StockOutSeries(now, moves))
         == SumWhereAny(OutMovements(moves), MovementMonth, MovementQuantity, Window(now))
  {
    BucketsTotal(OutMovements(moves), MovementMonth, MovementQuantity, Window(now));
  }

  /** A new order adds its amount to the one bucket of its month, if that month is shown, and to nothing else. */
  lemma NewOrderLandsInItsMonth(now: YearMonth, orders: seq<Order>, o: Order, i: int)
    requires 0 <= i < MonthsShown
    ensures SalesSeries(now, orders + [o])[i]
         == SalesSeries(now, orders)[i] + (if Window(now)[i] == o.createdAt then o.totalAmount else 0)
    ensures forall j :: 0 <= j < MonthsShown && Window(now)[i] == o.createdAt && Window(now)[j] == o.createdAt ==> i == j
  {
    BucketsAppendRecord(orders, o, OrderMonth, OrderAmount, Window(now), i);
  }

  /** A new movement changes a bucket exactly when its type is "out" and its month is that bucket's. */
  lemma NewMovementCountsOnlyIfOut(now: YearMonth, moves: seq<StockMovement>, m: StockMovement, i: int)
    requires 0 <= i < MonthsShown
    ensures StockOutSeries(now, moves + [m])[i]
         == StockOutSeries(now, moves)[i] + (if m.kind == "out" && Window(now)[i] == m.createdAt then m.quantity else 0)
  {
    var outs := OutMovements(moves);
    OutMovementsAppend(moves, [m]);
    assert [m][..0] == [];
    if m.kind == "out" {
      assert OutMovements(moves + [m]) == outs + [m];
      BucketsAppendRecord(outs, m, MovementMonth, MovementQuantity, Window(now), i);
    } else {
      assert OutMovements(moves + [m]) == outs;
    }
  }

  /** An order dated outside the twelve months changes nothing in the chart, wherever it stands in the table. */
  lemma OrderOutsideWindowIgnored(now: YearMonth, a: seq<Order>, o: Order, b: seq<Order>, moves: seq<StockMovement>)
    requires o.createdAt !in Window(now)
    ensures GetData(now, a + [o] + b, moves) == GetData(now, a + b, moves)
  {
    BucketsIgnoreUnmatched(a, o, b, OrderMonth, OrderAmount, Window(now));
    ChartDependsOnlyOnSeries(now, a + [o] + b, a + b, moves, moves);
  }

  /** A movement whose type is not exactly "out" changes nothing in the chart. */
  lemma NonOutMovementIgnored(now: YearMonth, orders: seq<Order>, a: seq<StockMovement>, m: StockMovement, b: seq<StockMovement>)
    requires m.kind != "out"
    ensures GetData(now, orders, a + [m] + b) == GetData(now, orders, a + b)
  {
    OutMovementsSkipNonOut(a, m, b);
    ChartDependsOnlyOnSeries(now, orders, orders, a + [m] + b, a + b);
  }

  lemma OutMovementsSkipNonOut(a: seq<StockMovement>, m: StockMovement, b: seq<StockMovement>)
    requires m.kind != "out"
    ensures OutMovements(a + [m] + b) == OutMovements(a + b)
  {
    assert (a + [m])[..|a + [m]| - 1] == a;
    assert OutMovements(a + [m]) == OutMovements(a);
    OutMovementsAppend(a + [m], b);
    OutMovementsAppend(a, b);
  }

  /** A movement dated outside the twelve months changes nothing in the chart, whatever its type. */
  lemma MovementOutsideWindowIgnored(now: YearMonth, orders: seq<Order>, a: seq<StockMovement>, m: StockMovement, b: seq<StockMovement>)
    requires m.createdAt !in Window(now)
    ensures GetData(now, orders, a + [m] + b) == GetData(now, orders, a + b)
  {
    if m.kind == "out" {
      assert (a + [m])[..|a + [m]| - 1] == a;
      assert OutMovements(a + [m]) == OutMovements(a) + [m];
      OutMovementsAppend(a + [m], b);
      OutMovementsAppend(a, b);
      BucketsIgnoreUnmatched(OutMovements(a), m, OutMovements(b), MovementMonth, MovementQuantity, Window(now));
      ChartDependsOnlyOnSeries(now, orders, orders, a + [m] + b, a + b);
    } else {
      NonOutMovementIgnored(now, orders, a, m, b);
    }
  }

  /** Sales do not filter on order status: orders that differ only in status give the same chart. */
  lemma SalesIgnoreStatus(now: YearMonth, a: seq<Order>, b: seq<Order>, moves: seq<StockMovement>)
    requires |a| == |b|
    requires forall i :: 0 <= i < |a| ==> a[i].createdAt == b[i].createdAt && a[i].totalAmount == b[i].totalAmount
    ensures GetData(now, a, moves) == GetData(now, b, moves)
  {
    var w := Window(now);
    forall i | 0 <= i < MonthsShown
      ensures SumWhere(a, OrderMonth, OrderAmount, w[i]) == SumWhere(b, OrderMonth, OrderAmount, w[i])
    {
      SumWhereCongruent(a, b, OrderMonth, OrderAmount, w[i]);
    }
    assert SalesSeries(now, a) == SalesSeries(now, b);
    ChartDependsOnlyOnSeries(now, a, b, moves, moves);
  }

  /** The order in which the database returns rows does not matter. */
  lemma RowOrderIrrelevant(now: YearMonth, orders1: seq<Order>, orders2: seq<Order>,
                           moves1: seq<StockMovement>, moves2: seq<StockMovement>)
    requires multiset(orders1) == multiset(orders2) && multiset(moves1) == multiset(moves2)
    ensures GetData(now, orders1, moves1) == GetData(now, orders2, moves2)
  {
    var w := Window(now);
    var outs1, outs2 := OutMovements(moves1), OutMovements(moves2);
    assert multiset(outs1) == multiset(outs2) by {
      OutMovementsKeepsExactlyOut(moves1);
      OutMovementsKeepsExactlyOut(moves2);
      forall m ensures multiset(outs1)[m] == multiset(outs2)[m] { }
    }
    forall i | 0 <= i < MonthsShown
      ensures SumWhere(orders1, OrderMonth, OrderAmount, w[i]) == SumWhere(orders2, OrderMonth, OrderAmount, w[i])
    {
      SumWherePermutation(orders1, orders2, OrderMonth, OrderAmount, w[i]);
    }
    forall i | 0 <= i < MonthsShown
      ensures SumWhere(outs1, MovementMonth, MovementQuantity, w[i]) == SumWhere(outs2, MovementMonth, MovementQuantity, w[i])
    {
      SumWherePermutation(outs1, outs2, MovementMonth, MovementQuantity, w[i]);
    }
    assert SalesSeries(now, orders1) == SalesSeries(now, orders2);
    assert StockOutSeries(now, moves1) == StockOutSeries(now, moves2);
    ChartDependsOnlyOnSeries(now, orders1, orders2, moves1, moves2);
  }

  /** The chart is determined by the month and the two series. */
  lemma ChartDependsOnlyOnSeries(now: YearMonth, orders1: seq<Order>, orders2: seq<Order>,
                                 moves1: seq<StockMovement>, moves2: seq<StockMovement>)
    requires SalesSeries(now, orders1) == SalesSeries(now, orders2)
    requires StockOutSeries(now, moves1) == StockOutSeries(now, moves2)
    ensures GetData(now, orders1, moves1) == GetData(now, orders2, moves2)
  {
  }

  /** Two January 2025 orders of 100 and 250, seen in March 2025: January shows 350, every other month 0, and the last label is "Mar 2025". */
  lemma JanuarySalesSeenFromMarch()
    ensures var c := GetData(YearMonth(2025, 3), [Order(YearMonth(2025, 1), 100, "paid"), Order(YearMonth(2025, 1), 250, "pending")], []);
            && c.datasets[0].data[9] == 350
            && (forall i :: 0 <= i < MonthsShown && i != 9 ==> c.datasets[0].data[i] == 0)
            && c.labels[MonthsShown - 1] == "Mar 2025"
  {
    JanuarySalesSeries();
    WindowShape(YearMonth(2025, 3));
    MarchLabel();
  }

  lemma JanuarySalesSeries()
    ensures var s := SalesSeries(YearMonth(2025, 3), [Order(YearMonth(2025, 1), 100, "paid"), Order(YearMonth(2025, 1), 250, "pending")]);
            s[9] == 350 && forall i :: 0 <= i < MonthsShown && i != 9 ==> s[i] == 0
  {
    var orders := [Order(YearMonth(2025, 1), 100, "paid"), Order(YearMonth(2025, 1), 250, "pending")];
    var jan := YearMonth(2025, 1);
    var w := Window(YearMonth(2025, 3));
    OrdinalInjective(w[9], jan);
    assert SumWhere(orders, OrderMonth, OrderAmount, jan) == 350 by {
      assert orders[..1] == [orders[0]] && orders[..1][..0] == [];
    }
    forall i | 0 <= i < MonthsShown && i != 9 ensures SumWhere(orders, OrderMonth, OrderAmount, w[i]) == 0 {
      OrdinalInjective(w[i], jan);
      assert forall j :: 0 <= j < |orders| ==> OrderMonth(orders[j]) == jan;
    }
  }

  lemma MarchLabel()
    ensures Label(YearMonth(2025, 3)) == "Mar 2025"
  {
    assert Digits(2025) == "2025" by {
      assert Digits(2) == "2" && Digits(20) == "20" && Digits(202) == "202";
    }
  }

  // ---------------------------------------------------------------------------
  // The window as written: Carbon::now()->subMonths($monthsBack) on full dates
  // ---------------------------------------------------------------------------

  /** The months the source actually queries when "now" is the date `now` (Carbon's overflowing `subMonths`). */
  function CarbonWindow(now: Date): (w: seq<YearMonth>)
    requires now.Valid()
    ensures |w| == MonthsShown
  {
    seq(MonthsShown, i requires 0 <= i < MonthsShown => SubMonthsOverflow(now, MonthsShown - 1 - i).YM())
  }

  /** Each month the source queries is the intended one or, after a day overflow, the month after it. */
  lemma CarbonWindowEntry(now: Date, i: int)
    requires now.Valid() && 0 <= i < MonthsShown
    ensures CarbonWindow(now)[i] == Window(now.YM())[i] || CarbonWindow(now)[i] == NextMonth(Window(now.YM())[i])
    ensures now.day <= 28 ==> CarbonWindow(now)[i] == Window(now.YM())[i]
    ensures var m := Window(now.YM())[i];
            CarbonWindow(now)[i] == if now.day <= DaysInMonth(m.year, m.month) then m else NextMonth(m)
  {
    assert CarbonWindow(now)[i] == SubMonthsOverflow(now, MonthsShown - 1 - i).YM();
  }

  /** On days 1 to 28 of a month no target month is too short, and the window as written is the intended one. */
  lemma CarbonWindowEarlyInMonth(now: Date)
    requires now.Valid() && now.day <= 28
    ensures CarbonWindow(now) == Window(now.YM())
  {
    forall i | 0 <= i < MonthsShown ensures CarbonWindow(now)[i] == Window(now.YM())[i] {
      CarbonWindowEntry(now, i);
    }
  }

  /** The intended window seen from March 2025: April 2024 to March 2025. */
  lemma WindowOfMarch2025()
    ensures Window(YearMonth(2025, 3)) ==
              [YearMonth(2024, 4), YearMonth(2024, 5), YearMonth(2024, 6), YearMonth(2024, 7),
               YearMonth(2024, 8), YearMonth(2024, 9), YearMonth(2024, 10), YearMonth(2024, 11),
               YearMonth(2024, 12), YearMonth(2025, 1), YearMonth(2025, 2), YearMonth(2025, 3)]
  {
    var w := Window(YearMonth(2025, 3));
    OrdinalInjective(w[0], YearMonth(2024, 4));
    OrdinalInjective(w[1], YearMonth(2024, 5));
    OrdinalInjective(w[2], YearMonth(2024, 6));
    OrdinalInjective(w[3], YearMonth(2024, 7));
    OrdinalInjective(w[4], YearMonth(2024, 8));
    OrdinalInjective(w[5], YearMonth(2024, 9));
    OrdinalInjective(w[6], YearMonth(2024, 10));
    OrdinalInjective(w[7], YearMonth(2024, 11));
    OrdinalInjective(w[8], YearMonth(2024, 12));
    OrdinalInjective(w[9], YearMonth(2025, 1));
    OrdinalInjective(w[10], YearMonth(2025, 2));
    OrdinalInjective(w[11], YearMonth(2025, 3));
  }

  /**
   * On 31 March 2025 every target month shorter than 31 days overflows into
   * the month after it: the window as written queries May, July, October and
   * December 2024 and March 2025 twice each.
   */
  lemma CarbonWindowOnMarch31()
    ensures CarbonWindow(Date(2025, 3, 31)) ==
              [YearMonth(2024, 5), YearMonth(2024, 5), YearMonth(2024, 7), YearMonth(2024, 7),
               YearMonth(2024, 8), YearMonth(2024, 10), YearMonth(2024, 10), YearMonth(2024, 12),
               YearMonth(2024, 12), YearMonth(2025, 1), YearMonth(2025, 3), YearMonth(2025, 3)]
  {
    var now := Date(2025, 3, 31);
    WindowOfMarch2025();
    CarbonWindowEntry(now, 0);
    CarbonWindowEntry(now, 1);
    CarbonWindowEntry(now, 2);
    CarbonWindowEntry(now, 3);
    CarbonWindowEntry(now, 4);
    CarbonWindowEntry(now, 5);
    CarbonWindowEntry(now, 6);
    CarbonWindowEntry(now, 7);
    CarbonWindowEntry(now, 8);
    CarbonWindowEntry(now, 9);
    CarbonWindowEntry(now, 10);
    CarbonWindowEntry(now, 11);
  }

  /** Hence five of the twelve intended months are never queried on 31 March 2025. */
  lemma CarbonWindowOnMarch31SkipsFiveMonths()
    ensures var w := CarbonWindow(Date(2025, 3, 31));
            && YearMonth(2024, 4) !in w && YearMonth(2024, 6) !in w && YearMonth(2024, 9) !in w
            && YearMonth(2024, 11) !in w && YearMonth(2025, 2) !in w
  {
    CarbonWindowOnMarch31();
  }

  /**
   * On any day later than the last day of the February inside the window
   * (the 30th and the 31st always, the 29th when that February has 28 days), that
   * February is in the intended window but is never queried as written.
   */
  lemma CarbonWindowSkipsFebruaryLateInMonth(now: Date)
    requires now.Valid()
    requires var febYear := if now.month >= 2 then now.year else now.year - 1;
             now.day > DaysInMonth(febYear, 2)
    ensures var feb := YearMonth(if now.month >= 2 then now.year else now.year - 1, 2);
            feb in Window(now.YM()) && feb !in CarbonWindow(now)
  {
    var feb := YearMonth(if now.month >= 2 then now.year else now.year - 1, 2);
    var intended, w := Window(now.YM()), CarbonWindow(now);
    var k := Ordinal(now.YM()) - Ordinal(feb);
    assert 0 <= k < MonthsShown;
    var j := MonthsShown - 1 - k;
    OrdinalInjective(intended[j], feb);
    forall i | 0 <= i < MonthsShown ensures w[i] != feb {
      CarbonWindowEntry(now, i);
      if i == j {
        assert w[j] == SubMonthsOverflow(now, k).YM();
        OrdinalInjective(MonthsBack(now.YM(), k), feb);
      } else if i == j - 1 {
        var jan := YearMonth(feb.year, 1);
        OrdinalInjective(intended[i], jan);
        assert w[i] == SubMonthsOverflow(now, k + 1).YM();
        OrdinalInjective(MonthsBack(now.YM(), k + 1), jan);
      }
    }
  }

  /** Consequence: a February 2025 sale never reaches the chart drawn on 31 March 2025, although the intended window shows it. */
  lemma CarbonWindowLosesFebruarySales()
    ensures var orders := [Order(YearMonth(2025, 2), 100, "completed")];
            && Total(Buckets(orders, OrderMonth, OrderAmount, CarbonWindow(Date(2025, 3, 31)))) == 0
            && Total(SalesSeries(YearMonth(2025, 3), orders)) == 100
  {
    var orders := [Order(YearMonth(2025, 2), 100, "completed")];
    var asWritten := CarbonWindow(Date(2025, 3, 31));
    CarbonWindowSkipsFebruaryLateInMonth(Date(2025, 3, 31));
    BucketsTotal(orders, OrderMonth, OrderAmount, Window(YearMonth(2025, 3)));
    WindowMembership(YearMonth(2025, 3), YearMonth(2025, 2));
    assert orders[..0] == [];
    assert SumWhereAny(orders, OrderMonth, OrderAmount, Window(YearMonth(2025, 3))) == 100;
    BucketsZeroWhenUnmatched(orders, asWritten);
  }

  lemma {:induction false} BucketsZeroWhenUnmatched(orders: seq<Order>, ks: seq<YearMonth>)
    requires forall i :: 0 <= i < |orders| ==> orders[i].createdAt !in ks
    ensures Total(Buckets(orders, OrderMonth, OrderAmount, ks)) == 0
  {
    if ks != [] {
      BucketsZeroWhenUnmatched(orders, ks[1..]);
    }
  }
}
