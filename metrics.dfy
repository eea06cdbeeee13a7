/** Two small rules of the operations and marketing tabs: the speed class of
    an order's waiting time, and the weekly marketing efficiency ratio (MER),
    sales of the week over its ad spend. */
module Metrics {
  import opened Values
  import opened Normalize
  import opened Master
  import Frames

  // ---------------------------------------------------------------------------
  // Waiting-time classes

  datatype Speed = Fast | Normal | Slow

  /** Up to five minutes is fast, up to ten normal, anything longer slow. */
  function ClassifySpeed(minutes: real): (s: Speed)
    ensures s == Fast <==> minutes <= 5.0
    ensures s == Slow <==> minutes > 10.0
  {
    if minutes <= 5.0 then Fast else if minutes <= 10.0 then Normal else Slow
  }

  function SpeedLabel(s: Speed): string
  {
    match s
    case Fast => "\U{1F7E2} R\U{C1}PIDO"
    case Normal => "\U{1F7E1} NORMAL"
    case Slow => "\U{1F534} LENTO"
  }

  function Rank(s: Speed): nat
  {
    match s
    case Fast => 0
    case Normal => 1
    case Slow => 2
  }

  /** A longer wait never gets a faster class. */
  lemma SpeedMonotone(m1: real, m2: real)
    requires m1 <= m2
    ensures Rank(ClassifySpeed(m1)) <= Rank(ClassifySpeed(m2))
  {
  }

  /** Exactly five minutes is still fast and exactly ten still normal. */
  lemma SpeedBoundaries()
    ensures ClassifySpeed(5.0) == Fast && ClassifySpeed(10.0) == Normal
    ensures ClassifySpeed(10.5) == Slow
  {
  }

  function CountSlow(ms: seq<real>): (n: nat)
    ensures n <= |ms|
  {
    if |ms| == 0 then 0
    else CountSlow(ms[..|ms| - 1]) + (if ClassifySpeed(ms[|ms| - 1]) == Slow then 1 else 0)
  }

  /** Independent reference: the positions of the orders that waited more
      than ten minutes. */
  function SlowPositions(ms: seq<real>): set<int>
  {
    set i | 0 <= i < |ms| && ms[i] > 10.0
  }

  /** The count of slow orders is the number of slow positions. */
  lemma {:induction false} CountSlowPositions(ms: seq<real>)
    ensures CountSlow(ms) == |SlowPositions(ms)|
  {
    if |ms| > 0 {
      var n := |ms| - 1;
      var init := ms[..n];
      CountSlowPositions(init);
      assert n !in SlowPositions(init);
      if ms[n] > 10.0 {
        assert SlowPositions(ms) == SlowPositions(init) + {n};
      } else {
        assert SlowPositions(ms) == SlowPositions(init);
      }
    }
  }

  /** The share of slow orders, in percent, over the valid waiting times
      (the tab stops before this when there are none). */
  function SlowPercent(ms: seq<real>): (p: real)
    requires |ms| > 0
    ensures 0.0 <= p <= 100.0
    ensures p == 0.0 <==> forall i :: 0 <= i < |ms| ==> ms[i] <= 10.0
    ensures p * (|ms| as real) == 100.0 * (|SlowPositions(ms)| as real)
  {
    NoSlowIff(ms);
    PercentBounds(CountSlow(ms), |ms|);
    CountSlowPositions(ms);
    PercentTimes(CountSlow(ms), |ms|);
    (CountSlow(ms) as real / |ms| as real) * 100.0
  }

  lemma PercentTimes(c: nat, n: nat)
    requires n > 0
    ensures (c as real / n as real) * 100.0 * (n as real) == 100.0 * (c as real)
  {
    var x, m := c as real, n as real;
    DivTimes(x, m);
    assert (x / m) * 100.0 * m == ((x / m) * m) * 100.0;
  }

  lemma PercentBounds(c: nat, n: nat)
    requires c <= n && n > 0
    ensures 0.0 <= (c as real / n as real) * 100.0 <= 100.0
    ensures (c as real / n as real) * 100.0 == 0.0 <==> c == 0
  {
    var x, m := c as real, n as real;
    var q := x / m;
    DivTimes(x, m);
    assert (-q) * m == -x;
    PositiveProduct(-q, m);
    assert (q - 1.0) * m == x - m;
    PositiveProduct(q - 1.0, m);
    PositiveProduct(q, m);
  }


  lemma {:induction false} NoSlowIff(ms: seq<real>)
    ensures CountSlow(ms) == 0 <==> forall i :: 0 <= i < |ms| ==> ms[i] <= 10.0
  {
    if |ms| > 0 {
      var init := ms[..|ms| - 1];
      NoSlowIff(init);
      assert forall i :: 0 <= i < |init| ==> init[i] == ms[i];
    }
  }

  // ---------------------------------------------------------------------------
  // Weekly MER

  /** One row of the marketing sheet: its closing day (absent when the date
      did not parse), the spend cell and the review-count cell, each of them
      `Number(0.0)` when the sheet has no such column. */
  datatype MarketingRow = MarketingRow(closing: Option<int>, spend: Value, reviews: Value)

  /** One line of the weekly report. */
  datatype WeekLine = WeekLine(closing: int, spend: real, sales: real, mer: real, reviews: real)

  /** Sales whose day lies in `[lo, hi]`. */
  function WindowSales(sales: seq<Sale>, lo: int, hi: int): (r: real)
    ensures (forall i :: 0 <= i < |sales| ==> !(lo <= sales[i].date <= hi)) ==> r == 0.0
    ensures (forall i :: 0 <= i < |sales| ==> sales[i].amount >= 0.0) ==> r >= 0.0
  {
    if |sales| == 0 then 0.0
    else
      var s := sales[|sales| - 1];
      WindowSales(sales[..|sales| - 1], lo, hi) + (if lo <= s.date <= hi then s.amount else 0.0)
  }

  /** The ratio of sales to spend; 0 when nothing was spent. */
  function Mer(venta: real, gasto: real): (r: real)
    ensures gasto > 0.0 ==> r * gasto == venta
    ensures gasto <= 0.0 ==> r == 0.0
  {
    if gasto > 0.0 then venta / gasto else 0.0
  }

  /** The report line of a week closing on `fin`: the sales of the seven days
      ending at `fin` against the week's spend. */
  function Line(fin: int, row: MarketingRow, sales: seq<Sale>): (l: WeekLine)
    ensures l.closing == fin && l.spend == SafeFloat(row.spend) && l.reviews == SafeFloat(row.reviews)
    ensures Sound(l, sales)
  {
    var gasto := SafeFloat(row.spend);
    var venta := WindowSales(sales, fin - 6, fin);
    var reviews := SafeFloat(row.reviews);
    LineOf(fin, gasto, reviews, sales);
    WeekLine(fin, gasto, venta, Mer(venta, gasto), reviews)
  }

  /** Which rows have a parsed closing day. */
  function DatedFlags(rows: seq<MarketingRow>): (b: seq<bool>)
    ensures |b| == |rows| && forall i :: 0 <= i < |rows| ==> (b[i] <==> rows[i].closing.Some?)
  {
    seq(|rows|, i requires 0 <= i < |rows| => rows[i].closing.Some?)
  }

  /** The rows whose closing day parsed (the `dropna`), in row order: row `j`
      of the result is the row at the `j`-th dated position, and every dated
      position is one of them. */
  function DatedRows(rows: seq<MarketingRow>): (d: seq<MarketingRow>)
    ensures Frames.Picks(rows, Frames.Kept(DatedFlags(rows)), d)
    ensures forall i :: 0 <= i < |d| ==> d[i].closing.Some?
  {
    if |rows| == 0 then []
    else
      var n := |rows| - 1;
      var init := DatedRows(rows[..n]);
      assert DatedFlags(rows)[..n] == DatedFlags(rows[..n]);
      Frames.PicksSnoc(rows, Frames.Kept(DatedFlags(rows[..n])), init, rows[n].closing.Some?);
      init + (if rows[n].closing.Some? then [rows[n]] else [])
  }

  /** The report: one line per row whose closing day parsed, in row order,
      each of them sound and carrying its own row's closing day, spend and
      review count. */
  function Report(rows: seq<MarketingRow>, sales: seq<Sale>): (r: seq<WeekLine>)
    ensures |r| == |DatedRows(rows)|
    ensures forall i :: 0 <= i < |r| ==> Sound(r[i], sales)
    ensures forall i :: 0 <= i < |r| ==>
      var d := DatedRows(rows)[i];
      r[i].closing == d.closing.value && r[i].spend == SafeFloat(d.spend) && r[i].reviews == SafeFloat(d.reviews)
  {
    if |rows| == 0 then []
    else
      var r := rows[|rows| - 1];
      Report(rows[..|rows| - 1], sales) + (if r.closing.Some? then [Line(r.closing.value, r, sales)] else [])
  }

  /** The loop over the marketing rows that appends one line per week. */
  method WeeklyReport(rows: seq<MarketingRow>, sales: seq<Sale>) returns (report: seq<WeekLine>)
    ensures report == Report(rows, sales)
  {
    report := [];
    for k := 0 to |rows|
      invariant report == Report(rows[..k], sales)
    {
      assert rows[..k + 1][..k] == rows[..k];
      ReportStep(rows[..k + 1], sales);
      if rows[k].closing.Some? {
        var fila := ProcessWeek(rows[k].closing.value, rows[k], sales);
        report := report + [fila];
      }
    }
    assert rows[..|rows|] == rows;
  }

  /** The body of that loop for a week closing on `fechaFin`. */
  method ProcessWeek(fechaFin: int, row: MarketingRow, sales: seq<Sale>) returns (fila: WeekLine)
    ensures fila.closing == fechaFin && fila.spend == SafeFloat(row.spend) && fila.reviews == SafeFloat(row.reviews)
    ensures Sound(fila, sales)
    ensures fila == Line(fechaFin, row, sales)
  {
    var fechaIni := fechaFin - 6;
    var ventaSemanal := WindowSales(sales, fechaIni, fechaFin);
    var gasto := SafeFloat(row.spend);
    var mer := if gasto > 0.0 then ventaSemanal / gasto else 0.0;
    var reviews := SafeFloat(row.reviews);
    fila := WeekLine(fechaFin, gasto, ventaSemanal, mer, reviews);
    LineOf(fechaFin, gasto, reviews, sales);
  }

  lemma ReportStep(rows: seq<MarketingRow>, sales: seq<Sale>)
    requires |rows| > 0
    ensures rows[|rows| - 1].closing.Some? ==>
      Report(rows, sales) == Report(rows[..|rows| - 1], sales) + [Line(rows[|rows| - 1].closing.value, rows[|rows| - 1], sales)]
    ensures rows[|rows| - 1].closing.None? ==> Report(rows, sales) == Report(rows[..|rows| - 1], sales)
  {
  }

  /** A report line holds the sales of its seven-day window, and its ratio
      times its spend gives those sales back when something was spent; the
      ratio is 0 otherwise. */
  predicate Sound(l: WeekLine, sales: seq<Sale>)
  {
    l.sales == WindowSales(sales, l.closing - 6, l.closing)
    && (l.spend > 0.0 ==> l.mer * l.spend == l.sales)
    && (l.spend <= 0.0 ==> l.mer == 0.0)
  }

  lemma LineOf(fin: int, gasto: real, reviews: real, sales: seq<Sale>)
    ensures Sound(WeekLine(fin, gasto, WindowSales(sales, fin - 6, fin),
                           Mer(WindowSales(sales, fin - 6, fin), gasto), reviews), sales)
  {
  }

  /** A row whose closing day did not parse adds no line. */
  lemma UndatedRowDropped(rows: seq<MarketingRow>, row: MarketingRow, sales: seq<Sale>)
    requires row.closing.None?
    ensures Report(rows + [row], sales) == Report(rows, sales)
  {
    assert (rows + [row])[..|rows|] == rows;
  }

  // ---------------------------------------------------------------------------
  // The MER window and the daily series

  /** Independent reference: the daily revenue of the master series summed
      over the days `lo` to `hi`. */
  function DailyRevenueSum(sales: seq<Sale>, lo: int, hi: int): real
    decreases hi - lo
  {
    if hi < lo then 0.0 else DailyRevenueSum(sales, lo, hi - 1) + Revenue(sales, hi)
  }

  lemma {:induction false} WindowSalesSplit(sales: seq<Sale>, lo: int, hi: int)
    requires lo <= hi
    ensures WindowSales(sales, lo, hi) == WindowSales(sales, lo, hi - 1) + Revenue(sales, hi)
  {
    if |sales| > 0 {
      WindowSalesSplit(sales[..|sales| - 1], lo, hi);
    }
  }

  lemma {:induction false} WindowSalesEmpty(sales: seq<Sale>, lo: int, hi: int)
    requires hi < lo
    ensures WindowSales(sales, lo, hi) == 0.0
  {
    if |sales| > 0 {
      WindowSalesEmpty(sales[..|sales| - 1], lo, hi);
    }
  }

  /** The week's sales are the master series' daily revenue summed over the
      seven days of the window. */
  lemma {:induction false} WindowIsDailySum(sales: seq<Sale>, lo: int, hi: int)
    ensures WindowSales(sales, lo, hi) == DailyRevenueSum(sales, lo, hi)
    decreases hi - lo
  {
    if hi < lo {
      WindowSalesEmpty(sales, lo, hi);
    } else {
      WindowSalesSplit(sales, lo, hi);
      WindowIsDailySum(sales, lo, hi - 1);
    }
  }

  /** Independent reference: the spread ad spend of the master series summed
      over the days `lo` to `hi`. */
  function DailySpendSum(ads: seq<WeeklyAd>, lo: int, hi: int): real
    decreases hi - lo
  {
    if hi < lo then 0.0 else DailySpendSum(ads, lo, hi - 1) + WindowSpend(ads, hi)
  }

  lemma OneWeekDay(c: int, s: real, d: int)
    ensures WindowSpend([WeeklyAd(Some(c), s)], d) == if c - 6 <= d <= c then s / 7.0 else 0.0
  {
    assert [WeeklyAd(Some(c), s)][..0] == [];
  }

  lemma {:induction false} OneWeekPartial(c: int, s: real, k: nat)
    requires k <= 7
    ensures DailySpendSum([WeeklyAd(Some(c), s)], c - 6, c - 7 + k) == (k as real) * (s / 7.0)
  {
    if k > 0 {
      OneWeekPartial(c, s, k - 1);
      OneWeekDay(c, s, c - 7 + k);
    }
  }

  /** The MER window of a week is the set of days its spend is spread over:
      the week's spend, spread by the master series, adds up over the MER
      window to the whole spend. */
  lemma WindowHoldsWholeSpend(c: int, s: real)
    ensures DailySpendSum([WeeklyAd(Some(c), s)], c - 6, c) == s
  {
    OneWeekPartial(c, s, 7);
  }

  /** With 700 of sales on day 10 and 140 on day 3 and a spend of 70 for the
      week closing on day 10, the week's MER is 10. */
  lemma MerExample()
    ensures Line(10, MarketingRow(Some(10), Number(70.0), Number(0.0)),
                 [Sale(3, 140.0, 1.0), Sale(10, 700.0, 1.0)]).mer == 10.0
  {
    var sales := [Sale(3, 140.0, 1.0), Sale(10, 700.0, 1.0)];
    assert sales[..1] == [Sale(3, 140.0, 1.0)];
    assert sales[..1][..0] == [];
    assert WindowSales(sales, 4, 10) == 700.0;
  }
}
