// crear_caracteristicas_temporales (src/utils/data_handler.py): the feature
// frame derived from a date-sorted price series. Every column is a
// whole-sequence function of the date and price columns, as pandas computes
// it: shift, rolling(window).mean()/std() with a full window required, and
// diff, all of which yield NaN (None) where an operand is NaN or missing.
// sin, cos, sqrt and pi are numpy's float functions; the model leaves them
// uninterpreted and receives them as a Numerics record.
module Features {
  import opened Wrappers
  import opened Calendar
  import opened Series

  datatype Numerics = Numerics(pi: real, sin: real -> real, cos: real -> real, sqrt: real -> real)

  /** One row of df_features. */
  datatype FeatureRow = FeatureRow(
    date: Date, price: Option<real>,
    year: int, month: int, dayOfYear: int, quarter: int,
    monthSin: real, monthCos: real, daySin: real, dayCos: real,
    daysSinceStart: int,
    lag1: Option<real>, lag2: Option<real>, lag3: Option<real>,
    ma3: Option<real>, ma6: Option<real>, std3: Option<real>,
    diff1: Option<real>, diff2: Option<real>)

  // ---------------------------------------------------------------------
  // Column operations

  /** Series.shift(k): the value k rows earlier, NaN for the first k rows. */
  function Shift(col: seq<Option<real>>, k: nat): (r: seq<Option<real>>)
    ensures |r| == |col|
    ensures forall i :: 0 <= i < |col| ==> r[i] == if i >= k then col[i - k] else None
  {
    var n := if k <= |col| then k else |col|;
    var pad := seq(n, _ => None);
    var r := pad + col[..|col| - n];
    assert forall i :: n <= i < |col| ==> r[i] == col[i - n];
    r
  }

  /** The sum of a window, NaN if any value in it is NaN. */
  function WindowSum(xs: seq<Option<real>>): (s: Option<real>)
    ensures s.Some? <==> forall j :: 0 <= j < |xs| ==> xs[j].Some?
  {
    if xs == [] then Some(0.0)
    else
      var rest := WindowSum(xs[1..]);
      assert forall j :: 1 <= j < |xs| ==> xs[j] == xs[1..][j - 1];
      if xs[0].Some? && rest.Some? then Some(xs[0].value + rest.value) else None
  }

  /** The w rows ending at row i. */
  function Window(col: seq<Option<real>>, i: int, w: nat): seq<Option<real>>
    requires w >= 1 && w - 1 <= i < |col|
  {
    col[i - w + 1..i + 1]
  }

  /** Series.rolling(window=w).mean() at row i: NaN until the window is full
      and whenever it holds a NaN. */
  function RollingMean(col: seq<Option<real>>, i: int, w: nat): Option<real>
    requires w >= 1 && 0 <= i < |col|
  {
    if i < w - 1 then None
    else
      var s := WindowSum(Window(col, i, w));
      if s.Some? then Some(s.value / w as real) else None
  }

  /** Series.rolling(window=3).std() at row i: the sample (ddof=1) standard
      deviation of rows i-2..i. */
  function RollingStd3(col: seq<Option<real>>, i: int, num: Numerics): Option<real>
    requires 0 <= i < |col|
  {
    if i < 2 then None
    else
      var xs := Window(col, i, 3);
      var s := WindowSum(xs);
      if s.Some? then Some(num.sqrt(SquaredDeviations(Present(xs), s.value / 3.0) / 2.0)) else None
  }

  /** Series.diff(k): the change from k rows earlier. */
  function Diff(col: seq<Option<real>>, k: nat): (r: seq<Option<real>>)
    requires k >= 1
    ensures |r| == |col|
    ensures forall i :: 0 <= i < |col| ==>
              (r[i].Some? <==> i >= k && col[i].Some? && col[i - k].Some?) &&
              (r[i].Some? ==> r[i].value == col[i].value - col[i - k].value)
  {
    var prev := Shift(col, k);
    seq(|col|, i requires 0 <= i < |col| =>
      if col[i].Some? && prev[i].Some? then Some(col[i].value - prev[i].value) else None)
  }

  // ---------------------------------------------------------------------
  // The feature frame

  function CalendarRow(d: Date, num: Numerics): (f: (int, int, int, int, real, real, real, real))
    requires WellFormed(d)
  {
    var doy := DayOfYear(d);
    (d.year, d.month, doy, Quarter(d.month),
     num.sin(2.0 * num.pi * d.month as real / 12.0), num.cos(2.0 * num.pi * d.month as real / 12.0),
     num.sin(2.0 * num.pi * doy as real / 365.0), num.cos(2.0 * num.pi * doy as real / 365.0))
  }

  /** Row i of the feature frame, read off the whole-frame columns. */
  function FeatureAt(rows: seq<Row>, i: int, num: Numerics): (f: FeatureRow)
    requires DatesValid(rows) && 0 <= i < |rows|
    ensures f.date == rows[i].date && f.price == rows[i].price
    ensures 1 <= f.month <= 12 && f.year == rows[i].date.year
    ensures 1 <= f.quarter <= 4 && f.quarter == (f.month - 1) / 3 + 1
    ensures 1 <= f.dayOfYear <= (if IsLeap(f.year) then 366 else 365)
  {
    var ps := Prices(rows);
    var c := CalendarRow(rows[i].date, num);
    FeatureRow(rows[i].date, rows[i].price, c.0, c.1, c.2, c.3, c.4, c.5, c.6, c.7,
               Ordinal(rows[i].date) - Ordinal(EarliestDate(rows)),
               Shift(ps, 1)[i], Shift(ps, 2)[i], Shift(ps, 3)[i],
               RollingMean(ps, i, 3), RollingMean(ps, i, 6), RollingStd3(ps, i, num),
               Diff(ps, 1)[i], Diff(ps, 2)[i])
  }

  /** crear_caracteristicas_temporales: one feature row per input row, in order;
      the date and price columns are carried over unchanged. */
  function Synthesize(rows: seq<Row>, num: Numerics): (r: seq<FeatureRow>)
    requires DatesValid(rows)
    ensures |r| == |rows|
    ensures forall i :: 0 <= i < |rows| ==> r[i].date == rows[i].date && r[i].price == rows[i].price
    ensures forall i :: 0 <= i < |rows| ==> 1 <= r[i].month <= 12 && r[i].year == rows[i].date.year
    ensures forall i :: 0 <= i < |rows| ==>
              1 <= r[i].quarter <= 4 && r[i].quarter == (r[i].month - 1) / 3 + 1
    ensures forall i :: 0 <= i < |rows| ==>
              1 <= r[i].dayOfYear <= (if IsLeap(r[i].year) then 366 else 365)
  {
    seq(|rows|, i requires 0 <= i < |rows| => FeatureAt(rows, i, num))
  }

  /** precio_lag1/2/3 at row i is the price 1/2/3 rows earlier, NaN before that. */
  lemma LagFeatures(rows: seq<Row>, num: Numerics, i: int)
    requires DatesValid(rows) && 0 <= i < |rows|
    ensures Synthesize(rows, num)[i].lag1 == if i >= 1 then rows[i - 1].price else None
    ensures Synthesize(rows, num)[i].lag2 == if i >= 2 then rows[i - 2].price else None
    ensures Synthesize(rows, num)[i].lag3 == if i >= 3 then rows[i - 3].price else None
  {
  }

  lemma {:induction false} WindowSum3(a: Option<real>, b: Option<real>, c: Option<real>)
    ensures WindowSum([a, b, c]).Some? <==> a.Some? && b.Some? && c.Some?
    ensures WindowSum([a, b, c]).Some? ==> WindowSum([a, b, c]).value == a.value + b.value + c.value
  {
    assert [c][1..] == [];
    assert WindowSum([c]) == if c.Some? then Some(c.value + 0.0) else None;
    assert [b, c][1..] == [c];
    assert WindowSum([b, c]) == if b.Some? && c.Some? then Some(b.value + c.value) else None;
    assert [a, b, c][1..] == [b, c];
  }

  lemma {:induction false} WindowSumSplit(xs: seq<Option<real>>, ys: seq<Option<real>>)
    ensures WindowSum(xs + ys).Some? <==> WindowSum(xs).Some? && WindowSum(ys).Some?
    ensures WindowSum(xs + ys).Some? ==> WindowSum(xs + ys).value == WindowSum(xs).value + WindowSum(ys).value
  {
    if xs == [] {
      assert xs + ys == ys;
    } else {
      assert (xs + ys)[1..] == xs[1..] + ys;
      assert (xs + ys)[0] == xs[0];
      WindowSumSplit(xs[1..], ys);
    }
  }

  /** precio_ma3 at row i >= 2 is the mean of the prices of rows i-2..i, and
      NaN when the window is incomplete or holds a NaN. */
  lemma MovingAverage3(rows: seq<Row>, num: Numerics, i: int)
    requires DatesValid(rows) && 0 <= i < |rows|
    ensures Synthesize(rows, num)[i].ma3.Some? <==>
              i >= 2 && rows[i - 2].price.Some? && rows[i - 1].price.Some? && rows[i].price.Some?
    ensures Synthesize(rows, num)[i].ma3.Some? ==>
              Synthesize(rows, num)[i].ma3.value ==
                (rows[i - 2].price.value + rows[i - 1].price.value + rows[i].price.value) / 3.0
  {
    if i >= 2 {
      var ps := Prices(rows);
      assert Window(ps, i, 3) == [rows[i - 2].price, rows[i - 1].price, rows[i].price];
      WindowSum3(rows[i - 2].price, rows[i - 1].price, rows[i].price);
    }
  }

  lemma WindowSum6(col: seq<Option<real>>, i: int)
    requires 5 <= i < |col|
    ensures WindowSum(Window(col, i, 6)).Some? <==> forall j :: i - 5 <= j <= i ==> col[j].Some?
    ensures WindowSum(Window(col, i, 6)).Some? ==>
              WindowSum(Window(col, i, 6)).value ==
                col[i - 5].value + col[i - 4].value + col[i - 3].value +
                col[i - 2].value + col[i - 1].value + col[i].value
  {
    var w := Window(col, i, 6);
    var lo, hi := col[i - 5..i - 2], col[i - 2..i + 1];
    assert w == lo + hi;
    assert lo == [col[i - 5], col[i - 4], col[i - 3]];
    assert hi == [col[i - 2], col[i - 1], col[i]];
    WindowSumSplit(lo, hi);
    WindowSum3(col[i - 5], col[i - 4], col[i - 3]);
    WindowSum3(col[i - 2], col[i - 1], col[i]);
    if !(forall j :: i - 5 <= j <= i ==> col[j].Some?) {
      var j :| i - 5 <= j <= i && col[j].None?;
      assert j < i - 2 ==> lo[j - (i - 5)] == col[j];
      assert j >= i - 2 ==> hi[j - (i - 2)] == col[j];
    }
  }

  /** precio_ma6 at row i >= 5 is the mean of the prices of rows i-5..i, and
      NaN when the window is incomplete or holds a NaN. */
  lemma MovingAverage6(rows: seq<Row>, num: Numerics, i: int)
    requires DatesValid(rows) && 0 <= i < |rows|
    ensures Synthesize(rows, num)[i].ma6.Some? <==>
              i >= 5 && forall j :: i - 5 <= j <= i ==> rows[j].price.Some?
    ensures Synthesize(rows, num)[i].ma6.Some? ==>
              Synthesize(rows, num)[i].ma6.value ==
                (rows[i - 5].price.value + rows[i - 4].price.value + rows[i - 3].price.value +
                 rows[i - 2].price.value + rows[i - 1].price.value + rows[i].price.value) / 6.0
  {
    var ps := Prices(rows);
    assert Synthesize(rows, num)[i] == FeatureAt(rows, i, num);
    assert Synthesize(rows, num)[i].ma6 == RollingMean(ps, i, 6);
    if i >= 5 {
      WindowSum6(ps, i);
      assert ps[i - 5] == rows[i - 5].price && ps[i - 4] == rows[i - 4].price && ps[i - 3] == rows[i - 3].price;
      assert ps[i - 2] == rows[i - 2].price && ps[i - 1] == rows[i - 1].price && ps[i] == rows[i].price;
    }
  }

  /** precio_diff1 and precio_diff2: the change from one and two rows earlier,
      NaN for the first rows or when either price is NaN. */
  lemma Differences(rows: seq<Row>, num: Numerics, i: int)
    requires DatesValid(rows) && 0 <= i < |rows|
    ensures Synthesize(rows, num)[i].diff1.Some? <==> i >= 1 && rows[i].price.Some? && rows[i - 1].price.Some?
    ensures Synthesize(rows, num)[i].diff1.Some? ==>
              Synthesize(rows, num)[i].diff1.value == rows[i].price.value - rows[i - 1].price.value
    ensures Synthesize(rows, num)[i].diff2.Some? <==> i >= 2 && rows[i].price.Some? && rows[i - 2].price.Some?
    ensures Synthesize(rows, num)[i].diff2.Some? ==>
              Synthesize(rows, num)[i].diff2.value == rows[i].price.value - rows[i - 2].price.value
  {
  }

  /** The day distance of row i from the earliest date: never negative, and
      zero exactly when row i carries the earliest date. */
  lemma DistanceFromEarliest(rows: seq<Row>, i: int)
    requires DatesValid(rows) && 0 <= i < |rows|
    ensures Ordinal(rows[i].date) - Ordinal(EarliestDate(rows)) >= 0
    ensures Ordinal(rows[i].date) == Ordinal(EarliestDate(rows)) <==>
              forall j :: 0 <= j < |rows| ==> NotAfter(rows[i].date, rows[j].date)
  {
    var start := EarliestDate(rows);
    var k :| 0 <= k < |rows| && rows[k].date == start;
    assert Valid(rows[k].date) && Valid(rows[i].date);
    OrdinalOrder(start, rows[i].date);
    if forall j :: 0 <= j < |rows| ==> NotAfter(rows[i].date, rows[j].date) {
      assert NotAfter(rows[i].date, rows[k].date);
    } else {
      var j :| 0 <= j < |rows| && !NotAfter(rows[i].date, rows[j].date);
      assert NotAfter(start, rows[j].date);
    }
  }

  /** days_since_start counts days from the frame's earliest date: never
      negative, and zero exactly on the rows carrying that date. */
  lemma DaysSinceStart(rows: seq<Row>, num: Numerics, i: int)
    requires DatesValid(rows) && 0 <= i < |rows|
    ensures Synthesize(rows, num)[i].daysSinceStart >= 0
    ensures Synthesize(rows, num)[i].daysSinceStart == 0 <==>
              forall j :: 0 <= j < |rows| ==> NotAfter(rows[i].date, rows[j].date)
  {
    assert Synthesize(rows, num)[i] == FeatureAt(rows, i, num);
    DistanceFromEarliest(rows, i);
  }

  /** A row whose price is NaN has no moving average, deviation or
      difference: each of them reads the row's own price. */
  lemma OwnPriceMissing(rows: seq<Row>, num: Numerics, i: int)
    requires DatesValid(rows) && 0 <= i < |rows| && rows[i].price.None?
    ensures Synthesize(rows, num)[i].ma3.None? && Synthesize(rows, num)[i].ma6.None?
    ensures Synthesize(rows, num)[i].std3.None?
    ensures Synthesize(rows, num)[i].diff1.None? && Synthesize(rows, num)[i].diff2.None?
  {
    var f := Synthesize(rows, num)[i];
    var ps := Prices(rows);
    assert f == FeatureAt(rows, i, num);
    assert ps[i].None?;
    assert f.ma3 == RollingMean(ps, i, 3) && f.ma6 == RollingMean(ps, i, 6);
    assert f.std3 == RollingStd3(ps, i, num);
    if i >= 2 {
      assert Window(ps, i, 3)[2] == ps[i];
      assert WindowSum(Window(ps, i, 3)).None?;
    }
    if i >= 5 {
      assert Window(ps, i, 6)[5] == ps[i];
      assert WindowSum(Window(ps, i, 6)).None?;
    }
  }

  // ---------------------------------------------------------------------
  // Causality: on a date-sorted frame, row i's features depend on rows 0..i only.

  lemma EarliestOfSorted(rows: seq<Row>)
    requires rows != [] && Sorted(rows)
    ensures EarliestDate(rows) == rows[0].date
  {
    var k :| 0 <= k < |rows| && rows[k].date == EarliestDate(rows);
    if k > 0 {
      assert NotAfter(rows[0].date, rows[k].date);
      assert NotAfter(EarliestDate(rows), rows[0].date);
      BeforeIsTotal(rows[0].date, rows[k].date);
    }
  }

  lemma WindowOfPrefix(col: seq<Option<real>>, n: int, i: int, w: nat)
    requires w >= 1 && w - 1 <= i < n <= |col|
    ensures Window(col[..n], i, w) == Window(col, i, w)
  {
  }

  /** Each column operation at row i reads rows 0..i only. */
  lemma MeanOfPrefix(col: seq<Option<real>>, n: int, i: int, w: nat)
    requires w >= 1 && 0 <= i < n <= |col|
    ensures RollingMean(col[..n], i, w) == RollingMean(col, i, w)
  {
    if i >= w - 1 {
      WindowOfPrefix(col, n, i, w);
    }
  }

  lemma StdOfPrefix(col: seq<Option<real>>, n: int, i: int, num: Numerics)
    requires 0 <= i < n <= |col|
    ensures RollingStd3(col[..n], i, num) == RollingStd3(col, i, num)
  {
    if i >= 2 {
      WindowOfPrefix(col, n, i, 3);
    }
  }

  lemma PricesOfPrefix(rows: seq<Row>, n: int)
    requires 0 <= n <= |rows|
    ensures Prices(rows[..n]) == Prices(rows)[..n]
  {
    var qs, ps := Prices(rows[..n]), Prices(rows)[..n];
    assert |qs| == |ps|;
    forall j | 0 <= j < n
      ensures qs[j] == ps[j]
    {
      assert rows[..n][j] == rows[j];
    }
  }

  lemma DiffOfPrefix(col: seq<Option<real>>, n: int, i: int, k: nat)
    requires k >= 1 && 0 <= i < n <= |col|
    ensures Diff(col[..n], k)[i] == Diff(col, k)[i]
  {
    var a, b := Diff(col[..n], k)[i], Diff(col, k)[i];
    if i >= k {
      assert col[..n][i] == col[i] && col[..n][i - k] == col[i - k];
    }
    if a.Some? {
      assert b.Some? && a.value == b.value;
    } else {
      assert b.None?;
    }
  }

  /** On a date-sorted frame, the features of row i are those of the frame cut
      after row i: no feature looks at a later row. */
  lemma Causal(rows: seq<Row>, num: Numerics, i: int)
    requires DatesValid(rows) && Sorted(rows) && 0 <= i < |rows|
    ensures Synthesize(rows[..i + 1], num)[i] == Synthesize(rows, num)[i]
  {
    var pre := rows[..i + 1];
    assert Sorted(pre) && DatesValid(pre);
    assert Synthesize(pre, num)[i] == FeatureAt(pre, i, num);
    assert Synthesize(rows, num)[i] == FeatureAt(rows, i, num);
    CausalAt(rows, pre, num, i);
  }

  /** Row i read off the frame cut after row i is row i of the whole frame. */
  lemma CausalAt(rows: seq<Row>, pre: seq<Row>, num: Numerics, i: int)
    requires DatesValid(rows) && Sorted(rows) && 0 <= i < |rows|
    requires pre == rows[..i + 1] && DatesValid(pre) && Sorted(pre)
    ensures FeatureAt(pre, i, num) == FeatureAt(rows, i, num)
  {
    EarliestOfSorted(rows);
    EarliestOfSorted(pre);
    var ps := Prices(rows);
    PricesOfPrefix(rows, i + 1);
    assert Prices(pre) == ps[..i + 1];
    assert Shift(ps[..i + 1], 1)[i] == Shift(ps, 1)[i];
    assert Shift(ps[..i + 1], 2)[i] == Shift(ps, 2)[i];
    assert Shift(ps[..i + 1], 3)[i] == Shift(ps, 3)[i];
    DiffOfPrefix(ps, i + 1, i, 1);
    DiffOfPrefix(ps, i + 1, i, 2);
    MeanOfPrefix(ps, i + 1, i, 3);
    MeanOfPrefix(ps, i + 1, i, 6);
    StdOfPrefix(ps, i + 1, i, num);
    assert pre[i] == rows[i];
  }

  // ---------------------------------------------------------------------
  // Looking a feature up by its column name (df_features[columns])

  /** A cell of the feature frame: a number, NaN, or a timestamp. */
  datatype Cell = Num(v: real) | Missing | Stamp(d: Date)

  function OptCell(x: Option<real>): Cell {
    if x.Some? then Num(x.value) else Missing
  }

  /** The columns of df_features, in the order crear_caracteristicas_temporales creates them. */
  const FeatureColumns: seq<string> := [
    DateColumn, PriceColumn, "year", "month", "day_of_year", "quarter",
    "month_sin", "month_cos", "day_sin", "day_cos", "days_since_start",
    "precio_lag1", "precio_lag2", "precio_lag3", "precio_ma3", "precio_ma6",
    "precio_std3", "precio_diff1", "precio_diff2"]

  /** The cell under a column name; None where pandas raises KeyError. */
  function FeatureValue(f: FeatureRow, name: string): (c: Option<Cell>)
    ensures c.Some? <==> name in FeatureColumns
  {
    if name == DateColumn then Some(Stamp(f.date))
    else if name == PriceColumn then Some(OptCell(f.price))
    else if name == "year" then Some(Num(f.year as real))
    else if name == "month" then Some(Num(f.month as real))
    else if name == "day_of_year" then Some(Num(f.dayOfYear as real))
    else if name == "quarter" then Some(Num(f.quarter as real))
    else if name == "month_sin" then Some(Num(f.monthSin))
    else if name == "month_cos" then Some(Num(f.monthCos))
    else if name == "day_sin" then Some(Num(f.daySin))
    else if name == "day_cos" then Some(Num(f.dayCos))
    else if name == "days_since_start" then Some(Num(f.daysSinceStart as real))
    else if name == "precio_lag1" then Some(OptCell(f.lag1))
    else if name == "precio_lag2" then Some(OptCell(f.lag2))
    else if name == "precio_lag3" then Some(OptCell(f.lag3))
    else if name == "precio_ma3" then Some(OptCell(f.ma3))
    else if name == "precio_ma6" then Some(OptCell(f.ma6))
    else if name == "precio_std3" then Some(OptCell(f.std3))
    else if name == "precio_diff1" then Some(OptCell(f.diff1))
    else if name == "precio_diff2" then Some(OptCell(f.diff2))
    else None
  }
}
