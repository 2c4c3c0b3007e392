// The historical price series of src/utils/data_handler.py: loading and
// sorting, the file validation guard chain, summary statistics and the
// generation of future dates 30 days apart.
//
// The CSV reader and the file system are not modelled: a file arrives as a
// Source, already read into columns and rows, with each date cell parsed by
// pd.to_datetime (None where it could not be) and each price cell a number
// or None (NaN).
module Series {
  import opened Wrappers
  import opened Calendar
  import DateText

  const DateColumn: string := "Fecha_Pub_DOF"
  const PriceColumn: string := "Precio promedio"

  /** One row of the frame; a missing price is NaN in pandas. */
  datatype Row = Row(date: Date, price: Option<real>)

  /** A row as read from the CSV, before the date column is converted. */
  datatype RawRow = RawRow(date: Option<Date>, price: Option<real>)

  /** What reading a path yields: no file, a read that raised, or a table. */
  datatype Source =
    | NoFile
    | Unreadable(reason: string)
    | Table(columns: seq<string>, rows: seq<RawRow>)

  /** The loaded DataFrame. Loading does not require the price column, so a
      frame records whether it has one. */
  datatype Frame = Frame(rows: seq<Row>, hasPrice: bool)

  datatype LoadError = FileNotFound | LoadFailed

  predicate Sorted(rows: seq<Row>) {
    forall i, j :: 0 <= i < j < |rows| ==> NotAfter(rows[i].date, rows[j].date)
  }

  predicate DatesValid(rows: seq<Row>) {
    forall i :: 0 <= i < |rows| ==> Valid(rows[i].date)
  }

  function Prices(rows: seq<Row>): (ps: seq<Option<real>>)
    ensures |ps| == |rows| && forall i :: 0 <= i < |rows| ==> ps[i] == rows[i].price
  {
    seq(|rows|, i requires 0 <= i < |rows| => rows[i].price)
  }

  // ---------------------------------------------------------------------
  // Sorting by date (sort_values('Fecha_Pub_DOF'))

  lemma NotAfterTransitive(a: Date, b: Date, c: Date)
    requires NotAfter(a, b) && NotAfter(b, c)
    ensures NotAfter(a, c)
  {
  }

  /** Places x after every row of t whose date is not after x's. */
  function Insert(t: seq<Row>, x: Row): (r: seq<Row>)
    requires Sorted(t)
    ensures Sorted(r)
    ensures multiset(r) == multiset(t) + multiset{x}
    ensures |r| == |t| + 1
    decreases |t|
  {
    if t == [] || NotAfter(t[|t| - 1].date, x.date) then
      t + [x]
    else
      var init, last := t[..|t| - 1], t[|t| - 1];
      assert t == init + [last];
      var r := Insert(init, x) + [last];
      assert forall i :: 0 <= i < |r| - 1 ==> r[i] in multiset(init) + multiset{x};
      assert forall i :: 0 <= i < |init| ==> NotAfter(init[i].date, last.date);
      r
  }

  /** sort_values on the date column: sorted ascending, a permutation of the
      input, duplicates kept. */
  function SortByDate(s: seq<Row>): (r: seq<Row>)
    ensures Sorted(r)
    ensures multiset(r) == multiset(s)
    ensures |r| == |s|
    decreases |s|
  {
    if s == [] then []
    else
      assert s == s[..|s| - 1] + [s[|s| - 1]];
      Insert(SortByDate(s[..|s| - 1]), s[|s| - 1])
  }

  /** Sorting a series that is already sorted leaves it as it is. */
  lemma {:induction false} SortSortedIsIdentity(s: seq<Row>)
    requires Sorted(s)
    ensures SortByDate(s) == s
    decreases |s|
  {
    if s != [] {
      var init, last := s[..|s| - 1], s[|s| - 1];
      assert Sorted(init) by {
        forall i, j | 0 <= i < j < |init| ensures NotAfter(init[i].date, init[j].date) {
          assert init[i] == s[i] && init[j] == s[j];
        }
      }
      SortSortedIsIdentity(init);
      assert s == init + [last];
      if init != [] {
        assert NotAfter(init[|init| - 1].date, last.date) by { assert init[|init| - 1] == s[|s| - 2]; }
      }
    }
  }

  /** Sorting a sorted series with one extra row is inserting that row. */
  lemma SortAppended(h: seq<Row>, x: Row)
    requires Sorted(h)
    ensures SortByDate(h + [x]) == Insert(h, x)
  {
    assert (h + [x])[..|h|] == h;
    SortSortedIsIdentity(h);
  }

  /** The inserted row ends up last exactly when no row of t is after it. */
  lemma InsertLast(t: seq<Row>, x: Row)
    requires Sorted(t)
    ensures Insert(t, x)[|t|] == x <==> forall i :: 0 <= i < |t| ==> NotAfter(t[i].date, x.date)
  {
    var r := Insert(t, x);
    assert |r| == |t| + 1 by { assert |multiset(r)| == |multiset(t)| + 1; }
    if t != [] && !NotAfter(t[|t| - 1].date, x.date) {
      assert r[|t|] == t[|t| - 1];
      BeforeIsTotal(t[|t| - 1].date, x.date);
    } else if t != [] {
      forall i | 0 <= i < |t| ensures NotAfter(t[i].date, x.date) {
        NotAfterTransitive(t[i].date, t[|t| - 1].date, x.date);
      }
    }
  }

  // ---------------------------------------------------------------------
  // cargar_datos_historicos

  /** Every date cell was converted to a calendar date. A cell pd.to_datetime
      cannot parse makes it raise; an empty cell, which it turns into NaT,
      is not represented here and also counts as unconverted. */
  predicate DatesParsed(rows: seq<RawRow>) {
    forall i :: 0 <= i < |rows| ==> rows[i].date.Some? && Valid(rows[i].date.value)
  }

  /** Reordering rows keeps every date valid. */
  lemma DatesValidPermutation(a: seq<Row>, b: seq<Row>)
    requires DatesValid(a) && multiset(a) == multiset(b)
    ensures DatesValid(b)
  {
    forall i | 0 <= i < |b| ensures Valid(b[i].date) {
      assert b[i] in multiset(a);
      var j :| 0 <= j < |a| && a[j] == b[i];
    }
  }

  function Converted(rows: seq<RawRow>): (r: seq<Row>)
    requires DatesParsed(rows)
    ensures |r| == |rows|
    ensures forall i :: 0 <= i < |rows| ==> r[i] == Row(rows[i].date.value, rows[i].price)
  {
    seq(|rows|, i requires 0 <= i < |rows| => Row(rows[i].date.value, rows[i].price))
  }

  /** cargar_datos_historicos: read, convert the date column, sort by date. */
  function Load(src: Source): (r: Result<Frame, LoadError>)
    ensures src.NoFile? <==> r == Err(FileNotFound)
    ensures r.Ok? <==> src.Table? && DateColumn in src.columns && DatesParsed(src.rows)
    ensures r.Ok? ==> Sorted(r.value.rows) && DatesValid(r.value.rows)
    ensures r.Ok? ==> multiset(r.value.rows) == multiset(Converted(src.rows))
    ensures r.Ok? ==> r.value.hasPrice == (PriceColumn in src.columns)
  {
    match src
    case NoFile => Err(FileNotFound)
    case Unreadable(_) => Err(LoadFailed)
    case Table(columns, rows) =>
      if DateColumn !in columns || !DatesParsed(rows) then Err(LoadFailed)
      else
        var sorted := SortByDate(Converted(rows));
        DatesValidPermutation(Converted(rows), sorted);
        Ok(Frame(sorted, PriceColumn in columns))
  }

  // ---------------------------------------------------------------------
  // validar_archivo_datos

  function RequiredColumns(): seq<string> {
    [DateColumn, PriceColumn]
  }

  /** The required columns absent from the table, in the order they are required. */
  function MissingColumns(required: seq<string>, columns: seq<string>): (m: seq<string>)
    ensures forall c :: c in m <==> c in required && c !in columns
    ensures |m| <= |required|
  {
    if required == [] then []
    else (if required[0] in columns then [] else [required[0]]) + MissingColumns(required[1..], columns)
  }

  /** The missing columns keep the order of the required list: those of a
      longer list are those of its first part followed by those of the rest. */
  lemma {:induction false} MissingColumnsAppend(a: seq<string>, b: seq<string>, columns: seq<string>)
    ensures MissingColumns(a + b, columns) == MissingColumns(a, columns) + MissingColumns(b, columns)
    decreases |a|
  {
    if a == [] {
      assert a + b == b;
    } else {
      MissingColumnsAppend(a[1..], b, columns);
      MissingColumnsStep(a, b, columns);
    }
  }

  /** Dropping the head of a concatenation drops it from its first part. */
  lemma TailOfConcat<T>(a: seq<T>, b: seq<T>)
    requires a != []
    ensures (a + b)[0] == a[0] && (a + b)[1..] == a[1..] + b
  {
  }

  /** One step of the induction above: the first required name is decided
      before the rest of either list. */
  lemma MissingColumnsStep(a: seq<string>, b: seq<string>, columns: seq<string>)
    requires a != []
    requires MissingColumns(a[1..] + b, columns) == MissingColumns(a[1..], columns) + MissingColumns(b, columns)
    ensures MissingColumns(a + b, columns) == MissingColumns(a, columns) + MissingColumns(b, columns)
  {
    TailOfConcat(a, b);
    MissingColumnsUnfold(a + b, columns);
    MissingColumnsUnfold(a, columns);
    var h := if a[0] in columns then [] else [a[0]];
    ConcatAssoc(h, MissingColumns(a[1..], columns), MissingColumns(b, columns));
  }

  /** One unfolding of MissingColumns. */
  lemma MissingColumnsUnfold(r: seq<string>, columns: seq<string>)
    requires r != []
    ensures MissingColumns(r, columns) == (if r[0] in columns then [] else [r[0]]) + MissingColumns(r[1..], columns)
  {
  }

  /** Concatenation is associative. */
  lemma ConcatAssoc<T>(h: seq<T>, x: seq<T>, y: seq<T>)
    ensures h + (x + y) == (h + x) + y
  {
  }

  /** The missing required columns are named date first, then price. */
  lemma MissingRequired(columns: seq<string>)
    ensures MissingColumns(RequiredColumns(), columns) ==
              (if DateColumn in columns then [] else [DateColumn]) +
              (if PriceColumn in columns then [] else [PriceColumn])
  {
    var rest := RequiredColumns()[1..];
    assert rest == [PriceColumn] && rest[1..] == [];
  }

  function Join(parts: seq<string>, sep: string): string {
    if parts == [] then ""
    else if |parts| == 1 then parts[0]
    else parts[0] + sep + Join(parts[1..], sep)
  }

  predicate SomePrice(rows: seq<RawRow>) {
    exists i :: 0 <= i < |rows| && rows[i].price.Some?
  }

  /** validar_archivo_datos: the first failing check decides the message. */
  function ValidateFile(path: string, src: Source): (r: (bool, string))
    ensures r.0 <==> src.Table? && MissingColumns(RequiredColumns(), src.columns) == [] && |src.rows| > 0 && SomePrice(src.rows)
    ensures r.0 ==> r.1 == "Archivo válido"
    ensures src.NoFile? ==> r.1 == "El archivo no existe: " + path
    ensures src.Unreadable? ==> r.1 == "Error al leer el archivo: " + src.reason
    ensures src.Table? && MissingColumns(RequiredColumns(), src.columns) != [] ==>
              r.1 == "Faltan las columnas: " + Join(MissingColumns(RequiredColumns(), src.columns), ", ")
    ensures src.Table? && MissingColumns(RequiredColumns(), src.columns) == [] && src.rows == [] ==>
              r.1 == "El archivo está vacío"
    ensures src.Table? && MissingColumns(RequiredColumns(), src.columns) == [] && src.rows != [] && !SomePrice(src.rows) ==>
              r.1 == "No hay datos de precios válidos"
  {
    match src
    case NoFile => (false, "El archivo no existe: " + path)
    case Unreadable(reason) => (false, "Error al leer el archivo: " + reason)
    case Table(columns, rows) =>
      var missing := MissingColumns(RequiredColumns(), columns);
      if missing != [] then (false, "Faltan las columnas: " + Join(missing, ", "))
      else if |rows| == 0 then (false, "El archivo está vacío")
      else if !SomePrice(rows) then (false, "No hay datos de precios válidos")
      else (true, "Archivo válido")
  }

  /** A table lacking only the price column is reported by name, even when it
      is also empty: the column check comes before the row check. */
  lemma ValidateMissingPrice(path: string, rows: seq<RawRow>)
    ensures ValidateFile(path, Table([DateColumn], rows)) == (false, "Faltan las columnas: " + PriceColumn)
  {
    assert PriceColumn !in [DateColumn];
    assert MissingColumns([PriceColumn], [DateColumn]) == [PriceColumn];
    assert MissingColumns(RequiredColumns(), [DateColumn]) == [PriceColumn];
    assert Join([PriceColumn], ", ") == PriceColumn;
  }

  // ---------------------------------------------------------------------
  // Mean, minimum and maximum over the present prices (pandas skips NaN)

  function Present(ps: seq<Option<real>>): (xs: seq<real>)
    ensures |xs| <= |ps|
    ensures forall x :: x in xs <==> Some(x) in ps
  {
    if ps == [] then []
    else (if ps[0].Some? then [ps[0].value] else []) + Present(ps[1..])
  }

  /** The positions of the non-NaN cells, from first to last. */
  function SomeIndices(ps: seq<Option<real>>): (idx: seq<int>)
    ensures forall j :: 0 <= j < |idx| ==> 0 <= idx[j] < |ps| && ps[idx[j]].Some?
  {
    if ps == [] then []
    else (if ps[0].Some? then [0] else []) + Successors(SomeIndices(ps[1..]))
  }

  function Successors(idx: seq<int>): (r: seq<int>)
    ensures |r| == |idx| && forall j :: 0 <= j < |idx| ==> r[j] == idx[j] + 1
  {
    seq(|idx|, j requires 0 <= j < |idx| => idx[j] + 1)
  }

  /** The positions listed are increasing and include every non-NaN cell. */
  lemma {:induction false} SomeIndicesExact(ps: seq<Option<real>>)
    ensures forall j, k :: 0 <= j < k < |SomeIndices(ps)| ==> SomeIndices(ps)[j] < SomeIndices(ps)[k]
    ensures forall i :: 0 <= i < |ps| && ps[i].Some? ==> i in SomeIndices(ps)
  {
    if ps != [] {
      SomeIndicesExact(ps[1..]);
      var rest := SomeIndices(ps[1..]);
      var head: seq<int> := if ps[0].Some? then [0] else [];
      assert SomeIndices(ps) == head + Successors(rest);
      IncreasingStep(head, rest);
      CompleteStep(ps, head, rest);
    }
  }

  /** Prefixing 0 to increasing naturals shifted up by one keeps them increasing. */
  lemma IncreasingStep(head: seq<int>, rest: seq<int>)
    requires head == [] || head == [0]
    requires forall j :: 0 <= j < |rest| ==> 0 <= rest[j]
    requires forall j, k :: 0 <= j < k < |rest| ==> rest[j] < rest[k]
    ensures var idx := head + Successors(rest);
            forall j, k :: 0 <= j < k < |idx| ==> idx[j] < idx[k]
  {
    var succ := Successors(rest);
    var idx := head + succ;
    forall j, k | 0 <= j < k < |idx|
      ensures idx[j] < idx[k]
    {
      assert idx[k] == succ[k - |head|];
      if j >= |head| {
        assert idx[j] == succ[j - |head|];
      }
    }
  }

  /** Every non-NaN position is listed when the tail's positions are. */
  lemma CompleteStep(ps: seq<Option<real>>, head: seq<int>, rest: seq<int>)
    requires ps != [] && head == (if ps[0].Some? then [0] else [])
    requires forall i :: 0 <= i < |ps| - 1 && ps[1..][i].Some? ==> i in rest
    ensures forall i :: 0 <= i < |ps| && ps[i].Some? ==> i in head + Successors(rest)
  {
    var succ := Successors(rest);
    forall i | 0 <= i < |ps| && ps[i].Some?
      ensures i in head + succ
    {
      if i > 0 {
        assert ps[1..][i - 1].Some?;
        var j :| 0 <= j < |rest| && rest[j] == i - 1;
        assert succ[j] == i;
        assert i in succ;
      }
    }
  }

  /** df['Precio promedio'] with NaN dropped: the present prices are exactly
      the non-NaN cells, one for each, in the order of the column. */
  lemma {:induction false} PresentInOrder(ps: seq<Option<real>>)
    ensures |Present(ps)| == |SomeIndices(ps)|
    ensures forall j :: 0 <= j < |Present(ps)| ==> Some(Present(ps)[j]) == ps[SomeIndices(ps)[j]]
  {
    if ps != [] {
      PresentInOrder(ps[1..]);
      var head: seq<real> := if ps[0].Some? then [ps[0].value] else [];
      var headIdx: seq<int> := if ps[0].Some? then [0] else [];
      assert Present(ps) == head + Present(ps[1..]);
      assert SomeIndices(ps) == headIdx + Successors(SomeIndices(ps[1..]));
      InOrderStep(ps, head, headIdx, Present(ps[1..]), SomeIndices(ps[1..]));
    }
  }

  /** The step of PresentInOrder, over the parts of the two sequences: a
      present head comes first at position 0, and the positions of the rest
      move up by one. */
  lemma InOrderStep(ps: seq<Option<real>>, head: seq<real>, headIdx: seq<int>, rest: seq<real>, idx: seq<int>)
    requires ps != []
    requires head == (if ps[0].Some? then [ps[0].value] else [])
    requires headIdx == (if ps[0].Some? then [0] else [])
    requires |rest| == |idx|
    requires forall k :: 0 <= k < |idx| ==> 0 <= idx[k] < |ps| - 1 && Some(rest[k]) == ps[1..][idx[k]]
    ensures |head + rest| == |headIdx + Successors(idx)|
    ensures forall j :: 0 <= j < |head + rest| ==> Some((head + rest)[j]) == ps[(headIdx + Successors(idx))[j]]
  {
    var succ := Successors(idx);
    forall j | 0 <= j < |head| + |rest|
      ensures Some((head + rest)[j]) == ps[(headIdx + succ)[j]]
    {
      if j >= |head| {
        var k := j - |head|;
        assert (head + rest)[j] == rest[k];
        assert (headIdx + succ)[j] == idx[k] + 1;
      }
    }
  }

  function Sum(xs: seq<real>): real {
    if xs == [] then 0.0 else xs[0] + Sum(xs[1..])
  }

  function Minimum(xs: seq<real>): (m: real)
    requires xs != []
    ensures m in xs && forall x :: x in xs ==> m <= x
  {
    if |xs| == 1 then xs[0]
    else
      var rest := Minimum(xs[1..]);
      assert forall x :: x in xs ==> x == xs[0] || x in xs[1..];
      if xs[0] <= rest then xs[0] else rest
  }

  function Maximum(xs: seq<real>): (m: real)
    requires xs != []
    ensures m in xs && forall x :: x in xs ==> x <= m
  {
    if |xs| == 1 then xs[0]
    else
      var rest := Maximum(xs[1..]);
      assert forall x :: x in xs ==> x == xs[0] || x in xs[1..];
      if xs[0] >= rest then xs[0] else rest
  }

  lemma {:induction false} SumBounds(xs: seq<real>, lo: real, hi: real)
    requires forall x :: x in xs ==> lo <= x <= hi
    ensures |xs| as real * lo <= Sum(xs) <= |xs| as real * hi
  {
    if xs != [] {
      var rest := xs[1..];
      forall x | x in rest
        ensures lo <= x <= hi
      {
        assert x in xs;
      }
      SumBounds(rest, lo, hi);
      assert xs[0] in xs;
      BoundStep(|rest| as real, Sum(rest), xs[0], lo, hi);
      assert |xs| as real == |rest| as real + 1.0;
    }
  }

  /** One more value within [lo, hi] keeps a sum of n such values within
      [n * lo, n * hi], with n one larger. */
  lemma BoundStep(n: real, s: real, x: real, lo: real, hi: real)
    requires n * lo <= s <= n * hi && lo <= x <= hi
    ensures (n + 1.0) * lo <= x + s <= (n + 1.0) * hi
  {
    assert (n + 1.0) * lo == n * lo + lo;
    assert (n + 1.0) * hi == n * hi + hi;
  }

  lemma QuotientBounds(s: real, n: real, lo: real, hi: real)
    requires n > 0.0 && n * lo <= s <= n * hi
    ensures lo <= s / n <= hi
  {
    var q := s / n;
    assert q * n == s;
  }

  /** The sum of squared deviations of the values from m. */
  function SquaredDeviations(xs: seq<real>, m: real): real {
    if xs == [] then 0.0
    else
      var d := xs[0] - m;
      d * d + SquaredDeviations(xs[1..], m)
  }

  /** Series.mean(): NaN (None) when no price is present. */
  function Mean(ps: seq<Option<real>>): Option<real> {
    var xs := Present(ps);
    if xs == [] then None else Some(Average(xs))
  }

  function Min(ps: seq<Option<real>>): Option<real> {
    var xs := Present(ps);
    if xs == [] then None else Some(Minimum(xs))
  }

  function Max(ps: seq<Option<real>>): Option<real> {
    var xs := Present(ps);
    if xs == [] then None else Some(Maximum(xs))
  }

  /** The arithmetic mean of a non-empty list. */
  function Average(xs: seq<real>): real
    requires xs != []
  {
    Sum(xs) / |xs| as real
  }

  /** Series.std() (ddof=1) over the present prices: NaN (None) with fewer
      than two. numpy's sqrt is a parameter. */
  function StdDev(ps: seq<Option<real>>, sqrt: real -> real): (r: Option<real>)
    ensures r.Some? <==> |Present(ps)| >= 2
  {
    var xs := Present(ps);
    if |xs| < 2 then None
    else Some(sqrt(SquaredDeviations(xs, Average(xs)) / (|xs| - 1) as real))
  }

  /** The sample deviation of two prices a and b is sqrt((a - b)^2 / 2): the
      squared distances to their midpoint, summed, over n - 1 = 1. */
  lemma StdDevOfTwo(a: real, b: real, sqrt: real -> real)
    ensures StdDev([Some(a), Some(b)], sqrt) == Some(sqrt((a - b) * (a - b) / 2.0))
  {
    var ps := [Some(a), Some(b)];
    assert ps[1..][1..] == [];
    assert Present(ps) == [a, b];
    var m := (a + b) / 2.0;
    assert Sum([a, b]) == a + b by {
      assert [a, b][1..] == [b] && [b][1..] == [];
      assert Sum([b]) == b;
    }
    assert Average([a, b]) == m;
    assert SquaredDeviations([a, b], m) == (a - m) * (a - m) + (b - m) * (b - m) by {
      assert [a, b][1..] == [b] && [b][1..] == [];
      assert SquaredDeviations([b], m) == (b - m) * (b - m);
    }
    assert (a - m) * (a - m) + (b - m) * (b - m) == (a - b) * (a - b) / 2.0;
  }

  /** Values that all equal m deviate from it by nothing. */
  lemma {:induction false} ConstantDeviations(xs: seq<real>, m: real)
    requires forall x :: x in xs ==> x == m
    ensures SquaredDeviations(xs, m) == 0.0
  {
    if xs != [] {
      assert forall x :: x in xs[1..] ==> x in xs;
      ConstantDeviations(xs[1..], m);
      assert xs[0] in xs;
      assert xs[0] - m == 0.0;
    }
  }

  /** Prices that all equal c have mean c and a deviation of sqrt(0). */
  lemma ConstantMoments(ps: seq<Option<real>>, sqrt: real -> real, c: real)
    requires |Present(ps)| >= 2 && forall x :: x in Present(ps) ==> x == c
    ensures Mean(ps) == Some(c)
    ensures StdDev(ps, sqrt) == Some(sqrt(0.0))
  {
    var xs := Present(ps);
    ConstantAverage(xs, c);
    ConstantDeviations(xs, c);
    assert SquaredDeviations(xs, Average(xs)) == 0.0;
  }

  /** The average of values that all equal c is c. */
  lemma ConstantAverage(xs: seq<real>, c: real)
    requires xs != [] && forall x :: x in xs ==> x == c
    ensures Average(xs) == c
  {
    var n := |xs| as real;
    SumBounds(xs, c, c);
    assert Sum(xs) == n * c;
  }

  /** An average lies between the smallest and the largest value. */
  lemma AverageBetween(xs: seq<real>)
    requires xs != []
    ensures Minimum(xs) <= Average(xs) <= Maximum(xs)
  {
    var lo, hi := Minimum(xs), Maximum(xs);
    SumBounds(xs, lo, hi);
    QuotientBounds(Sum(xs), |xs| as real, lo, hi);
  }

  /** mean, min and max describe the values xs: all three are NaN when
      there are none; otherwise the mean is their sum over their count, and
      the minimum and maximum are values of xs bounding every other. */
  predicate Describes(xs: seq<real>, mean: Option<real>, min: Option<real>, max: Option<real>) {
    (xs == [] ==> mean.None? && min.None? && max.None?) &&
    (xs != [] ==> mean == Some(Sum(xs) / |xs| as real) && min.Some? && max.Some? &&
                  min.value in xs && max.value in xs &&
                  forall x :: x in xs ==> min.value <= x <= max.value)
  }

  /** Series.mean(), min() and max() describe the present prices. */
  lemma Moments(ps: seq<Option<real>>)
    ensures Describes(Present(ps), Mean(ps), Min(ps), Max(ps))
  {
    var xs := Present(ps);
    if xs != [] {
      assert Mean(ps) == Some(Average(xs));
    }
  }

  /** The mean lies between the minimum and the maximum; all three are
      defined exactly when some price is present. */
  lemma MeanBetween(ps: seq<Option<real>>)
    ensures Mean(ps).Some? <==> Present(ps) != []
    ensures Min(ps).Some? <==> Present(ps) != []
    ensures Max(ps).Some? <==> Present(ps) != []
    ensures Mean(ps).Some? ==> Min(ps).value <= Mean(ps).value <= Max(ps).value
  {
    var xs := Present(ps);
    if xs != [] {
      AverageBetween(xs);
    }
  }

  /** Some price is present exactly when some cell of the column is not NaN. */
  lemma {:induction false} PresentNonEmpty(ps: seq<Option<real>>)
    ensures Present(ps) != [] <==> exists i :: 0 <= i < |ps| && ps[i].Some?
  {
    if ps != [] {
      PresentNonEmpty(ps[1..]);
      if exists i :: 0 <= i < |ps[1..]| && ps[1..][i].Some? {
        var i :| 0 <= i < |ps[1..]| && ps[1..][i].Some?;
        assert ps[i + 1].Some?;
      }
      if exists i :: 0 <= i < |ps| && ps[i].Some? {
        var i :| 0 <= i < |ps| && ps[i].Some?;
        if i > 0 {
          assert ps[1..][i - 1].Some?;
        }
      }
    }
  }

  // ---------------------------------------------------------------------
  // obtener_estadisticas_datos (without the median)

  datatype Stats = Stats(total: nat, firstDate: string, lastDate: string,
                         mean: Option<real>, min: Option<real>, max: Option<real>, std: Option<real>)

  datatype StatsError =
    | NoPriceColumn    // the ValueError the function raises itself
    | NoDates          // NaT.strftime raises on an empty frame

  function EarliestDate(rows: seq<Row>): (d: Date)
    requires rows != []
    ensures exists i :: 0 <= i < |rows| && rows[i].date == d
    ensures forall i :: 0 <= i < |rows| ==> NotAfter(d, rows[i].date)
  {
    if |rows| == 1 then rows[0].date
    else
      var rest := EarliestDate(rows[1..]);
      assert forall i :: 1 <= i < |rows| ==> rows[i] == rows[1..][i - 1];
      if NotAfter(rows[0].date, rest) then rows[0].date else rest
  }

  function LatestDate(rows: seq<Row>): (d: Date)
    requires rows != []
    ensures exists i :: 0 <= i < |rows| && rows[i].date == d
    ensures forall i :: 0 <= i < |rows| ==> NotAfter(rows[i].date, d)
  {
    if |rows| == 1 then rows[0].date
    else
      var rest := LatestDate(rows[1..]);
      assert forall i :: 1 <= i < |rows| ==> rows[i] == rows[1..][i - 1];
      if NotAfter(rest, rows[0].date) then rows[0].date else rest
  }

  predicate MeanWithinRange(st: Stats) {
    st.mean.Some? ==> st.min.Some? && st.max.Some? && st.min.value <= st.mean.value <= st.max.value
  }

  function Statistics(f: Frame, sqrt: real -> real): (r: Result<Stats, StatsError>)
    requires DatesValid(f.rows)
    ensures !f.hasPrice <==> r == Err(NoPriceColumn)
    ensures r.Ok? <==> f.hasPrice && f.rows != []
    ensures r.Ok? ==> r.value.total == |f.rows|
    ensures r.Ok? ==> r.value.firstDate == DateText.Format(EarliestDate(f.rows))
    ensures r.Ok? ==> r.value.lastDate == DateText.Format(LatestDate(f.rows))
    ensures r.Ok? ==> MeanWithinRange(r.value)
    ensures r.Ok? ==> Describes(Present(Prices(f.rows)), r.value.mean, r.value.min, r.value.max)
    ensures r.Ok? ==> r.value.std == StdDev(Prices(f.rows), sqrt)
    ensures r.Ok? ==> (r.value.std.Some? <==> |Present(Prices(f.rows))| >= 2)
  {
    if !f.hasPrice then Err(NoPriceColumn)
    else if f.rows == [] then Err(NoDates)
    else
      var ps := Prices(f.rows);
      MeanBetween(ps);
      Moments(ps);
      assert Valid(EarliestDate(f.rows)) && Valid(LatestDate(f.rows));
      var st := Stats(|f.rows|, DateText.Format(EarliestDate(f.rows)), DateText.Format(LatestDate(f.rows)),
                      Mean(ps), Min(ps), Max(ps), StdDev(ps, sqrt));
      assert MeanWithinRange(st);
      Ok(st)
  }

  // ---------------------------------------------------------------------
  // generar_fechas_futuras

  datatype DateError = BadFormat(cause: DateText.ParseError) | Overflow

  /** The k-th (0-based) generated date: 30 * (k + 1) days after the start. */
  function FutureDate(base: Date, k: nat): Option<Date>
    requires Valid(base)
  {
    AddDays(base, 30 * (k + 1))
  }

  /** dates are the formatted first |dates| generated dates. */
  predicate IsSchedule(base: Date, dates: seq<string>)
    requires Valid(base)
  {
    forall k :: 0 <= k < |dates| ==>
      FutureDate(base, k).Some? && dates[k] == DateText.Format(FutureDate(base, k).value)
  }

  /** Generated dates are 30 days apart and strictly increasing. */
  lemma FutureDatesIncrease(base: Date, j: nat, k: nat)
    requires Valid(base) && j < k
    requires FutureDate(base, j).Some? && FutureDate(base, k).Some?
    ensures Before(FutureDate(base, j).value, FutureDate(base, k).value)
    ensures Ordinal(FutureDate(base, k).value) - Ordinal(FutureDate(base, j).value) == 30 * (k - j)
  {
    OrdinalOrder(FutureDate(base, j).value, FutureDate(base, k).value);
  }

  lemma ScheduleExtend(base: Date, dates: seq<string>, next: Date)
    requires Valid(base) && IsSchedule(base, dates)
    requires FutureDate(base, |dates|) == Some(next)
    ensures IsSchedule(base, dates + [DateText.Format(next)])
  {
    var ext := dates + [DateText.Format(next)];
    forall k | 0 <= k < |ext|
      ensures FutureDate(base, k).Some? && ext[k] == DateText.Format(FutureDate(base, k).value)
    {
      if k < |dates| {
        assert ext[k] == dates[k];
      } else {
        assert k == |dates| && ext[k] == DateText.Format(next);
      }
    }
  }

  /** The loop of generar_fechas_futuras: count dates after base, or None
      at the first date past year 9999. */
  method Schedule(base: Date, count: int) returns (r: Option<seq<string>>)
    requires Valid(base)
    ensures r.Some? <==> count <= 0 || FutureDate(base, count - 1).Some?
    ensures r.Some? ==> |r.value| == (if count < 0 then 0 else count) && IsSchedule(base, r.value)
  {
    var dates: seq<string> := [];
    var i := 0;
    while i < count
      invariant 0 <= i <= (if count < 0 then 0 else count)
      invariant |dates| == i
      invariant IsSchedule(base, dates)
    {
      var next := AddDays(base, 30 * (i + 1));
      if next.None? {
        AddDaysMonotone(base, 30 * (i + 1), 30 * count);
        return None;
      }
      assert FutureDate(base, i) == next;
      ScheduleExtend(base, dates, next.value);
      dates := dates + [DateText.Format(next.value)];
      i := i + 1;
    }
    if count > 0 {
      assert FutureDate(base, count - 1).Some? by {
        assert IsSchedule(base, dates) && count - 1 < |dates|;
      }
    }
    return Some(dates);
  }

  /** generar_fechas_futuras: count dates, the k-th 30*(k+1) days after the
      parsed start. A malformed start is a ValueError; running past year 9999
      is datetime's OverflowError. */
  method FutureDates(start: string, count: int) returns (r: Result<seq<string>, DateError>)
    ensures DateText.Parse(start).Err? ==> r == Err(BadFormat(DateText.Parse(start).error))
    ensures DateText.Parse(start).Ok? ==>
              var base := DateText.Parse(start).value;
              (r.Ok? <==> count <= 0 || FutureDate(base, count - 1).Some?) &&
              (r.Err? ==> r.error == Overflow) &&
              (r.Ok? ==> |r.value| == (if count < 0 then 0 else count) && IsSchedule(base, r.value))
  {
    var parsed := DateText.Parse(start);
    if parsed.Err? {
      return Err(BadFormat(parsed.error));
    }
    var dates := Schedule(parsed.value, count);
    if dates.None? {
      return Err(Overflow);
    }
    return Ok(dates.value);
  }
}
