// PredictorAguacate (src/models/predictor.py): the loaded model state, the
// assembly of the feature vector for one target date, batch prediction, the
// historical trend report and the model reports.
//
// The fitted scikit-learn objects are opaque: the input scaler, the SVR and
// the output scaler are functions that return a value or raise, and the model
// makes no claim about what they compute. joblib files arrive as Artifacts
// and the CSV as a Series.Source.
module Predictor {
  import opened Wrappers
  import opened Floats
  import opened Calendar
  import DateText
  import opened Series
  import opened Features

  /** An exception raised inside scikit-learn: whether it is a ValueError, and its text. */
  datatype Raised = Raised(isValueError: bool, message: string)

  /** scaler_X.transform on the one-row frame of selected features. The
      scaler is a MinMaxScaler, which lets NaN cells through, so its output
      is still a row of cells. */
  datatype ScalerX = ScalerX(transform: seq<Cell> -> Result<seq<Cell>, Raised>)

  /** modelo_svm.predict on the scaled row. */
  datatype Regressor = Regressor(predict: seq<Cell> -> Result<real, Raised>)

  /** scaler_y.inverse_transform on the scaled prediction. */
  datatype ScalerY = ScalerY(inverse: real -> Result<real, Raised>)

  /** What a model path holds: no file, a file joblib.load fails on, or an object. */
  datatype Artifact<T> = Absent | Unloadable | Stored(value: T)

  /** best_svm_mejorado.pkl, scaler_X.pkl, scaler_y.pkl and feature_columns.pkl. */
  datatype ModelFiles = ModelFiles(
    model: Artifact<Regressor>, scalerX: Artifact<ScalerX>,
    scalerY: Artifact<ScalerY>, features: Artifact<seq<string>>)

  predicate AllExist(f: ModelFiles) {
    !f.model.Absent? && !f.scalerX.Absent? && !f.scalerY.Absent? && !f.features.Absent?
  }

  predicate AllStored(f: ModelFiles) {
    f.model.Stored? && f.scalerX.Stored? && f.scalerY.Stored? && f.features.Stored?
  }

  /** The six attributes of a predictor, as a value. */
  datatype State = State(
    model: Option<Regressor>, scalerX: Option<ScalerX>, scalerY: Option<ScalerY>,
    featureColumns: Option<seq<string>>, history: Option<Frame>, loaded: bool)

  /** What every predictor keeps: the flag is set only with all four artifacts,
      and the history is the loader's output, sorted and with valid dates. */
  predicate StateValid(st: State) {
    (st.loaded ==> st.model.Some? && st.scalerX.Some? && st.scalerY.Some? && st.featureColumns.Some?) &&
    (st.history.Some? ==> Sorted(st.history.value.rows) && DatesValid(st.history.value.rows))
  }

  /** Right after construction the flag is set exactly when all four artifacts are. */
  predicate Consistent(st: State) {
    st.loaded <==> st.model.Some? && st.scalerX.Some? && st.scalerY.Some? && st.featureColumns.Some?
  }

  // ---------------------------------------------------------------------
  // predecir_precio_fecha, step by step

  /** Why a prediction failed. */
  datatype Reason =
    | Unparsable(cause: DateText.ParseError)  // strptime's ValueError
    | NoHistory                               // TypeError: no history was loaded
    | MissingPriceColumn                      // KeyError: the history has no price column
    | UnknownFeature                          // KeyError: a feature name is not a column
    | EmptyHistory                            // IndexError: .iloc[-1] of an empty history
    | Library(raised: Raised)                 // raised by a scaler or the regressor

  /** The error records: 'El modelo no está cargado correctamente',
      'Formato de fecha inválido: ...' and 'Error en la predicción: ...'. */
  datatype Failure = NotLoaded | InvalidDate(reason: Reason) | PredictionError(reason: Reason)

  datatype Prediction = Predicted(date: string, price: real) | Failed(failure: Failure)

  /** pd.concat of the history with the target's row (price NaN), sorted by date. */
  function Merge(h: seq<Row>, d: Date): (m: seq<Row>)
    ensures |m| == |h| + 1 && Sorted(m)
    ensures multiset(m) == multiset(h) + multiset{Row(d, None)}
  {
    assert multiset(h + [Row(d, None)]) == multiset(h) + multiset{Row(d, None)};
    SortByDate(h + [Row(d, None)])
  }

  lemma MergeDatesValid(h: seq<Row>, d: Date)
    requires DatesValid(h) && Valid(d)
    ensures DatesValid(Merge(h, d))
  {
    var x := h + [Row(d, None)];
    assert DatesValid(x) by {
      forall i | 0 <= i < |x| ensures Valid(x[i].date) {
        if i < |h| { assert x[i] == h[i]; }
      }
    }
    DatesValidPermutation(x, Merge(h, d));
  }

  /** df_features.iloc[-1]: the last row of the merged, featurised series. */
  function LastFeatureRow(h: seq<Row>, d: Date, num: Numerics): FeatureRow
    requires DatesValid(h) && Valid(d)
  {
    MergeDatesValid(h, d);
    var fs := Synthesize(Merge(h, d), num);
    fs[|fs| - 1]
  }

  /** The merged series puts the target's row last exactly when no historical
      date is after the target date; otherwise the last row is historical. */
  lemma TargetIsLast(h: seq<Row>, d: Date)
    requires Sorted(h)
    ensures Merge(h, d)[|h|] == Row(d, None) <==> forall i :: 0 <= i < |h| ==> NotAfter(h[i].date, d)
  {
    SortAppended(h, Row(d, None));
    InsertLast(h, Row(d, None));
  }

  /** When the target is not before any historical date, the merge appends it. */
  lemma MergeAppends(h: seq<Row>, d: Date)
    requires Sorted(h) && forall i :: 0 <= i < |h| ==> NotAfter(h[i].date, d)
    ensures Merge(h, d) == h + [Row(d, None)]
  {
    SortAppended(h, Row(d, None));
    if h != [] {
      assert NotAfter(h[|h| - 1].date, d);
    }
  }

  /** The row the prediction uses carries the target date exactly when no
      historical date is after it. */
  lemma UsedRowIsTarget(h: seq<Row>, d: Date, num: Numerics)
    requires Sorted(h) && DatesValid(h) && Valid(d)
    ensures LastFeatureRow(h, d, num).date == d <==> forall i :: 0 <= i < |h| ==> NotAfter(h[i].date, d)
  {
    MergeDatesValid(h, d);
    assert LastFeatureRow(h, d, num).date == Merge(h, d)[|h|].date;
    MergedLastDate(h, d);
  }

  /** The last merged row has the target date exactly when no historical
      date is after the target. */
  lemma MergedLastDate(h: seq<Row>, d: Date)
    requires Sorted(h)
    ensures Merge(h, d)[|h|].date == d <==> forall i :: 0 <= i < |h| ==> NotAfter(h[i].date, d)
  {
    if forall i :: 0 <= i < |h| ==> NotAfter(h[i].date, d) {
      MergeAppends(h, d);
    } else {
      var i :| 0 <= i < |h| && !NotAfter(h[i].date, d);
      LaterRowEndsMerge(h, d, i);
    }
  }

  /** A historical row after the target pushes the merge's last date past it. */
  lemma LaterRowEndsMerge(h: seq<Row>, d: Date, i: int)
    requires Sorted(h) && 0 <= i < |h| && !NotAfter(h[i].date, d)
    ensures Merge(h, d)[|h|].date != d
  {
    var m := Merge(h, d);
    assert h[i] in multiset(m);
    var k :| 0 <= k < |m| && m[k] == h[i];
    assert NotAfter(m[k].date, m[|h|].date);
  }

  /** The features of a last row whose price is NaN: no price, moving
      average, deviation or difference, and the first lag is the previous
      row's price. */
  lemma NaNRowFeatures(m: seq<Row>, num: Numerics)
    requires DatesValid(m) && |m| >= 2 && m[|m| - 1].price.None?
    ensures Synthesize(m, num)[|m| - 1].price.None?
    ensures Synthesize(m, num)[|m| - 1].ma3.None? && Synthesize(m, num)[|m| - 1].ma6.None?
    ensures Synthesize(m, num)[|m| - 1].std3.None?
    ensures Synthesize(m, num)[|m| - 1].diff1.None? && Synthesize(m, num)[|m| - 1].diff2.None?
    ensures Synthesize(m, num)[|m| - 1].lag1 == m[|m| - 2].price
  {
    var n := |m| - 1;
    LagFeatures(m, num, n);
    OwnPriceMissing(m, num, n);
  }

  /** For a target not before any historical date, its feature row has no
      price and no moving average, deviation or difference (each of those
      reads the target's own NaN price), and its lags are the last historical
      prices. */
  lemma TargetRowFeatures(h: seq<Row>, d: Date, num: Numerics)
    requires Sorted(h) && DatesValid(h) && Valid(d) && h != []
    requires forall i :: 0 <= i < |h| ==> NotAfter(h[i].date, d)
    ensures LastFeatureRow(h, d, num).date == d
    ensures LastFeatureRow(h, d, num).price.None?
    ensures LastFeatureRow(h, d, num).ma3.None? && LastFeatureRow(h, d, num).ma6.None?
    ensures LastFeatureRow(h, d, num).std3.None?
    ensures LastFeatureRow(h, d, num).diff1.None? && LastFeatureRow(h, d, num).diff2.None?
    ensures LastFeatureRow(h, d, num).lag1 == h[|h| - 1].price
  {
    MergeDatesValid(h, d);
    MergeAppends(h, d);
    var m := h + [Row(d, None)];
    assert LastFeatureRow(h, d, num) == Synthesize(m, num)[|m| - 1];
    assert m[|m| - 1] == Row(d, None) && m[|m| - 2] == h[|h| - 1];
    NaNRowFeatures(m, num);
  }

  /** Every name of the list is a column of df_features. */
  predicate KnownColumns(cols: seq<string>) {
    forall k :: 0 <= k < |cols| ==> cols[k] in FeatureColumns
  }

  /** fillna(v) on one cell: NaN becomes v; a NaN fill value changes nothing. */
  function Fill(c: Cell, v: Option<real>): Cell {
    if c.Missing? then OptCell(v) else c
  }

  /** df_features[cols] on one row, then fillna(v): one cell per name, in
      the list's order, each cell as the row holds it unless it is NaN, in
      which case it is v. */
  function Project(f: FeatureRow, cols: seq<string>, v: Option<real>): (r: seq<Cell>)
    requires KnownColumns(cols)
    ensures |r| == |cols|
    ensures forall k :: 0 <= k < |cols| ==>
              var c := FeatureValue(f, cols[k]).value;
              (c.Missing? ==> r[k] == OptCell(v)) && (!c.Missing? ==> r[k] == c)
  {
    if cols == [] then []
    else Project(f, cols[..|cols| - 1], v) + [Fill(FeatureValue(f, cols[|cols| - 1]).value, v)]
  }

  /** The feature vector of predecir_precio_fecha, before the scaler: the
      errors it meets in the order predecir_precio_fecha meets them, or the projection
      of the last merged row filled with the last historical price. */
  function Assemble(h: Option<Frame>, cols: seq<string>, d: Date, num: Numerics): (r: Result<seq<Cell>, Reason>)
    requires h.Some? ==> DatesValid(h.value.rows)
    requires Valid(d)
    ensures h.None? ==> r == Err(NoHistory)
    ensures h.Some? && !h.value.hasPrice ==> r == Err(MissingPriceColumn)
    ensures r.Ok? <==> h.Some? && h.value.hasPrice && KnownColumns(cols) && h.value.rows != []
    ensures r.Ok? ==> |r.value| == |cols|
    ensures r.Ok? ==> r.value == Project(LastFeatureRow(h.value.rows, d, num), cols,
                                         h.value.rows[|h.value.rows| - 1].price)
  {
    if h.None? then Err(NoHistory)
    else if !h.value.hasPrice then Err(MissingPriceColumn)
    else if !KnownColumns(cols) then Err(UnknownFeature)
    else if h.value.rows == [] then Err(EmptyHistory)
    else
      var rows := h.value.rows;
      Ok(Project(LastFeatureRow(rows, d, num), cols, rows[|rows| - 1].price))
  }

  /** A vector filled with a real price has no NaN left, and no cell is
      filled with anything but that price. */
  lemma FilledVector(f: FeatureRow, cols: seq<string>, p: real)
    requires KnownColumns(cols)
    ensures forall k :: 0 <= k < |cols| ==> !Project(f, cols, Some(p))[k].Missing?
    ensures forall k :: 0 <= k < |cols| ==> FeatureValue(f, cols[k]).value.Missing? ==>
              Project(f, cols, Some(p))[k] == Num(p)
  {
    forall k | 0 <= k < |cols|
      ensures !Project(f, cols, Some(p))[k].Missing?
    {
      var c := FeatureValue(f, cols[k]).value;
      if !c.Missing? {
        assert Project(f, cols, Some(p))[k] == c;
      }
    }
  }

  /** For a target after the history whose last price is p, every
      price-derived feature the model asks for reads p: the price itself, the
      moving averages, the deviation and the differences are NaN in the target
      row and filled with p, and the first lag is p. */
  lemma TargetVector(h: seq<Row>, d: Date, num: Numerics, cols: seq<string>, k: int)
    requires Sorted(h) && DatesValid(h) && Valid(d) && h != [] && h[|h| - 1].price.Some?
    requires forall i :: 0 <= i < |h| ==> NotAfter(h[i].date, d)
    requires KnownColumns(cols) && 0 <= k < |cols|
    requires cols[k] in [PriceColumn, "precio_lag1", "precio_ma3", "precio_ma6", "precio_std3",
                         "precio_diff1", "precio_diff2"]
    ensures Project(LastFeatureRow(h, d, num), cols, h[|h| - 1].price)[k] == Num(h[|h| - 1].price.value)
  {
    TargetRowFeatures(h, d, num);
    PriceDerivedCells(LastFeatureRow(h, d, num), cols, h[|h| - 1].price.value, k);
  }

  /** In a row with no price, average, deviation or difference and whose
      first lag is p, filling with p makes every price-derived cell p. */
  lemma PriceDerivedCells(f: FeatureRow, cols: seq<string>, p: real, k: int)
    requires f.price.None? && f.ma3.None? && f.ma6.None? && f.std3.None?
    requires f.diff1.None? && f.diff2.None? && f.lag1 == Some(p)
    requires KnownColumns(cols) && 0 <= k < |cols|
    requires cols[k] in [PriceColumn, "precio_lag1", "precio_ma3", "precio_ma6", "precio_std3",
                         "precio_diff1", "precio_diff2"]
    ensures Project(f, cols, Some(p))[k] == Num(p)
  {
    var c := FeatureValue(f, cols[k]).value;
    if cols[k] == "precio_lag1" {
      assert c == Num(p);
    } else {
      assert c == Missing;
    }
  }

  /** The opaque chain: scale, predict, scale back. */
  function Run(x: ScalerX, m: Regressor, y: ScalerY, v: seq<Cell>): Result<real, Raised> {
    match x.transform(v)
    case Err(e) => Err(e)
    case Ok(s) =>
      match m.predict(s)
      case Err(e) => Err(e)
      case Ok(p) => y.inverse(p)
  }

  /** The body of the try block: the price, or why it was not reached. */
  function Attempt(st: State, num: Numerics, target: string): (r: Result<real, Reason>)
    requires StateValid(st) && st.loaded
    ensures DateText.Parse(target).Err? <==> r.Err? && r.error.Unparsable?
    ensures DateText.Parse(target).Err? ==> r == Err(Unparsable(DateText.Parse(target).error))
    ensures DateText.Parse(target).Ok? ==>
              var a := Assemble(st.history, st.featureColumns.value, DateText.Parse(target).value, num);
              (a.Err? ==> r == Err(a.error)) &&
              (a.Ok? ==> var p := Run(st.scalerX.value, st.model.value, st.scalerY.value, a.value);
                         (r.Ok? <==> p.Ok?) &&
                         (p.Ok? ==> r.value == p.value) &&
                         (p.Err? ==> r == Err(Library(p.error))))
  {
    match DateText.Parse(target)
    case Err(e) => Err(Unparsable(e))
    case Ok(d) =>
      match Assemble(st.history, st.featureColumns.value, d, num)
      case Err(why) => Err(why)
      case Ok(v) =>
        match Run(st.scalerX.value, st.model.value, st.scalerY.value, v)
        case Err(e) => Err(Library(e))
        case Ok(p) => Ok(p)
  }

  /** The except clauses as written: every ValueError, whoever raised it,
      becomes the invalid-date record. */
  function HandlerAsWritten(why: Reason): Failure {
    if why.Unparsable? || (why.Library? && why.raised.isValueError) then InvalidDate(why)
    else PredictionError(why)
  }

  /** The except clauses as intended: only the date parse reports an invalid date. */
  function Handler(why: Reason): Failure {
    if why.Unparsable? then InvalidDate(why) else PredictionError(why)
  }

  /** predecir_precio_fecha as written: as Predict, except that a ValueError
      raised by a scaler or the regressor is reported as an invalid date. */
  function PredictAsWritten(st: State, num: Numerics, target: string): (r: Prediction)
    requires StateValid(st)
    ensures !st.loaded <==> r == Failed(NotLoaded)
    ensures st.loaded && DateText.Parse(target).Err? ==>
              r == Failed(InvalidDate(Unparsable(DateText.Parse(target).error)))
    ensures st.loaded && DateText.Parse(target).Ok? ==>
              var a := Assemble(st.history, st.featureColumns.value, DateText.Parse(target).value, num);
              (a.Err? ==> r == Failed(PredictionError(a.error))) &&
              (a.Ok? ==> var p := Run(st.scalerX.value, st.model.value, st.scalerY.value, a.value);
                         (r.Predicted? <==> p.Ok?) &&
                         (p.Ok? ==> r == Predicted(target, p.value)) &&
                         (p.Err? && p.error.isValueError ==> r == Failed(InvalidDate(Library(p.error)))) &&
                         (p.Err? && !p.error.isValueError ==> r == Failed(PredictionError(Library(p.error)))))
  {
    if !st.loaded then Failed(NotLoaded)
    else
      match Attempt(st, num, target)
      case Err(why) => Failed(HandlerAsWritten(why))
      case Ok(p) => Predicted(target, p)
  }

  /** predecir_precio_fecha, with the invalid-date record reserved for dates
      strptime rejects: an unloaded model computes nothing; otherwise the
      answer is the date-format error exactly when the date does not parse,
      and a price only when the features could be assembled. */
  function Predict(st: State, num: Numerics, target: string): (r: Prediction)
    requires StateValid(st)
    ensures !st.loaded <==> r == Failed(NotLoaded)
    ensures st.loaded ==> (r.Failed? && r.failure.InvalidDate? <==> DateText.Parse(target).Err?)
    ensures st.loaded && DateText.Parse(target).Err? ==>
              r == Failed(InvalidDate(Unparsable(DateText.Parse(target).error)))
    ensures st.loaded && DateText.Parse(target).Ok? ==>
              var a := Assemble(st.history, st.featureColumns.value, DateText.Parse(target).value, num);
              (a.Err? ==> r == Failed(PredictionError(a.error))) &&
              (a.Ok? ==> var p := Run(st.scalerX.value, st.model.value, st.scalerY.value, a.value);
                         (r.Predicted? <==> p.Ok?) &&
                         (p.Ok? ==> r == Predicted(target, p.value)) &&
                         (p.Err? ==> r == Failed(PredictionError(Library(p.error)))))
  {
    if !st.loaded then Failed(NotLoaded)
    else
      match Attempt(st, num, target)
      case Err(why) => Failed(Handler(why))
      case Ok(p) => Predicted(target, p)
  }

  /** The two differ only where a scaler or the regressor raises a ValueError. */
  lemma PredictCorrection(st: State, num: Numerics, target: string)
    requires StateValid(st)
    ensures Predict(st, num, target) != PredictAsWritten(st, num, target) <==>
              st.loaded && Attempt(st, num, target).Err? &&
              Attempt(st, num, target).error.Library? && Attempt(st, num, target).error.raised.isValueError
  {
  }

  /** Both produce a price for the same dates, and the same price: they
      differ only in which error record they return. */
  lemma SamePrices(st: State, num: Numerics, target: string)
    requires StateValid(st)
    ensures PredictAsWritten(st, num, target).Predicted? <==> Predict(st, num, target).Predicted?
    ensures Predict(st, num, target).Predicted? ==> PredictAsWritten(st, num, target) == Predict(st, num, target)
  {
  }

  /** A fitted MinMaxScaler: x * scale + offset per feature. A NaN cell
      stays NaN; a row of the wrong width is refused. Timestamp cells are
      left as they are here, as no feature list of the model names the date. */
  function MinMaxScaler(scale: seq<real>, offset: seq<real>): ScalerX
    requires |scale| == |offset|
  {
    ScalerX((v: seq<Cell>) => if |v| != |scale| then Err(Raised(true, "X has a different number of features"))
                              else Ok(seq(|v|, (i: int) requires 0 <= i < |v| && i < |scale| =>
                                            if v[i].Num? then Num(v[i].v * scale[i] + offset[i]) else v[i])))
  }

  /** A one-feature MinMaxScaler passes a NaN cell through. */
  lemma MinMaxKeepsNaN(scale: real, offset: real)
    ensures MinMaxScaler([scale], [offset]).transform([Missing]) == Ok([Missing])
  {
    var v := MinMaxScaler([scale], [offset]).transform([Missing]);
    assert v.Ok? && |v.value| == 1 && v.value[0] == Missing;
    assert v.value == [Missing];
  }

  /** A regressor behind scikit-learn's input check, which raises a
      ValueError on a NaN cell before the model is consulted. */
  function RejectsNaN(m: Regressor): Regressor {
    Regressor(v => if Missing in v then Err(Raised(true, "Input X contains NaN.")) else m.predict(v))
  }

  /** A loaded predictor whose one historical price is NaN. */
  function NaNPriceState(x: ScalerX, m: Regressor, y: ScalerY): (st: State)
    ensures StateValid(st) && st.loaded
  {
    State(Some(RejectsNaN(m)), Some(x), Some(y), Some(["precio_lag1"]),
          Some(Frame([Row(Date(2023, 12, 31), None)], true)), true)
  }

  /** With that history, the vector for 2024-01-15 is one NaN lag cell. */
  lemma NaNLagVector(num: Numerics, x: ScalerX, m: Regressor, y: ScalerY)
    ensures Assemble(NaNPriceState(x, m, y).history, ["precio_lag1"], Date(2024, 1, 15), num) == Ok([Missing])
  {
    var h := [Row(Date(2023, 12, 31), None)];
    var d := Date(2024, 1, 15);
    NaNHistoryDates();
    TargetRowFeatures(h, d, num);
    LagOnlyVector(LastFeatureRow(h, d, num));
    assert NaNPriceState(x, m, y).history == Some(Frame(h, true));
    assert KnownColumns(["precio_lag1"]) && h[|h| - 1].price == None;
  }

  /** The single NaN-priced row of that history precedes the target date. */
  lemma NaNHistoryDates()
    ensures var h := [Row(Date(2023, 12, 31), None)];
            Sorted(h) && DatesValid(h) && Valid(Date(2024, 1, 15)) &&
            forall i :: 0 <= i < |h| ==> NotAfter(h[i].date, Date(2024, 1, 15))
  {
    var h := [Row(Date(2023, 12, 31), None)];
    assert Valid(h[0].date);
    assert NotAfter(h[0].date, Date(2024, 1, 15));
  }

  /** A vector of the first lag alone, with no fill value, is NaN when that
      lag is missing. */
  lemma LagOnlyVector(f: FeatureRow)
    requires f.lag1.None?
    ensures Project(f, ["precio_lag1"], None) == [Missing]
  {
    assert "precio_lag1" in FeatureColumns;
    var v := Project(f, ["precio_lag1"], None);
    assert FeatureValue(f, "precio_lag1").value == Missing;
    assert |v| == 1 && v[0] == Missing;
  }

  /** As written, a well-formed date is reported as an invalid date when the
      last historical price is NaN: the lag cell stays NaN after fillna, the
      scaler lets it through, and the regressor's ValueError is caught by the
      date handler. */
  lemma MisreportedDate(num: Numerics, x: ScalerX, m: Regressor, y: ScalerY)
    requires x.transform([Missing]) == Ok([Missing])
    ensures DateText.Parse("2024-01-15").Ok?
    ensures PredictAsWritten(NaNPriceState(x, m, y), num, "2024-01-15").Failed?
    ensures PredictAsWritten(NaNPriceState(x, m, y), num, "2024-01-15").failure.InvalidDate?
    ensures Predict(NaNPriceState(x, m, y), num, "2024-01-15").failure.PredictionError?
  {
    var st := NaNPriceState(x, m, y);
    DateText.ParseAccepts();
    NaNLagVector(num, x, m, y);
    assert Run(x, st.model.value, y, [Missing]) == Err(Raised(true, "Input X contains NaN."));
    assert Attempt(st, num, "2024-01-15") == Err(Library(Raised(true, "Input X contains NaN.")));
  }

  // ---------------------------------------------------------------------
  // obtener_tendencia_historica

  /** 'Alcista', 'Bajista', 'Estable'. */
  datatype Direction = Rising | Falling | Steady

  /** The trend label of a percentage change: above +5 rising, below -5
      falling, anything else (the thresholds themselves, NaN) steady. */
  function Classify(pct: Float): (dir: Direction)
    ensures dir == Rising <==> Greater(pct, 5.0)
    ensures dir == Falling <==> Less(pct, -5.0)
  {
    if Greater(pct, 5.0) then Rising
    else if Less(pct, -5.0) then Falling
    else Steady
  }

  function DirectionRank(dir: Direction): int {
    match dir
    case Falling => 0
    case Steady => 1
    case Rising => 2
  }

  /** The thresholds are exclusive, NaN is steady, and a larger finite change
      never gets a lower label. */
  lemma ClassifyProperties(a: real, b: real)
    ensures Classify(Fin(5.0)) == Steady && Classify(Fin(-5.0)) == Steady
    ensures Classify(NaN) == Steady && Classify(PosInf) == Rising && Classify(NegInf) == Falling
    ensures a <= b ==> DirectionRank(Classify(Fin(a))) <= DirectionRank(Classify(Fin(b)))
  {
  }

  /** The rows dated on or after the limit, in their order. */
  function Recent(rows: seq<Row>, limit: Date): (r: seq<Row>)
    ensures |r| <= |rows|
    ensures forall x :: x in r <==> x in rows && !Before(x.date, limit)
  {
    if rows == [] then []
    else
      var rest := Recent(rows[1..], limit);
      assert forall x :: x in rows <==> x == rows[0] || x in rows[1..];
      if Before(rows[0].date, limit) then rest else [rows[0]] + rest
  }

  /** On a sorted series the recent rows are a suffix, preceded only by rows
      dated before the limit. */
  lemma {:induction false} RecentIsSuffix(rows: seq<Row>, limit: Date) returns (k: int)
    requires Sorted(rows)
    ensures 0 <= k <= |rows| && Recent(rows, limit) == rows[k..]
    ensures forall i :: 0 <= i < k ==> Before(rows[i].date, limit)
  {
    if rows == [] {
      return 0;
    }
    assert Sorted(rows[1..]) by {
      forall i, j | 0 <= i < j < |rows[1..]| ensures NotAfter(rows[1..][i].date, rows[1..][j].date) {
        assert rows[1..][i] == rows[i + 1] && rows[1..][j] == rows[j + 1];
      }
    }
    if Before(rows[0].date, limit) {
      var k' := RecentIsSuffix(rows[1..], limit);
      k := k' + 1;
      assert rows[1..][k'..] == rows[k..];
      forall i | 1 <= i < k ensures Before(rows[i].date, limit) {
        assert rows[i] == rows[1..][i - 1];
      }
    } else {
      forall i | 0 <= i < |rows| ensures !Before(rows[i].date, limit) {
        assert NotAfter(rows[0].date, rows[i].date);
      }
      RecentKeepsAll(rows, limit);
      k := 0;
    }
  }

  /** When no row is before the limit, the filter keeps every row. */
  lemma {:induction false} RecentKeepsAll(rows: seq<Row>, limit: Date)
    requires forall i :: 0 <= i < |rows| ==> !Before(rows[i].date, limit)
    ensures Recent(rows, limit) == rows
  {
    if rows != [] {
      assert !Before(rows[0].date, limit);
      forall i | 0 <= i < |rows[1..]| ensures !Before(rows[1..][i].date, limit) {
        assert rows[1..][i] == rows[i + 1];
      }
      RecentKeepsAll(rows[1..], limit);
      assert rows == [rows[0]] + rows[1..];
    }
  }

  datatype TrendError =
    | NoHistoryLoaded    // 'No hay datos históricos cargados'
    | InsufficientData   // 'No hay suficientes datos para la tendencia'
    | LimitOutOfRange    // 'Error al calcular tendencia: ...' (date out of bounds)
    | NoPriceData        // 'Error al calcular tendencia: ...' (KeyError)

  datatype TrendReport = TrendReport(
    months: int, first: Option<real>, last: Option<real>, change: Option<real>,
    percent: Float, direction: Direction,
    mean: Option<real>, max: Option<real>, min: Option<real>, volatility: Option<real>)

  /** max date - DateOffset(months=months); only for a non-empty history. */
  function TrendLimit(rows: seq<Row>, months: int): Date
    requires DatesValid(rows) && rows != []
  {
    var latest := LatestDate(rows);
    assert Valid(latest);
    SubtractMonths(latest, months)
  }

  /** The report on a non-empty window: its first and last price, the change
      between them, that change as a percentage of the first price (infinite
      or NaN when the first price is zero, NaN when either is), the label of
      the percentage, and the window's mean, maximum and minimum, which exist
      exactly when some price does. */
  function Summarize(w: seq<Row>, months: int, sqrt: real -> real): (r: TrendReport)
    requires w != []
    ensures r.months == months
    ensures r.first == w[0].price && r.last == w[|w| - 1].price
    ensures r.change.Some? <==> w[0].price.Some? && w[|w| - 1].price.Some?
    ensures r.change.Some? ==> r.change.value == w[|w| - 1].price.value - w[0].price.value
    ensures r.change.Some? && r.first.value != 0.0 ==>
              r.percent == Fin(r.change.value / r.first.value * 100.0)
    ensures r.change.Some? && r.first.value == 0.0 ==>
              (r.percent == PosInf <==> r.change.value > 0.0) && (r.percent == NegInf <==> r.change.value < 0.0) &&
              (r.percent == NaN <==> r.change.value == 0.0)
    ensures r.change.None? ==> r.percent == NaN
    ensures r.direction == Classify(r.percent)
  {
    var ps := Prices(w);
    var first, last := ps[0], ps[|ps| - 1];
    var change := if first.Some? && last.Some? then Some(last.value - first.value) else None;
    var pct := Percent(change, first);
    TrendReport(months, first, last, change, pct, Classify(pct), Mean(ps), Max(ps), Min(ps), StdDev(ps, sqrt))
  }

  /** The report's mean, minimum, maximum and volatility: the first three
      exist exactly when some row of the window has a price, and then the
      mean lies between the other two; the volatility needs two prices. */
  lemma SummaryStatistics(w: seq<Row>, months: int, sqrt: real -> real)
    requires w != []
    ensures var r := Summarize(w, months, sqrt);
            && (r.mean.Some? <==> exists i :: 0 <= i < |w| && w[i].price.Some?)
            && (r.mean.Some? ==> r.min.Some? && r.max.Some? && r.min.value <= r.mean.value <= r.max.value)
            && (r.volatility.Some? <==> |Present(Prices(w))| >= 2)
            && Describes(Present(Prices(w)), r.mean, r.min, r.max)
            && r.volatility == StdDev(Prices(w), sqrt)
  {
    var r := Summarize(w, months, sqrt);
    var ps := Prices(w);
    assert r.mean == Mean(ps) && r.min == Min(ps) && r.max == Max(ps) && r.volatility == StdDev(ps, sqrt);
    MeanBetween(ps);
    Moments(ps);
    WindowHasPrice(w);
  }

  /** (cambio / inicial) * 100 in float64: finite for a non-zero first price,
      infinite or NaN for a zero one, NaN when either operand is NaN. */
  function Percent(change: Option<real>, first: Option<real>): (p: Float)
    ensures change.Some? && first.Some? && first.value != 0.0 ==> p == Fin(change.value / first.value * 100.0)
    ensures change.Some? && first.Some? && first.value == 0.0 ==>
              (p == PosInf <==> change.value > 0.0) && (p == NegInf <==> change.value < 0.0) &&
              (p == NaN <==> change.value == 0.0)
    ensures change.None? || first.None? ==> p == NaN
  {
    ScaleBy(DivOpt(change, first), 100.0)
  }

  /** Some price of the window is present exactly when some row has one. */
  lemma WindowHasPrice(w: seq<Row>)
    ensures Present(Prices(w)) != [] <==> exists i :: 0 <= i < |w| && w[i].price.Some?
  {
    var ps := Prices(w);
    PresentNonEmpty(ps);
    if exists i :: 0 <= i < |w| && w[i].price.Some? {
      var i :| 0 <= i < |w| && w[i].price.Some?;
      assert ps[i].Some?;
    }
  }

  /** obtener_tendencia_historica(months): the report on the rows dated on or
      after the latest date minus the months. An empty history has a NaT
      maximum, so no row passes the filter. */
  function Trend(history: Option<Frame>, months: int, sqrt: real -> real): (r: Result<TrendReport, TrendError>)
    requires history.Some? ==> DatesValid(history.value.rows)
    ensures history.None? <==> r == Err(NoHistoryLoaded)
    ensures history.Some? && history.value.rows == [] ==> r == Err(InsufficientData)
    ensures r.Ok? <==>
              history.Some? && history.value.rows != [] && history.value.hasPrice &&
              MinYear <= TrendLimit(history.value.rows, months).year <= MaxYear &&
              Recent(history.value.rows, TrendLimit(history.value.rows, months)) != []
    ensures r.Ok? ==>
              r.value == Summarize(Recent(history.value.rows, TrendLimit(history.value.rows, months)), months, sqrt)
  {
    if history.None? then Err(NoHistoryLoaded)
    else
      var rows := history.value.rows;
      if rows == [] then Err(InsufficientData)
      else
        var limit := TrendLimit(rows, months);
        if !(MinYear <= limit.year <= MaxYear) then Err(LimitOutOfRange)
        else
          var w := Recent(rows, limit);
          if w == [] then Err(InsufficientData)
          else if !history.value.hasPrice then Err(NoPriceData)
          else Ok(Summarize(w, months, sqrt))
  }

  /** Looking back zero or more months always keeps the latest row, so a
      non-empty history never runs short of data unless the limit leaves
      datetime's range. */
  lemma TrendNonEmpty(f: Frame, months: int, sqrt: real -> real)
    requires DatesValid(f.rows) && f.rows != [] && months >= 0
    ensures Recent(f.rows, TrendLimit(f.rows, months)) != []
    ensures Trend(Some(f), months, sqrt).Err? ==>
              Trend(Some(f), months, sqrt) == Err(if !f.hasPrice && TrendLimit(f.rows, months).year >= MinYear
                                            then NoPriceData else LimitOutOfRange)
  {
    var latest := LatestDate(f.rows);
    var i :| 0 <= i < |f.rows| && f.rows[i].date == latest;
    SubtractMonthsNotAfter(latest, months);
    assert !Before(f.rows[i].date, TrendLimit(f.rows, months)) by {
      BeforeIsTotal(TrendLimit(f.rows, months), latest);
    }
    assert f.rows[i] in Recent(f.rows, TrendLimit(f.rows, months));
  }

  /** Monthly prices 50, 55, 60, 58, 62, 65 on the first of January to June 2024. */
  function ExampleHistory(): (rows: seq<Row>)
    ensures |rows| == 6 && DatesValid(rows) && Sorted(rows)
  {
    [Row(Date(2024, 1, 1), Some(50.0)), Row(Date(2024, 2, 1), Some(55.0)),
     Row(Date(2024, 3, 1), Some(60.0)), Row(Date(2024, 4, 1), Some(58.0)),
     Row(Date(2024, 5, 1), Some(62.0)), Row(Date(2024, 6, 1), Some(65.0))]
  }

  lemma ExampleLatest()
    ensures LatestDate(ExampleHistory()) == Date(2024, 6, 1)
  {
    var rows := ExampleHistory();
    var latest := LatestDate(rows);
    var i :| 0 <= i < |rows| && rows[i].date == latest;
    assert NotAfter(rows[5].date, latest);
  }

  /** Three months back from 2024-06-01 is 2024-03-01, and that row is kept. */
  lemma ExampleWindow()
    ensures TrendLimit(ExampleHistory(), 3) == Date(2024, 3, 1)
    ensures Recent(ExampleHistory(), Date(2024, 3, 1)) == ExampleHistory()[2..]
  {
    ExampleLimit();
    ExampleRecent();
  }

  lemma ExampleLimit()
    ensures TrendLimit(ExampleHistory(), 3) == Date(2024, 3, 1)
  {
    ExampleLatest();
    var r := SubtractMonths(Date(2024, 6, 1), 3);
    assert 12 * r.year + r.month == 12 * 2024 + 3 && 1 <= r.month <= 12;
    assert r.year == 2024;
    assert r.month == 3 && r.day == 1;
  }

  lemma ExampleRecent()
    ensures Recent(ExampleHistory(), Date(2024, 3, 1)) == ExampleHistory()[2..]
  {
    var rows := ExampleHistory();
    var k := RecentIsSuffix(rows, Date(2024, 3, 1));
    assert !Before(rows[2].date, Date(2024, 3, 1));
    assert Before(rows[1].date, Date(2024, 3, 1));
    assert k == 2;
  }

  /** The worked example over three months: the window starts on 2024-03-01
      (the boundary is kept), so the change is 60 to 65, rising, with mean
      61.25, minimum 58 and maximum 65. */
  lemma TrendExample(sqrt: real -> real)
    ensures var r := Trend(Some(Frame(ExampleHistory(), true)), 3, sqrt);
            r.Ok? && r.value.first == Some(60.0) && r.value.last == Some(65.0) &&
            r.value.change == Some(5.0) && r.value.direction == Rising &&
            r.value.mean == Some(61.25) && r.value.min == Some(58.0) && r.value.max == Some(65.0)
  {
    ExampleWindow();
    ExampleReport(sqrt);
  }

  lemma ExampleReport(sqrt: real -> real)
    ensures var r := Summarize(ExampleHistory()[2..], 3, sqrt);
            r.first == Some(60.0) && r.last == Some(65.0) &&
            r.change == Some(5.0) && r.direction == Rising &&
            r.mean == Some(61.25) && r.min == Some(58.0) && r.max == Some(65.0)
  {
    var w := ExampleHistory()[2..];
    var ps := Prices(w);
    assert |w| == 4;
    assert w[0].price == Some(60.0) && w[1].price == Some(58.0);
    assert w[2].price == Some(62.0) && w[3].price == Some(65.0);
    ExampleSummary(ps);
    assert DivOpt(Some(5.0), ps[0]) == Fin(5.0 / 60.0);
    assert Greater(ScaleBy(Fin(5.0 / 60.0), 100.0), 5.0);
  }

  lemma ExampleSummary(ps: seq<Option<real>>)
    requires |ps| == 4 && ps[0] == Some(60.0) && ps[1] == Some(58.0) && ps[2] == Some(62.0) && ps[3] == Some(65.0)
    ensures Mean(ps) == Some(61.25) && Min(ps) == Some(58.0) && Max(ps) == Some(65.0)
  {
    ExamplePresent(ps);
    ExampleExtremes();
    assert 245.0 / 4.0 == 61.25;
  }

  lemma ExamplePresent(ps: seq<Option<real>>)
    requires |ps| == 4 && ps[0] == Some(60.0) && ps[1] == Some(58.0) && ps[2] == Some(62.0) && ps[3] == Some(65.0)
    ensures Present(ps) == [60.0, 58.0, 62.0, 65.0]
  {
    assert ps[3..][1..] == [];
    assert Present(ps[3..]) == [65.0];
    assert ps[2..][1..] == ps[3..];
    assert Present(ps[2..]) == [62.0, 65.0];
    assert ps[1..][1..] == ps[2..];
    assert Present(ps[1..]) == [58.0, 62.0, 65.0];
  }

  lemma ExampleExtremes()
    ensures Sum([60.0, 58.0, 62.0, 65.0]) == 245.0
    ensures Minimum([60.0, 58.0, 62.0, 65.0]) == 58.0 && Maximum([60.0, 58.0, 62.0, 65.0]) == 65.0
  {
    var xs := [60.0, 58.0, 62.0, 65.0];
    assert xs[1..] == [58.0, 62.0, 65.0] && xs[1..][1..] == [62.0, 65.0] && xs[1..][1..][1..] == [65.0];
    assert Sum([65.0]) == 65.0;
    assert Minimum([65.0]) == 65.0 && Maximum([65.0]) == 65.0;
    assert Minimum([62.0, 65.0]) == 62.0 && Maximum([62.0, 65.0]) == 65.0;
    assert Minimum([58.0, 62.0, 65.0]) == 58.0 && Maximum([58.0, 62.0, 65.0]) == 65.0;
  }

  // ---------------------------------------------------------------------
  // validar_modelo and obtener_info_modelo

  datatype Report = Report(
    modelLoaded: bool, scalerXLoaded: bool, scalerYLoaded: bool,
    columnsLoaded: bool, historyLoaded: bool, fullyFunctional: bool)

  /** validar_modelo: which attributes are set, and whether the model is
      fully functional (loaded, with a history). */
  function Validate(st: State): (r: Report)
    ensures r.modelLoaded <==> st.model.Some?
    ensures r.scalerXLoaded <==> st.scalerX.Some?
    ensures r.scalerYLoaded <==> st.scalerY.Some?
    ensures r.columnsLoaded <==> st.featureColumns.Some?
    ensures r.historyLoaded <==> st.history.Some?
    ensures r.fullyFunctional <==> st.loaded && st.history.Some?
  {
    Report(st.model.Some?, st.scalerX.Some?, st.scalerY.Some?, st.featureColumns.Some?,
           st.history.Some?, st.loaded && st.history.Some?)
  }

  /** A predictor without the output scaler reports it missing and is not
      fully functional, whatever else it holds. */
  lemma MissingOutputScaler(st: State)
    requires StateValid(st) && st.scalerY.None?
    ensures !Validate(st).scalerYLoaded && !Validate(st).fullyFunctional
  {
  }

  /** A fully functional predictor has all five components; right after
      construction the converse holds too. */
  lemma FullyFunctional(st: State)
    requires StateValid(st)
    ensures Validate(st).fullyFunctional ==>
              Validate(st).modelLoaded && Validate(st).scalerXLoaded && Validate(st).scalerYLoaded &&
              Validate(st).columnsLoaded && Validate(st).historyLoaded
    ensures Consistent(st) ==>
              (Validate(st).fullyFunctional <==>
                 Validate(st).modelLoaded && Validate(st).scalerXLoaded && Validate(st).scalerYLoaded &&
                 Validate(st).columnsLoaded && Validate(st).historyLoaded)
  {
  }

  datatype Info = Info(numFeatures: nat, features: seq<string>, historyRows: nat,
                       dateRange: Option<(string, string)>)

  datatype InfoError =
    | ModelNotLoaded   // 'Modelo no cargado'
    | InfoFailed       // 'Error al obtener información del modelo: ...' (NaT.strftime)

  /** obtener_info_modelo, without the hyperparameters read by getattr. */
  function ModelInfo(st: State): (r: Result<Info, InfoError>)
    requires StateValid(st)
    ensures !st.loaded <==> r == Err(ModelNotLoaded)
    ensures r == Err(InfoFailed) <==> st.loaded && st.history.Some? && st.history.value.rows == []
    ensures r.Ok? ==> r.value.features == st.featureColumns.value && r.value.numFeatures == |r.value.features|
    ensures r.Ok? ==> r.value.historyRows == if st.history.Some? then |st.history.value.rows| else 0
    ensures r.Ok? ==> (r.value.dateRange.Some? <==> st.history.Some?)
    ensures r.Ok? && st.history.Some? ==>
              DateText.Parse(r.value.dateRange.value.0).Ok? && DateText.Parse(r.value.dateRange.value.1).Ok? &&
              NotAfter(DateText.Parse(r.value.dateRange.value.0).value, DateText.Parse(r.value.dateRange.value.1).value)
    ensures r.Ok? && st.history.Some? ==>
              r.value.dateRange == Some((DateText.Format(EarliestDate(st.history.value.rows)),
                                         DateText.Format(LatestDate(st.history.value.rows))))
  {
    if !st.loaded then Err(ModelNotLoaded)
    else
      var cols := st.featureColumns.value;
      if st.history.None? then Ok(Info(|cols|, cols, 0, None))
      else
        var rows := st.history.value.rows;
        if rows == [] then Err(InfoFailed)
        else
          var first, last := EarliestDate(rows), LatestDate(rows);
          assert Valid(first) && Valid(last) && NotAfter(first, last) by {
            var i :| 0 <= i < |rows| && rows[i].date == last;
          }
          DateText.ParseFormat(first);
          DateText.ParseFormat(last);
          Ok(Info(|cols|, cols, |rows|, Some((DateText.Format(first), DateText.Format(last)))))
  }

  // ---------------------------------------------------------------------
  // The predictor object

  class AvocadoPredictor {
    var model: Option<Regressor>
    var scalerX: Option<ScalerX>
    var scalerY: Option<ScalerY>
    var featureColumns: Option<seq<string>>
    var history: Option<Frame>
    var loaded: bool

    function Snapshot(): State
      reads this
    {
      State(model, scalerX, scalerY, featureColumns, history, loaded)
    }

    ghost predicate Valid()
      reads this
    {
      StateValid(Snapshot())
    }

    /** __init__: everything unset, then the model files, then the history. */
    constructor(files: ModelFiles, data: Source)
      ensures Valid() && Consistent(Snapshot())
      ensures loaded <==> AllStored(files)
      ensures history == if Load(data).Ok? then Some(Load(data).value) else None
      ensures model == if AllExist(files) && files.model.Stored? then Some(files.model.value) else None
      ensures scalerX == if AllExist(files) && files.model.Stored? && files.scalerX.Stored?
                         then Some(files.scalerX.value) else None
      ensures scalerY == if AllExist(files) && files.model.Stored? && files.scalerX.Stored? && files.scalerY.Stored?
                         then Some(files.scalerY.value) else None
      ensures featureColumns == if AllStored(files) then Some(files.features.value) else None
    {
      model, scalerX, scalerY, featureColumns := None, None, None, None;
      history, loaded := None, false;
      new;
      var _ := LoadModel(files);
      var _ := LoadHistory(data);
    }

    /** _cargar_modelo: all four paths must exist before anything is read;
        then the files are read in order, and a file that fails to load stops
        the sequence with the earlier attributes already set. */
    method LoadModel(files: ModelFiles) returns (ok: bool)
      requires Valid()
      modifies this
      ensures Valid() && ok == loaded
      ensures loaded <==> AllStored(files)
      ensures history == old(history)
      ensures model == if AllExist(files) && files.model.Stored? then Some(files.model.value) else old(model)
      ensures scalerX == if AllExist(files) && files.model.Stored? && files.scalerX.Stored?
                         then Some(files.scalerX.value) else old(scalerX)
      ensures scalerY == if AllExist(files) && files.model.Stored? && files.scalerX.Stored? && files.scalerY.Stored?
                         then Some(files.scalerY.value) else old(scalerY)
      ensures featureColumns == if AllStored(files) then Some(files.features.value) else old(featureColumns)
    {
      if !AllExist(files) {
        loaded := false;
        return false;
      }
      if !files.model.Stored? {
        loaded := false;
        return false;
      }
      model := Some(files.model.value);
      if !files.scalerX.Stored? {
        loaded := false;
        return false;
      }
      scalerX := Some(files.scalerX.value);
      if !files.scalerY.Stored? {
        loaded := false;
        return false;
      }
      scalerY := Some(files.scalerY.value);
      if !files.features.Stored? {
        loaded := false;
        return false;
      }
      featureColumns := Some(files.features.value);
      loaded := true;
      return true;
    }

    /** _cargar_datos_historicos: the loaded frame, or the old value kept
        when loading raises. */
    method LoadHistory(data: Source) returns (ok: bool)
      requires Valid()
      modifies this
      ensures Valid()
      ensures ok <==> Load(data).Ok?
      ensures history == if ok then Some(Load(data).value) else old(history)
      ensures model == old(model) && scalerX == old(scalerX) && scalerY == old(scalerY)
      ensures featureColumns == old(featureColumns) && loaded == old(loaded)
    {
      var r := Load(data);
      if r.Err? {
        return false;
      }
      history := Some(r.value);
      return true;
    }

    /** predecir_multiples_fechas: one prediction per date, in order; a
        failure at one date does not stop the others. */
    method PredictMany(num: Numerics, dates: seq<string>) returns (results: seq<Prediction>)
      requires Valid()
      ensures |results| == |dates|
      ensures forall k :: 0 <= k < |dates| ==> results[k] == Predict(Snapshot(), num, dates[k])
      ensures forall k :: 0 <= k < |dates| ==>
                (results[k].Predicted? <==> PredictAsWritten(Snapshot(), num, dates[k]).Predicted?)
      ensures forall k :: 0 <= k < |dates| && results[k].Predicted? ==>
                results[k] == PredictAsWritten(Snapshot(), num, dates[k])
    {
      results := [];
      for k := 0 to |dates|
        invariant |results| == k
        invariant forall j :: 0 <= j < k ==> results[j] == Predict(Snapshot(), num, dates[j])
      {
        results := results + [Predict(Snapshot(), num, dates[k])];
      }
      forall k | 0 <= k < |dates|
        ensures results[k].Predicted? <==> PredictAsWritten(Snapshot(), num, dates[k]).Predicted?
        ensures results[k].Predicted? ==> results[k] == PredictAsWritten(Snapshot(), num, dates[k])
      {
        SamePrices(Snapshot(), num, dates[k]);
      }
    }
  }
}
