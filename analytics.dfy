// The analytics the desktop application computes over the predictor
// (src/app/main.py): the streak scan and the coefficient-of-variation band of
// analizar_volatilidad, and the batch forecast with its summary in
// _generar_predicciones_multiples. The text widgets and message boxes that
// display the results are not modelled; the results themselves are.
module Analytics {
  import opened Wrappers
  import opened Floats
  import opened Series
  import opened Features
  import opened Predictor
  import DateText

  // ---------------------------------------------------------------------
  // Streaks of rises and falls

  /** tipo_racha: None, 'alcista' or 'bajista'. */
  datatype Run = NoRun | Up | Down

  /** The loop variables: rachas_alcistas, rachas_bajistas, racha_actual, tipo_racha. */
  datatype Scan = Scan(rises: nat, falls: nat, current: nat, kind: Run)

  /** One pass of the loop body over the change c. A zero change leaves
      everything as it is, so it neither ends nor extends a streak. */
  function Step(s: Scan, c: real): Scan {
    if c > 0.0 then
      (if s.kind != Up then Scan(s.rises + 1, s.falls, 1, Up) else s.(current := s.current + 1))
    else if c < 0.0 then
      (if s.kind != Down then Scan(s.rises, s.falls + 1, 1, Down) else s.(current := s.current + 1))
    else s
  }

  /** The loop variables after scanning the changes from first to last. */
  function ScanStreaks(cs: seq<real>): Scan
    decreases |cs|
  {
    if cs == [] then Scan(0, 0, 0, NoRun)
    else Step(ScanStreaks(cs[..|cs| - 1]), cs[|cs| - 1])
  }

  /** The signs of the non-zero changes in order; true for a rise. */
  function Signs(cs: seq<real>): seq<bool>
    decreases |cs|
  {
    if cs == [] then []
    else
      var c := cs[|cs| - 1];
      Signs(cs[..|cs| - 1]) + (if c > 0.0 then [true] else if c < 0.0 then [false] else [])
  }

  /** The number of neighbouring signs that differ. */
  function Flips(ss: seq<bool>): nat
    decreases |ss|
  {
    if |ss| < 2 then 0
    else Flips(ss[..|ss| - 1]) + (if ss[|ss| - 2] != ss[|ss| - 1] then 1 else 0)
  }

  /** The number of positive changes. */
  function Rises(cs: seq<real>): nat
    decreases |cs|
  {
    if cs == [] then 0 else Rises(cs[..|cs| - 1]) + (if cs[|cs| - 1] > 0.0 then 1 else 0)
  }

  /** The number of negative changes. */
  function Falls(cs: seq<real>): nat
    decreases |cs|
  {
    if cs == [] then 0 else Falls(cs[..|cs| - 1]) + (if cs[|cs| - 1] < 0.0 then 1 else 0)
  }

  /** Appending one sign adds a flip exactly when it differs from the last. */
  lemma FlipsAppend(ss: seq<bool>, b: bool)
    ensures Flips(ss + [b]) == Flips(ss) + (if ss != [] && ss[|ss| - 1] != b then 1 else 0)
  {
    var t := ss + [b];
    assert t[..|t| - 1] == ss;
  }

  /** Streaks alternate: the current kind is the sign of the last non-zero
      change, and the two counts differ by at most one, the kind of the
      current streak being the one ahead. */
  lemma {:induction false} StreakKind(cs: seq<real>)
    ensures var s, ss := ScanStreaks(cs), Signs(cs);
            (s.kind == NoRun <==> ss == []) &&
            (s.kind == NoRun ==> s.rises == 0 && s.falls == 0 && s.current == 0) &&
            (ss != [] ==> (s.kind == Up <==> ss[|ss| - 1]) && s.current >= 1) &&
            (s.kind == Up ==> 1 <= s.rises && s.falls <= s.rises <= s.falls + 1) &&
            (s.kind == Down ==> 1 <= s.falls && s.rises <= s.falls <= s.rises + 1)
    decreases |cs|
  {
    if cs != [] {
      var p, c := cs[..|cs| - 1], cs[|cs| - 1];
      StreakKind(p);
      assert ScanStreaks(cs) == Step(ScanStreaks(p), c);
      if c > 0.0 || c < 0.0 {
        assert Signs(cs) == Signs(p) + [c > 0.0];
      } else {
        assert Signs(cs) == Signs(p);
      }
    }
  }

  /** A streak is counted exactly at the first non-zero change and at every
      flip of sign among the non-zero changes. */
  lemma {:induction false} StreakCount(cs: seq<real>)
    ensures var s, ss := ScanStreaks(cs), Signs(cs);
            s.rises + s.falls == (if ss == [] then 0 else Flips(ss) + 1)
    decreases |cs|
  {
    if cs != [] {
      var p, c := cs[..|cs| - 1], cs[|cs| - 1];
      StreakCount(p);
      StreakKind(p);
      assert ScanStreaks(cs) == Step(ScanStreaks(p), c);
      assert Signs(cs) == SignsAfter(Signs(p), c);
      StepCount(ScanStreaks(p), Signs(p), c);
    }
  }

  /** The signs after one more change: a zero change adds none. */
  function SignsAfter(ss: seq<bool>, c: real): seq<bool> {
    if c > 0.0 then ss + [true] else if c < 0.0 then ss + [false] else ss
  }

  /** One step keeps the count of streaks equal to the flips plus one. */
  lemma StepCount(s: Scan, ss: seq<bool>, c: real)
    requires s.kind == NoRun <==> ss == []
    requires ss != [] ==> (s.kind == Up <==> ss[|ss| - 1])
    requires s.rises + s.falls == (if ss == [] then 0 else Flips(ss) + 1)
    ensures var t, ts := Step(s, c), SignsAfter(ss, c);
            t.rises + t.falls == (if ts == [] then 0 else Flips(ts) + 1)
  {
    if c > 0.0 || c < 0.0 {
      FlipsAppend(ss, c > 0.0);
    }
  }

  /** The bullish and bearish counts differ by at most one. */
  lemma StreakBalance(cs: seq<real>)
    ensures var s := ScanStreaks(cs);
            s.rises <= s.falls + 1 && s.falls <= s.rises + 1
  {
    StreakKind(cs);
  }

  /** Each count is at most the number of changes of its sign, and it is
      positive exactly when some change has that sign. */
  lemma {:induction false} StreakBounds(cs: seq<real>)
    ensures ScanStreaks(cs).rises <= Rises(cs) && ScanStreaks(cs).falls <= Falls(cs)
    ensures ScanStreaks(cs).rises >= 1 <==> exists i :: 0 <= i < |cs| && cs[i] > 0.0
    ensures ScanStreaks(cs).falls >= 1 <==> exists i :: 0 <= i < |cs| && cs[i] < 0.0
    decreases |cs|
  {
    if cs != [] {
      var p, c := cs[..|cs| - 1], cs[|cs| - 1];
      StreakBounds(p);
      StreakKind(p);
      assert ScanStreaks(cs) == Step(ScanStreaks(p), c);
      assert forall i :: 0 <= i < |p| ==> p[i] == cs[i];
      if exists i :: 0 <= i < |cs| && cs[i] > 0.0 {
        var i :| 0 <= i < |cs| && cs[i] > 0.0;
        if i < |p| {
          assert p[i] > 0.0;
        }
      }
      if exists i :: 0 <= i < |cs| && cs[i] < 0.0 {
        var i :| 0 <= i < |cs| && cs[i] < 0.0;
        if i < |p| {
          assert p[i] < 0.0;
        }
      }
    }
  }

  /** The changes +2, +1, 0, -3, -1, +4 hold two rising streaks and one falling. */
  lemma StreakExample()
    ensures var s := ScanStreaks([2.0, 1.0, 0.0, -3.0, -1.0, 4.0]);
            s.rises == 2 && s.falls == 1 && s.kind == Up && s.current == 1
  {
    var cs := [2.0, 1.0, 0.0, -3.0, -1.0, 4.0];
    assert cs[..5] == [2.0, 1.0, 0.0, -3.0, -1.0];
    assert cs[..5][..4] == [2.0, 1.0, 0.0, -3.0];
    assert cs[..5][..4][..3] == [2.0, 1.0, 0.0];
    assert cs[..5][..4][..3][..2] == [2.0, 1.0];
    assert cs[..5][..4][..3][..2][..1] == [2.0];
    assert ScanStreaks([2.0]) == Scan(1, 0, 1, Up);
    assert ScanStreaks([2.0, 1.0]) == Scan(1, 0, 2, Up);
    assert ScanStreaks([2.0, 1.0, 0.0]) == Scan(1, 0, 2, Up);
    assert ScanStreaks([2.0, 1.0, 0.0, -3.0]) == Scan(1, 1, 1, Down);
    assert ScanStreaks([2.0, 1.0, 0.0, -3.0, -1.0]) == Scan(1, 1, 2, Down);
  }

  /** The streak loop over precios.diff().dropna(). */
  method CountStreaks(prices: seq<Option<real>>) returns (rises: nat, falls: nat)
    ensures var s := ScanStreaks(Present(Diff(prices, 1)));
            rises == s.rises && falls == s.falls
  {
    var changes := Present(Diff(prices, 1));
    rises, falls := 0, 0;
    var current: nat := 0;
    var kind := NoRun;
    for i := 0 to |changes|
      invariant Scan(rises, falls, current, kind) == ScanStreaks(changes[..i])
    {
      var c := changes[i];
      if c > 0.0 {
        if kind != Up {
          rises := rises + 1;
          kind := Up;
          current := 1;
        } else {
          current := current + 1;
        }
      } else if c < 0.0 {
        if kind != Down {
          falls := falls + 1;
          kind := Down;
          current := 1;
        } else {
          current := current + 1;
        }
      }
      assert changes[..i + 1][..i] == changes[..i];
    }
    assert changes[..|changes|] == changes;
  }

  // ---------------------------------------------------------------------
  // Coefficient of variation

  /** (precios.std() / precios.mean()) * 100, in float64. */
  function CoefficientOfVariation(ps: seq<Option<real>>, num: Numerics): (cv: Float)
    ensures StdDev(ps, num.sqrt).None? ==> cv == NaN
    ensures StdDev(ps, num.sqrt).Some? && Mean(ps).Some? && Mean(ps).value != 0.0 ==>
              cv == Fin(StdDev(ps, num.sqrt).value / Mean(ps).value * 100.0)
    ensures StdDev(ps, num.sqrt).Some? && Mean(ps).Some? && Mean(ps).value == 0.0 ==>
              var sd := StdDev(ps, num.sqrt).value;
              (cv == PosInf <==> sd > 0.0) && (cv == NegInf <==> sd < 0.0) && (cv == NaN <==> sd == 0.0)
    ensures Mean(ps).None? ==> cv == NaN
  {
    ScaleBy(DivOpt(StdDev(ps, num.sqrt), Mean(ps)), 100.0)
  }

  /** 'Baja', 'Moderada', 'Alta', 'Muy alta'. */
  datatype Level = Low | Moderate | High | VeryHigh

  /** The band of a coefficient of variation: below 15 low, below 30
      moderate, below 50 high, otherwise very high. As every comparison with
      NaN is false, a NaN coefficient lands in the last band. */
  function VolatilityLevel(cv: Float): (v: Level)
    ensures cv.Fin? ==> (v == Low <==> cv.r < 15.0)
    ensures cv.Fin? ==> (v == Moderate <==> 15.0 <= cv.r < 30.0)
    ensures cv.Fin? ==> (v == High <==> 30.0 <= cv.r < 50.0)
    ensures cv.Fin? ==> (v == VeryHigh <==> 50.0 <= cv.r)
    ensures cv == NaN || cv == PosInf ==> v == VeryHigh
    ensures cv == NegInf ==> v == Low
  {
    if Less(cv, 15.0) then Low
    else if Less(cv, 30.0) then Moderate
    else if Less(cv, 50.0) then High
    else VeryHigh
  }

  function LevelRank(v: Level): int {
    match v
    case Low => 0
    case Moderate => 1
    case High => 2
    case VeryHigh => 3
  }

  /** A larger finite coefficient never gets a lower band, and the band
      boundaries belong to the upper band. */
  lemma VolatilityMonotone(a: real, b: real)
    requires a <= b
    ensures LevelRank(VolatilityLevel(Fin(a))) <= LevelRank(VolatilityLevel(Fin(b)))
    ensures VolatilityLevel(Fin(15.0)) == Moderate && VolatilityLevel(Fin(30.0)) == High
    ensures VolatilityLevel(Fin(50.0)) == VeryHigh
  {
  }

  /** With fewer than two prices the standard deviation is NaN, and so the
      market reads as extremely volatile. */
  lemma FewPricesVeryHigh(ps: seq<Option<real>>, num: Numerics)
    requires |Present(ps)| < 2
    ensures VolatilityLevel(CoefficientOfVariation(ps, num)) == VeryHigh
  {
  }

  /** Prices that never move have a coefficient of zero, in the lowest band,
      provided the square root of zero is zero and the price is positive. */
  lemma ConstantPricesLow(ps: seq<Option<real>>, num: Numerics, c: real)
    requires num.sqrt(0.0) == 0.0 && c > 0.0
    requires |Present(ps)| >= 2 && forall x :: x in Present(ps) ==> x == c
    ensures CoefficientOfVariation(ps, num) == Fin(0.0)
    ensures VolatilityLevel(CoefficientOfVariation(ps, num)) == Low
  {
    ConstantMoments(ps, num.sqrt, c);
    assert 0.0 / c * 100.0 == 0.0;
  }

  /** Why analizar_volatilidad produces no report. */
  datatype VolatilityError =
    | HistoryNotLoaded            // "Debe cargar los datos históricos primero."
    | PriceColumnMissing        // the KeyError on 'Precio promedio'

  datatype VolatilityReport = VolatilityReport(
    std: Option<real>, cv: Float, rises: nat, falls: nat, level: Level)

  /** analizar_volatilidad: the standard deviation, its coefficient of
      variation and band, and the streak counts of the loaded history. */
  method AnalyzeVolatility(p: AvocadoPredictor, num: Numerics) returns (r: Result<VolatilityReport, VolatilityError>)
    ensures r == Err(HistoryNotLoaded) <==> p.history.None?
    ensures r == Err(PriceColumnMissing) <==> p.history.Some? && !p.history.value.hasPrice
    ensures r.Ok? ==>
              var ps := Prices(p.history.value.rows);
              var s := ScanStreaks(Present(Diff(ps, 1)));
              r.value.std == StdDev(ps, num.sqrt) &&
              r.value.cv == CoefficientOfVariation(ps, num) &&
              r.value.level == VolatilityLevel(r.value.cv) &&
              r.value.rises == s.rises && r.value.falls == s.falls
  {
    if p.history.None? {
      return Err(HistoryNotLoaded);
    }
    var frame := p.history.value;
    if !frame.hasPrice {
      return Err(PriceColumnMissing);
    }
    var ps := Prices(frame.rows);
    var rises, falls := CountStreaks(ps);
    var cv := CoefficientOfVariation(ps, num);
    return Ok(VolatilityReport(StdDev(ps, num.sqrt), cv, rises, falls, VolatilityLevel(cv)));
  }

  // ---------------------------------------------------------------------
  // Batch forecast

  /** Why _generar_predicciones_multiples produces no forecast. */
  datatype BatchError =
    | MonthsOutOfRange                    // "El número de meses debe estar entre 1 y 24"
    | BadStart(cause: DateText.ParseError)
    | DateOverflow                        // datetime's OverflowError past year 9999

  /** cambio_proyectado: not computed with fewer than two successful
      predictions. The prices are numpy float64 values, so a zero first price
      gives an infinite or NaN percentage rather than an exception. */
  datatype Projection = TooFew | Change(percent: Float, trend: Direction)

  datatype Summary = Summary(
    dates: seq<string>, results: seq<Prediction>,
    count: nat, total: real, average: Option<real>, projection: Projection)

  /** The positions of the successful predictions, in order. */
  function SuccessIndices(rs: seq<Prediction>): (idx: seq<int>)
    ensures forall j :: 0 <= j < |idx| ==> 0 <= idx[j] < |rs| && rs[idx[j]].Predicted?
    decreases |rs|
  {
    if rs == [] then []
    else SuccessIndices(rs[..|rs| - 1]) + (if rs[|rs| - 1].Predicted? then [|rs| - 1] else [])
  }

  /** The positions are increasing and every successful prediction has one. */
  lemma {:induction false} SuccessIndicesExact(rs: seq<Prediction>)
    ensures var idx := SuccessIndices(rs);
            (forall i, j :: 0 <= i < j < |idx| ==> idx[i] < idx[j]) &&
            (forall k :: 0 <= k < |rs| && rs[k].Predicted? ==> k in idx)
    decreases |rs|
  {
    if rs != [] {
      var init := rs[..|rs| - 1];
      SuccessIndicesExact(init);
      var head := SuccessIndices(init);
      assert forall j :: 0 <= j < |head| ==> head[j] < |init|;
      assert forall k :: 0 <= k < |init| ==> init[k] == rs[k];
    }
  }

  /** The prices of the successful predictions, in order: the price at
      position j is that of the j-th successful result. */
  function Successes(rs: seq<Prediction>): (ps: seq<real>)
    ensures |ps| == |SuccessIndices(rs)| <= |rs|
    ensures forall j :: 0 <= j < |ps| ==> ps[j] == rs[SuccessIndices(rs)[j]].price
    ensures forall x :: x in ps <==> exists k :: 0 <= k < |rs| && rs[k].Predicted? && rs[k].price == x
    decreases |rs|
  {
    if rs == [] then []
    else
      var init, last := rs[..|rs| - 1], rs[|rs| - 1];
      assert forall k :: 0 <= k < |init| ==> init[k] == rs[k];
      Successes(init) + (if last.Predicted? then [last.price] else [])
  }

  /** precios_validos[0] and precios_validos[-1]: the first price is that of
      the earliest successful result and the last that of the latest. */
  lemma FirstAndLastSuccess(rs: seq<Prediction>)
    requires Successes(rs) != []
    ensures exists k :: 0 <= k < |rs| && rs[k].Predicted? && Successes(rs)[0] == rs[k].price &&
                        forall i :: 0 <= i < k ==> !rs[i].Predicted?
    ensures exists k :: 0 <= k < |rs| && rs[k].Predicted? && Successes(rs)[|Successes(rs)| - 1] == rs[k].price &&
                        forall i :: k < i < |rs| ==> !rs[i].Predicted?
  {
    var idx := SuccessIndices(rs);
    SuccessIndicesExact(rs);
    forall i | 0 <= i < idx[0]
      ensures !rs[i].Predicted?
    {
      OutsideIncreasing(idx, i);
    }
    forall i | idx[|idx| - 1] < i < |rs|
      ensures !rs[i].Predicted?
    {
      OutsideIncreasing(idx, i);
    }
  }

  /** An increasing sequence holds nothing below its first element or above
      its last. */
  lemma OutsideIncreasing(idx: seq<int>, i: int)
    requires idx != [] && forall a, b :: 0 <= a < b < |idx| ==> idx[a] < idx[b]
    requires i < idx[0] || idx[|idx| - 1] < i
    ensures i !in idx
  {
    forall j | 0 <= j < |idx|
      ensures idx[j] != i
    {
      if 0 < j {
        assert idx[0] < idx[j];
      }
      if j < |idx| - 1 {
        assert idx[j] < idx[|idx| - 1];
      }
    }
  }

  /** Result lists that succeed at the same positions with the same prices
      have the same successful prices. */
  lemma {:induction false} SuccessesOfSamePrices(rs: seq<Prediction>, ts: seq<Prediction>)
    requires |rs| == |ts|
    requires forall k :: 0 <= k < |rs| ==> (rs[k].Predicted? <==> ts[k].Predicted?)
    requires forall k :: 0 <= k < |rs| && rs[k].Predicted? ==> rs[k].price == ts[k].price
    ensures Successes(rs) == Successes(ts)
    decreases |rs|
  {
    if rs != [] {
      var ri, ti := rs[..|rs| - 1], ts[..|ts| - 1];
      assert forall k :: 0 <= k < |ri| ==> ri[k] == rs[k] && ti[k] == ts[k];
      SuccessesOfSamePrices(ri, ti);
    }
  }

  /** The results of the batch loop with predecir_precio_fecha as written. */
  function PredictAllAsWritten(st: State, num: Numerics, dates: seq<string>): (rs: seq<Prediction>)
    requires StateValid(st)
    ensures |rs| == |dates|
    ensures forall k :: 0 <= k < |dates| ==> rs[k] == PredictAsWritten(st, num, dates[k])
    decreases |dates|
  {
    if dates == [] then []
    else PredictAllAsWritten(st, num, dates[..|dates| - 1]) + [PredictAsWritten(st, num, dates[|dates| - 1])]
  }

  /** The summary only reads the successful prices, and the as-written and
      the corrected predictor succeed on the same dates with the same prices:
      the count, total, average and projection are those _generar_predicciones_multiples computes. */
  lemma SameSuccesses(st: State, num: Numerics, dates: seq<string>, results: seq<Prediction>)
    requires StateValid(st) && |results| == |dates|
    requires forall k :: 0 <= k < |dates| ==> results[k] == Predict(st, num, dates[k])
    ensures Successes(results) == Successes(PredictAllAsWritten(st, num, dates))
  {
    var ws := PredictAllAsWritten(st, num, dates);
    forall k | 0 <= k < |dates|
      ensures results[k].Predicted? <==> ws[k].Predicted?
      ensures results[k].Predicted? ==> results[k].price == ws[k].price
    {
      SamePrices(st, num, dates[k]);
    }
    SuccessesOfSamePrices(results, ws);
  }

  /** The projected change between the first and the last successful price,
      with its label, in float64. */
  function ProjectChange(ps: seq<real>): (p: Projection)
    ensures p == TooFew <==> |ps| < 2
    ensures p.Change? && ps[0] != 0.0 ==> p.percent == Fin((ps[|ps| - 1] - ps[0]) / ps[0] * 100.0)
    ensures p.Change? && ps[0] == 0.0 ==>
              (p.percent == PosInf <==> ps[|ps| - 1] > 0.0) && (p.percent == NegInf <==> ps[|ps| - 1] < 0.0) &&
              (p.percent == NaN <==> ps[|ps| - 1] == 0.0)
    ensures p.Change? ==> p.trend == Classify(p.percent)
    ensures p.Change? && ps[0] == 0.0 && ps[|ps| - 1] > 0.0 ==> p.trend == Rising
  {
    if |ps| < 2 then TooFew
    else
      var pct := Percent(Some(ps[|ps| - 1] - ps[0]), Some(ps[0]));
      Change(pct, Classify(pct))
  }

  /** Adding a value at the end adds it to the sum. */
  lemma {:induction false} SumAppend(xs: seq<real>, x: real)
    ensures Sum(xs + [x]) == Sum(xs) + x
    decreases |xs|
  {
    if xs != [] {
      assert (xs + [x])[1..] == xs[1..] + [x];
      SumAppend(xs[1..], x);
    }
  }

  /** The loop over the results: count and sum the successful predictions,
      keeping their prices for the projected change. */
  method Tally(results: seq<Prediction>) returns (count: nat, total: real, prices: seq<real>)
    ensures prices == Successes(results)
    ensures count == |prices| && total == Sum(prices)
  {
    count, total, prices := 0, 0.0, [];
    for i := 0 to |results|
      invariant prices == Successes(results[..i])
      invariant count == |prices| && total == Sum(prices)
    {
      assert results[..i + 1][..i] == results[..i];
      if results[i].Predicted? {
        SumAppend(prices, results[i].price);
        total := total + results[i].price;
        count := count + 1;
        prices := prices + [results[i].price];
      }
    }
    assert results[..|results|] == results;
  }

  /** _generar_predicciones_multiples: the month count is checked first, then
      the dates 30, 60, ... days after the start are generated, predicted one
      by one, and only the successful predictions enter the summary. */
  method BatchForecast(p: AvocadoPredictor, num: Numerics, start: string, months: int)
    returns (r: Result<Summary, BatchError>)
    requires p.Valid()
    ensures !(1 <= months <= 24) ==> r == Err(MonthsOutOfRange)
    ensures 1 <= months <= 24 && DateText.Parse(start).Err? ==>
              r == Err(BadStart(DateText.Parse(start).error))
    ensures 1 <= months <= 24 && DateText.Parse(start).Ok? ==>
              (r == Err(DateOverflow) <==> FutureDate(DateText.Parse(start).value, months - 1).None?) &&
              (r.Ok? <==> FutureDate(DateText.Parse(start).value, months - 1).Some?)
    ensures r.Ok? ==>
              var s := r.value;
              var good := Successes(s.results);
              1 <= months <= 24 && DateText.Parse(start).Ok? &&
              |s.dates| == months && IsSchedule(DateText.Parse(start).value, s.dates) &&
              |s.results| == months &&
              (forall k :: 0 <= k < months ==> s.results[k] == Predict(p.Snapshot(), num, s.dates[k])) &&
              s.count == |good| && s.total == Sum(good) &&
              (s.average.Some? <==> good != []) &&
              (s.average.Some? ==> s.average.value == Average(good)) &&
              s.projection == ProjectChange(good)
  {
    if months <= 0 || months > 24 {
      return Err(MonthsOutOfRange);
    }
    var dates := FutureDates(start, months);
    if dates.Err? {
      if dates.error.BadFormat? {
        return Err(BadStart(dates.error.cause));
      }
      return Err(DateOverflow);
    }
    var results := p.PredictMany(num, dates.value);
    var count, total, prices := Tally(results);
    var average := if count > 0 then Some(total / count as real) else None;
    return Ok(Summary(dates.value, results, count, total, average, ProjectChange(prices)));
  }
}
