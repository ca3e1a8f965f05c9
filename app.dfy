/**
  The prediction request of `main`: preprocess the answers, take the class-1 probability,
  band it, and build the waterfall from the positive class's SHAP values and baseline.
 */
module App {
  import opened Outcome
  import opened Preprocess
  import opened Risk
  import opened Waterfall

  /** A SHAP value matrix: one row per input row, one column per feature. */
  type Matrix = seq<seq<real>>

  /** What `explainer.shap_values(X)` returns: a list with one matrix per class, or a single matrix. */
  datatype ShapValues = PerClass(classes: seq<Matrix>) | SingleOutput(matrix: Matrix)

  /** What `explainer.expected_value` holds: a scalar, or a list or array with one entry per class. */
  datatype ExpectedValue = ScalarBase(value: real) | VectorBase(values: seq<real>)

  /**
    What ends the explanation at the warning: the explainer raised, or an IndexError of the
    selection (`shap_values[1]`, `base_value[0]` or `shap_values[0]` does not exist).
   */
  datatype SelectError = ExplainerFailed | NoPositiveClass | NoBaseline | NoShapRow

  /** The positive class's SHAP matrix: index 1 of a per-class list, or the single matrix as it is. */
  function PositiveShap(sv: ShapValues): (r: Result<Matrix, SelectError>)
    ensures sv.PerClass? ==> (r.Ok? <==> |sv.classes| > 1)
    ensures sv.PerClass? && r.Ok? ==> r.value == sv.classes[1]
    ensures sv.SingleOutput? ==> r == Ok(sv.matrix)
  {
    match sv
    case PerClass(classes) => if |classes| > 1 then Ok(classes[1]) else Err(NoPositiveClass)
    case SingleOutput(m) => Ok(m)
  }

  /** The baseline: a scalar as it is; of a vector, index 1 when it has more than one entry, else index 0. */
  function PositiveBaseline(ev: ExpectedValue): (r: Result<real, SelectError>)
    ensures ev.ScalarBase? ==> r == Ok(ev.value)
    ensures ev.VectorBase? ==> (r.Ok? <==> |ev.values| > 0)
    ensures ev.VectorBase? && r.Ok? ==> r.value == ev.values[if |ev.values| > 1 then 1 else 0]
  {
    match ev
    case ScalarBase(v) => Ok(v)
    case VectorBase(vs) =>
      if |vs| > 1 then Ok(vs[1])
      else if |vs| == 1 then Ok(vs[0])
      else Err(NoBaseline)
  }

  /** The class whose contributions are taken: 1 of a per-class list; a single matrix carries no class index. */
  function ShapClass(sv: ShapValues): (r: Option<nat>)
    ensures r.Some? ==> sv.PerClass? && r.value < |sv.classes| && PositiveShap(sv) == Ok(sv.classes[r.value])
    ensures r.None? ==> sv.SingleOutput? || PositiveShap(sv).Err?
  {
    if sv.PerClass? && |sv.classes| > 1 then Some(1) else None
  }

  /** The class whose baseline is taken: 1 or 0 of a vector; a scalar carries no class index. */
  function BaselineClass(ev: ExpectedValue): (r: Option<nat>)
    ensures r.Some? ==> ev.VectorBase? && r.value < |ev.values| && PositiveBaseline(ev) == Ok(ev.values[r.value])
    ensures r.None? ==> ev.ScalarBase? || PositiveBaseline(ev).Err?
  {
    if ev.VectorBase? && |ev.values| > 1 then Some(1)
    else if ev.VectorBase? && |ev.values| == 1 then Some(0)
    else None
  }

  /**
    With per-class contributions, the baseline comes from the same class exactly when the
    baseline vector has more than one entry; a one-entry vector gives class 0's baseline.
   */
  lemma ClassesAgreeIff(classes: seq<Matrix>, bases: seq<real>)
    requires |classes| > 1
    ensures ShapClass(PerClass(classes)) == BaselineClass(VectorBase(bases)) <==> |bases| > 1
  {
  }

  /** Two per-class matrices with a one-entry baseline: class 1's contributions beside class 0's baseline. */
  lemma PerClassWithSingleBaseline(m0: Matrix, m1: Matrix, b0: real)
    ensures PositiveShap(PerClass([m0, m1])) == Ok(m1)
    ensures PositiveBaseline(VectorBase([b0])) == Ok(b0)
    ensures ShapClass(PerClass([m0, m1])) == Some(1) && BaselineClass(VectorBase([b0])) == Some(0)
  {
  }

  /** A single matrix with a two-entry baseline: the matrix as it is beside class 1's baseline. */
  lemma SingleOutputWithVectorBaseline(m: Matrix, b0: real, b1: real)
    ensures PositiveShap(SingleOutput(m)) == Ok(m)
    ensures PositiveBaseline(VectorBase([b0, b1])) == Ok(b1)
    ensures ShapClass(SingleOutput(m)) == None && BaselineClass(VectorBase([b0, b1])) == Some(1)
  {
  }

  /** The one row of a frame as a vector, in column order (`X.values[0]`). */
  function RowValues(x: Frame): (r: seq<real>)
    ensures |r| == |x| && forall i :: 0 <= i < |x| ==> r[i] == x[i].value
  {
    seq(|x|, i requires 0 <= i < |x| => x[i].value)
  }

  /** The explanation part of the response. */
  datatype Explanation =
    | Explained(order: seq<nat>, chart: Chart)   // the waterfall was built
    | PlotFailed(plotError: PlotError)           // `generate_shap_plot` caught an error and returned None
    | SelectionFailed(selectError: SelectError)  // the warning "Feature impact analysis generation failed"

  /** The response; the two failures end at the "Prediction failed" handler. */
  datatype Response =
    | Failed(error: PreprocessError)               // `preprocess_input` raised
    | ClassifierFailed                             // `predict_proba` raised
    | Predicted(probability: real, score: real, band: RiskBand, explanation: Explanation)

  /** The explanation of one preprocessed row `x`, as `main` derives it from the explainer's output. */
  predicate Explains(x: seq<real>, selected: seq<FeatureId>, sv: ShapValues, ev: ExpectedValue, e: Explanation)
  {
    && (e.SelectionFailed? <==> PositiveShap(sv).Err? || PositiveBaseline(ev).Err? || |PositiveShap(sv).value| == 0)
    && (e.Explained? ==>
          && PositiveShap(sv).Ok? && PositiveBaseline(ev).Ok? && |PositiveShap(sv).value| > 0
          && var row := PositiveShap(sv).value[0];
          && |e.order| == |row|
          && IsPermutation(e.order, |row|)
          && InRange(e.order, |row|)
          && DescendingMagnitude(row, e.order)
          && IsChart(row, x, PositiveBaseline(ev).value, selected, e.order, e.chart))
    && (e.PlotFailed? <==>
          && PositiveShap(sv).Ok? && PositiveBaseline(ev).Ok? && |PositiveShap(sv).value| > 0
          && var row := PositiveShap(sv).value[0];
          |row| > |selected| || |row| > |x|)
  }

  /**
    The `try` block around the explanation: select the positive class's contributions and
    baseline, take the first row, and build the waterfall from it and the same preprocessed row.
   */
  method Explain(x: seq<real>, selected: seq<FeatureId>, sv: ShapValues, ev: ExpectedValue)
    returns (e: Explanation)
    ensures Explains(x, selected, sv, ev, e)
  {
    var shap := PositiveShap(sv);
    var base := PositiveBaseline(ev);
    if shap.Err? {
      e := SelectionFailed(shap.error);
    } else if base.Err? {
      e := SelectionFailed(base.error);
    } else if |shap.value| == 0 {
      e := SelectionFailed(NoShapRow);
    } else {
      var order, chart := BuildChart(shap.value[0], x, base.value, selected);
      e := if chart.Ok? then Explained(order, chart.value) else PlotFailed(chart.error);
    }
  }

  /**
    One submitted form. The classifier (`predict_proba(X)[0, 1]`) and the explainer's
    `shap_values` are parameters that return `None` where the library call raises; the
    explainer's `expected_value` is a parameter. The probability, its band and the
    explanation are all computed from the same preprocessed row.
   */
  method HandleSubmission(inputData: Record, info: FeaturesInfo, encoder: Transformer, scaler: Transformer,
                          predictProba: seq<real> -> Option<real>, shapValuesOf: seq<real> -> Option<ShapValues>,
                          expectedValue: ExpectedValue)
    returns (resp: Response)
    ensures PreprocessInput(inputData, info, encoder, scaler).Err? ==>
      resp == Failed(PreprocessInput(inputData, info, encoder, scaler).error)
    ensures PreprocessInput(inputData, info, encoder, scaler).Ok? ==>
      var x := RowValues(PreprocessInput(inputData, info, encoder, scaler).value);
      && (predictProba(x).None? <==> resp == ClassifierFailed)
      && (predictProba(x).Some? ==>
            && resp.Predicted?
            && resp.probability == predictProba(x).value
            && resp.score == RiskScore(resp.probability)
            && resp.band == Band(resp.score)
            && (shapValuesOf(x).None? ==> resp.explanation == SelectionFailed(ExplainerFailed))
            && (shapValuesOf(x).Some? ==>
                  Explains(x, info.selected, shapValuesOf(x).value, expectedValue, resp.explanation)))
  {
    var pre := PreprocessInput(inputData, info, encoder, scaler);
    if pre.Err? {
      return Failed(pre.error);
    }
    var x := RowValues(pre.value);
    var prediction := predictProba(x);
    if prediction.None? {
      return ClassifierFailed;
    }
    var probability := prediction.value;
    var score := RiskScore(probability);
    var band := Band(score);
    var explanation: Explanation;
    var sv := shapValuesOf(x);
    if sv.None? {
      explanation := SelectionFailed(ExplainerFailed);
    } else {
      explanation := Explain(x, info.selected, sv.value, expectedValue);
    }
    resp := Predicted(probability, score, band, explanation);
  }
}
