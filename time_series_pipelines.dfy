/** The time series parts of pipeline construction: the component list of the
    not-known-in-advance branch (with its known-in-advance adjustment) and the
    baseline pipeline for time series problems. */
module TimeSeriesPipelines {
  import opened Wrappers
  import opened Values
  import opened ProblemTypes
  import opened Seqs
  import opened Preprocessing

  /* ---------------- Known-in-advance adjustment ---------------- */

  /** With known-in-advance features the selected components are preceded by
      a column selector, and NaN rows are no longer dropped in this branch
      unless an oversampler is present. */
  function KnownInAdvanceAdjusted(preprocessing: seq<Component>): seq<Component>
  {
    var withSelect := [SelectColumns] + preprocessing;
    if Oversampler !in withSelect && DropNaNRowsTransformer in withSelect
    then RemoveFirst(withSelect, DropNaNRowsTransformer)
    else withSelect
  }

  /** The component list of the main sub-pipeline: the adjusted list when
      there are known-in-advance features (the estimator then joins in the
      merged graph), otherwise the optional DFS transformer, the selected
      components and the estimator. */
  function TimeSeriesComponentList(preprocessing: seq<Component>, knownInAdvance: bool,
                                   features: bool, estimator: Estimator): (r: seq<Component>)
    ensures !knownInAdvance ==> |r| > 0 && r[|r| - 1] == EstimatorStep(estimator)
    ensures knownInAdvance ==> |r| > 0 && r[0] == SelectColumns
  {
    if knownInAdvance then KnownInAdvanceAdjusted(preprocessing)
    else OneIf(features, DFSTransformer) + preprocessing + [EstimatorStep(estimator)]
  }

  /** The adjustment as the source performs it: build the list, test it for
      the oversampler and the NaN-row dropper, and remove the first dropper in
      place. */
  method AdjustForKnownInAdvance(preprocessing: seq<Component>) returns (r: seq<Component>)
    ensures r == KnownInAdvanceAdjusted(preprocessing)
  {
    r := [SelectColumns] + preprocessing;
    var hasOversampler := false;
    var dropAt: Option<nat> := None;
    var i := 0;
    while i < |r|
      invariant 0 <= i <= |r|
      invariant hasOversampler <==> Oversampler in r[..i]
      invariant dropAt.None? <==> DropNaNRowsTransformer !in r[..i]
      invariant dropAt.Some? ==> dropAt.value < i && r[dropAt.value] == DropNaNRowsTransformer
                                 && forall k :: 0 <= k < dropAt.value ==> r[k] != DropNaNRowsTransformer
    {
      assert r[..i + 1] == r[..i] + [r[i]];
      if r[i] == Oversampler {
        hasOversampler := true;
      }
      if r[i] == DropNaNRowsTransformer && dropAt.None? {
        dropAt := Some(i);
      }
      i := i + 1;
    }
    assert r[..i] == r;
    if !hasOversampler && dropAt.Some? {
      RemoveFirstAt(r, DropNaNRowsTransformer, dropAt.value);
      r := r[..dropAt.value] + r[dropAt.value + 1..];
    }
  }

  /** The adjusted list starts with the column selector, keeps the order of
      the selected components, and differs from them only by the selector and
      possibly one NaN-row dropper. */
  lemma KnownInAdvanceAdjustedShape(preprocessing: seq<Component>)
    ensures var r := KnownInAdvanceAdjusted(preprocessing);
            && |r| > 0 && r[0] == SelectColumns
            && IsSubsequence(r, [SelectColumns] + preprocessing)
            && multiset(r) == multiset([SelectColumns] + preprocessing)
                 - (if Oversampler !in preprocessing && DropNaNRowsTransformer in preprocessing
                    then multiset{DropNaNRowsTransformer} else multiset{})
  {
    var s := [SelectColumns] + preprocessing;
    assert Oversampler in s <==> Oversampler in preprocessing;
    assert DropNaNRowsTransformer in s <==> DropNaNRowsTransformer in preprocessing;
    if Oversampler !in s && DropNaNRowsTransformer in s {
      var j := FirstIndex(s, DropNaNRowsTransformer);
      RemoveFirstAt(s, DropNaNRowsTransformer, j);
      CutIsSubsequence(s, j);
      RemoveFirstMultiset(s, DropNaNRowsTransformer);
      assert j > 0;
    } else {
      SubsequenceReflexive(s);
    }
  }

  /** On a duplicate-free selection (as the selector always returns), the
      NaN-row dropper survives the adjustment exactly when the oversampler is
      also selected, and every other component survives. */
  lemma KnownInAdvanceKeepsDropNaNOnlyWithOversampler(preprocessing: seq<Component>)
    requires Distinct(preprocessing)
    ensures var r := KnownInAdvanceAdjusted(preprocessing);
            && (DropNaNRowsTransformer in r <==>
                  DropNaNRowsTransformer in preprocessing && Oversampler in preprocessing)
            && forall c :: c != DropNaNRowsTransformer ==> (c in r <==> c == SelectColumns || c in preprocessing)
  {
    KnownInAdvanceAdjustedShape(preprocessing);
    var r := KnownInAdvanceAdjusted(preprocessing);
    var s := [SelectColumns] + preprocessing;
    assert multiset(s) == multiset{SelectColumns} + multiset(preprocessing);
    if Oversampler !in preprocessing && DropNaNRowsTransformer in preprocessing {
      DistinctCount(preprocessing, DropNaNRowsTransformer);
      assert multiset(r)[DropNaNRowsTransformer] == 0;
    }
    forall c | c != DropNaNRowsTransformer
      ensures c in r <==> c == SelectColumns || c in preprocessing
    {
      assert multiset(r)[c] == multiset(s)[c];
    }
  }

  /** For the selector's own output, the adjustment never drops anything the
      selector chose except possibly the NaN-row dropper. */
  lemma KnownInAdvanceOverSelection(inp: SelectInputs, exclude: seq<string>, includeDecomposer: bool)
    requires PreprocessingComponents(inp, exclude, includeDecomposer).Success?
    ensures var pc := PreprocessingComponents(inp, exclude, includeDecomposer).value;
            var r := KnownInAdvanceAdjusted(pc);
            && r[0] == SelectColumns
            && (DropNaNRowsTransformer in r <==> DropNaNRowsTransformer in pc && Oversampler in pc)
  {
    SelectionOrderedAndDistinct(inp, exclude, includeDecomposer);
    KnownInAdvanceAdjustedShape(PreprocessingComponents(inp, exclude, includeDecomposer).value);
    KnownInAdvanceKeepsDropNaNOnlyWithOversampler(PreprocessingComponents(inp, exclude, includeDecomposer).value);
  }

  /* ---------------- Baseline pipeline ---------------- */

  datatype BaselinePipeline = BaselinePipeline(
    name: string,
    componentGraph: seq<string>,
    parameters: ParamsDict)

  const FEATURIZER_NAME: string := "Time Series Featurizer"

  function BaselinePipelineName(pt: ProblemType): Option<string>
  {
    match pt
    case TimeSeriesRegression => Some("Time Series Baseline Regression Pipeline")
    case TimeSeriesMulticlass => Some("Time Series Baseline Multiclass Pipeline")
    case TimeSeriesBinary => Some("Time Series Baseline Binary Pipeline")
    case MultiseriesTimeSeriesRegression => Some("Multiseries Time Series Baseline Pipeline")
    case _ => None
  }

  function BaselineEstimatorName(pt: ProblemType): string
  {
    if IsMultiseries(pt) then "Multiseries Time Series Baseline Regressor"
    else "Time Series Baseline Estimator"
  }

  function OptionalString(s: Option<string>): Value
  {
    match s
    case None => VNone
    case Some(v) => VStr(v)
  }

  /** The "pipeline" entry: time index, gap, no delay, forecast horizon and,
      for multiseries problems, the series id. */
  function PipelineEntry(pt: ProblemType, gap: int, forecastHorizon: int, timeIndex: string,
                         seriesId: Option<string>): (p: Params)
    ensures p.Keys == {"time_index", "gap", "max_delay", "forecast_horizon"}
                      + (if IsMultiseries(pt) then {"series_id"} else {})
    ensures p["gap"] == VInt(gap) && p["forecast_horizon"] == VInt(forecastHorizon)
    ensures p["max_delay"] == VInt(0) && p["time_index"] == VStr(timeIndex)
    ensures IsMultiseries(pt) ==> p["series_id"] == OptionalString(seriesId)
  {
    var common := map["time_index" := VStr(timeIndex), "gap" := VInt(gap),
                      "max_delay" := VInt(0), "forecast_horizon" := VInt(forecastHorizon)];
    if IsMultiseries(pt) then common["series_id" := OptionalString(seriesId)] else common
  }

  function EstimatorEntry(gap: int, forecastHorizon: int): (p: Params)
    ensures p.Keys == {"gap", "forecast_horizon"}
    ensures p["gap"] == VInt(gap) && p["forecast_horizon"] == VInt(forecastHorizon)
  {
    map["gap" := VInt(gap), "forecast_horizon" := VInt(forecastHorizon)]
  }

  /** The featurizer entry: no delay, the gap and horizon, the target delayed
      and the features not. */
  function FeaturizerEntry(gap: int, forecastHorizon: int, timeIndex: string): (p: Params)
    ensures p.Keys == {"max_delay", "gap", "forecast_horizon", "delay_target", "delay_features", "time_index"}
    ensures p["gap"] == VInt(gap) && p["forecast_horizon"] == VInt(forecastHorizon)
    ensures p["max_delay"] == VInt(0) && p["time_index"] == VStr(timeIndex)
    ensures p["delay_target"] == VBool(true) && p["delay_features"] == VBool(false)
  {
    map["max_delay" := VInt(0), "gap" := VInt(gap), "forecast_horizon" := VInt(forecastHorizon),
        "delay_target" := VBool(true), "delay_features" := VBool(false), "time_index" := VStr(timeIndex)]
  }

  /** The parameter dictionary of a baseline pipeline: the pipeline entry,
      the estimator's entry and, unless excluded, the featurizer's entry. */
  function BaselineParams(pt: ProblemType, gap: int, forecastHorizon: int, timeIndex: string,
                          excludeFeaturizer: bool, seriesId: Option<string>): (p: ParamsDict)
    ensures forall k :: k in p <==> k == "pipeline" || k == BaselineEstimatorName(pt)
                                    || (!excludeFeaturizer && k == FEATURIZER_NAME)
  {
    var params := map["pipeline" := PipelineEntry(pt, gap, forecastHorizon, timeIndex, seriesId),
                      BaselineEstimatorName(pt) := EstimatorEntry(gap, forecastHorizon)];
    if excludeFeaturizer then params
    else params[FEATURIZER_NAME := FeaturizerEntry(gap, forecastHorizon, timeIndex)]
  }

  /** `make_timeseries_baseline_pipeline`: a lookup of the pipeline class and
      name (a KeyError for non time series problem types), the baseline
      estimator, optionally preceded by the time series featurizer, and the
      parameter dictionary. Only the four time series problem types have a
      baseline; its graph ends with the estimator, preceded by the featurizer
      unless that is excluded, and every graph node has a parameter entry. */
  function TimeSeriesBaselinePipeline(pt: ProblemType, gap: int, forecastHorizon: int, timeIndex: string,
                                      excludeFeaturizer: bool, seriesId: Option<string>)
    : (r: Result<BaselinePipeline, string>)
    ensures r.Failure? <==> !IsTimeSeries(pt)
    ensures r.Success? ==>
              var g := r.value.componentGraph;
              && |g| >= 1 && g[|g| - 1] == BaselineEstimatorName(pt)
              && (|g| == 2 <==> !excludeFeaturizer)
              && (|g| == 2 ==> g[0] == FEATURIZER_NAME)
              && forall k :: k in r.value.parameters <==> k == "pipeline" || k in g
  {
    match BaselinePipelineName(pt)
    case None => Failure("KeyError")
    case Some(name) =>
      var est := BaselineEstimatorName(pt);
      var g := if excludeFeaturizer then [est] else [FEATURIZER_NAME, est];
      var params := BaselineParams(pt, gap, forecastHorizon, timeIndex, excludeFeaturizer, seriesId);
      Success(BaselinePipeline(name, g, params))
  }

  /** The three parameter keys of a baseline pipeline differ. */
  lemma BaselineKeysDistinct(pt: ProblemType)
    ensures "pipeline" != BaselineEstimatorName(pt) && "pipeline" != FEATURIZER_NAME
            && FEATURIZER_NAME != BaselineEstimatorName(pt)
  {
    assert |"pipeline"| == 8 && |FEATURIZER_NAME| == 22 && |BaselineEstimatorName(pt)| >= 30;
  }

  /** The pipeline entry and the estimator entry hold the pipeline's and the
      estimator's parameters; the featurizer's entry, when present, the
      featurizer's. */
  lemma BaselineParameters(pt: ProblemType, gap: int, forecastHorizon: int, timeIndex: string,
                           excludeFeaturizer: bool, seriesId: Option<string>)
    requires IsTimeSeries(pt)
    ensures var p := TimeSeriesBaselinePipeline(pt, gap, forecastHorizon, timeIndex, excludeFeaturizer, seriesId).value.parameters;
            && "pipeline" in p && p["pipeline"] == PipelineEntry(pt, gap, forecastHorizon, timeIndex, seriesId)
            && BaselineEstimatorName(pt) in p && p[BaselineEstimatorName(pt)] == EstimatorEntry(gap, forecastHorizon)
            && (!excludeFeaturizer ==> FEATURIZER_NAME in p && p[FEATURIZER_NAME] == FeaturizerEntry(gap, forecastHorizon, timeIndex))
  {
    assert TimeSeriesBaselinePipeline(pt, gap, forecastHorizon, timeIndex, excludeFeaturizer, seriesId).value.parameters
           == BaselineParams(pt, gap, forecastHorizon, timeIndex, excludeFeaturizer, seriesId);
    BaselineParamsEntries(pt, gap, forecastHorizon, timeIndex, excludeFeaturizer, seriesId);
  }

  /** The entries of the parameter dictionary, key by key; no other key. */
  lemma BaselineParamsEntries(pt: ProblemType, gap: int, forecastHorizon: int, timeIndex: string,
                              excludeFeaturizer: bool, seriesId: Option<string>)
    ensures var p := BaselineParams(pt, gap, forecastHorizon, timeIndex, excludeFeaturizer, seriesId);
            && "pipeline" in p && p["pipeline"] == PipelineEntry(pt, gap, forecastHorizon, timeIndex, seriesId)
            && BaselineEstimatorName(pt) in p && p[BaselineEstimatorName(pt)] == EstimatorEntry(gap, forecastHorizon)
            && (!excludeFeaturizer ==> FEATURIZER_NAME in p && p[FEATURIZER_NAME] == FeaturizerEntry(gap, forecastHorizon, timeIndex))
            && (forall k :: k in p ==> k == "pipeline" || k == BaselineEstimatorName(pt)
                                       || (!excludeFeaturizer && k == FEATURIZER_NAME))
  {
    BaselineKeysDistinct(pt);
  }

  /** Every parameter entry agrees on the gap and the forecast horizon, and
      the featurizer has an entry exactly when it is not excluded. */
  lemma BaselineParametersConsistent(pt: ProblemType, gap: int, forecastHorizon: int, timeIndex: string,
                                     excludeFeaturizer: bool, seriesId: Option<string>)
    requires IsTimeSeries(pt)
    ensures var p := TimeSeriesBaselinePipeline(pt, gap, forecastHorizon, timeIndex, excludeFeaturizer, seriesId).value.parameters;
            && (forall k :: k in p ==> "gap" in p[k] && p[k]["gap"] == VInt(gap)
                                       && "forecast_horizon" in p[k] && p[k]["forecast_horizon"] == VInt(forecastHorizon))
            && (FEATURIZER_NAME in p <==> !excludeFeaturizer)
  {
    var p := BaselineParams(pt, gap, forecastHorizon, timeIndex, excludeFeaturizer, seriesId);
    assert TimeSeriesBaselinePipeline(pt, gap, forecastHorizon, timeIndex, excludeFeaturizer, seriesId).value.parameters == p;
    BaselineParamsEntries(pt, gap, forecastHorizon, timeIndex, excludeFeaturizer, seriesId);
    forall k | k in p
      ensures "gap" in p[k] && p[k]["gap"] == VInt(gap)
              && "forecast_horizon" in p[k] && p[k]["forecast_horizon"] == VInt(forecastHorizon)
    {
      if k == "pipeline" {
        assert p[k] == PipelineEntry(pt, gap, forecastHorizon, timeIndex, seriesId);
      } else if k == BaselineEstimatorName(pt) {
        assert p[k] == EstimatorEntry(gap, forecastHorizon);
      } else {
        assert p[k] == FeaturizerEntry(gap, forecastHorizon, timeIndex);
      }
    }
  }
}
