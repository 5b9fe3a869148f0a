/** The closed set of problem types and the four predicates the pipeline
    utilities branch on (`is_classification`, `is_regression`,
    `is_time_series`, `is_multiseries`). */
module ProblemTypes {

  datatype ProblemType =
    | Binary
    | Multiclass
    | Regression
    | TimeSeriesRegression
    | TimeSeriesBinary
    | TimeSeriesMulticlass
    | MultiseriesTimeSeriesRegression

  predicate IsClassification(pt: ProblemType)
  {
    pt.Binary? || pt.Multiclass? || pt.TimeSeriesBinary? || pt.TimeSeriesMulticlass?
  }

  predicate IsRegression(pt: ProblemType)
  {
    pt.Regression? || pt.TimeSeriesRegression? || pt.MultiseriesTimeSeriesRegression?
  }

  predicate IsTimeSeries(pt: ProblemType)
  {
    pt.TimeSeriesRegression? || pt.TimeSeriesBinary? || pt.TimeSeriesMulticlass?
    || pt.MultiseriesTimeSeriesRegression?
  }

  predicate IsMultiseries(pt: ProblemType)
  {
    pt.MultiseriesTimeSeriesRegression?
  }

  /** The enumeration value, the text a failed lookup keyed by a problem type shows. */
  function Name(pt: ProblemType): string
  {
    match pt
    case Binary => "binary"
    case Multiclass => "multiclass"
    case Regression => "regression"
    case TimeSeriesRegression => "time series regression"
    case TimeSeriesBinary => "time series binary"
    case TimeSeriesMulticlass => "time series multiclass"
    case MultiseriesTimeSeriesRegression => "multiseries time series regression"
  }
}
