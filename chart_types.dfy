/**
 * The data shapes exchanged between the chart layer and the regression:
 * a chart datum, the x display domain and the regression result.
 * Only the fields the regression reads or writes are kept.
 */
module ChartTypes {

  /** A nullable value (`T | null`, or an optional field `T?`). */
  datatype Option<+T> = None | Some(value: T) {

    /** `this ?? fallback`: the value when present, the fallback otherwise. */
    function GetOr(fallback: T): T {
      match this
      case Some(v) => v
      case None => fallback
    }
  }

  /**
   * A JavaScript number as far as `Number.isFinite` can tell: either a
   * finite value (here an exact real) or one of the non-finite values.
   */
  datatype Number = Finite(value: real) | NaN | Infinity | NegativeInfinity

  predicate IsFinite(n: Number) {
    n.Finite?
  }

  /**
   * One observation of the scatter chart: its position and, optionally,
   * the employment count used as the regression weight.
   */
  datatype ChartDatum = ChartDatum(x: Number, y: Number, employment: Option<real>)

  /** The x display domain `[start, end]`, each bound nullable. */
  type Domain = (Option<real>, Option<real>)

  datatype RegressionPoint = RegressionPoint(x: real, y: real)

  /**
   * The fitted line: exactly two endpoints (start first, end second), and
   * slope, intercept and coefficient of determination of the fit in
   * log10 space.
   */
  datatype RegressionResult = RegressionResult(
    points: (RegressionPoint, RegressionPoint),
    slope: real,
    intercept: real,
    rSquared: real
  )
}
