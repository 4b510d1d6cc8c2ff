/**
 * The PromQL parser the scraper calls, abstracted to what the scraper looks at.
 * Its internals are not modelled: a `Parser` value bundles the three entry points
 * as arbitrary total functions, so every property proved about the scraper holds
 * for every parser behaviour.
 */
module PromQL {
  import opened Wrappers

  /** A metric's labels as `labels.Labels.Map()` gives them (the metric name under `__name__`). */
  type Labels = map<string, string>

  /**
   * The expression `ParseExpr` builds. A vector selector is kept by its printed form
   * (`VectorSelector.String()`), which is all that `vectorIsEqual` uses. Every expression
   * whose type is not an instant vector is `OtherExpr`.
   */
  datatype Expr = VectorSelector(text: string) | OtherExpr

  /** What `ParseExpr` returns: an expression and whether an error came with it. */
  datatype Parsed = Parsed(expr: Expr, failed: bool)

  datatype Parser = Parser(
    /** `parser.ParseExpr` */
    parseExpr: string -> Parsed,
    /** `parser.ParseMetric(...).Map()`; `None` is a parse error */
    parseMetric: string -> Option<Labels>,
    /** the values of `parser.ParseSeriesDesc`; `None` is a parse error */
    parseSeriesDesc: string -> Option<seq<real>>)
}
