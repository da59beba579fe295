/** The two helpers the "between" family of rules shares: the argument check
    that rejects a rule given neither bound, and the row filter that keeps the
    values outside an inclusive range with open missing ends. Neither helper's
    file is part of this model; both are fixed by the rules' documentation. */
module MinMax {
  import opened Common

  /** An inclusive range; a missing end is unconstrained. */
  datatype Bounds = Bounds(min: Option<int>, max: Option<int>)

  /** A construction-time error of a rule. */
  datatype ConfigError = ConfigError(message: string)

  /** `min_max_arg_check`: at least one bound must be given. */
  function MinMaxArgCheck(min: Option<int>, max: Option<int>): (r: Result<Bounds, ConfigError>)
    ensures r.Err? <==> min.None? && max.None?
    ensures r.Ok? ==> r.value.min == min && r.value.max == max
  {
    if min.None? && max.None? then Err(ConfigError("Either min_value or max_value must be provided."))
    else Ok(Bounds(min, max))
  }

  /** The rows `min_max_filter` keeps: below the lower or above the upper bound. */
  predicate Outside(x: int, b: Bounds)
  {
    (b.min.Some? && x < b.min.value) || (b.max.Some? && x > b.max.value)
  }

  /** Both ends of the range are inclusive. */
  lemma InsideIffBetween(x: int, lo: int, hi: int)
    ensures !Outside(x, Bounds(Some(lo), Some(hi))) <==> lo <= x <= hi
  {
  }

  /** A missing bound leaves that side of the range open. */
  lemma OpenEnds(x: int, lo: int, hi: int)
    ensures Outside(x, Bounds(Some(lo), None)) <==> x < lo
    ensures Outside(x, Bounds(None, Some(hi))) <==> x > hi
  {
  }
}
