/** Request filters as the REST layer hands them over. */
module Filters {
  import opened Wrappers

  datatype Modifier = Eq | Other

  datatype Filter = Filter(name: string, modifier: Modifier, values: seq<string>)

  /** The value of an equality filter with exactly one value. */
  function EqValue(filter: Filter): Option<string> {
    if filter.modifier.Eq? && |filter.values| == 1 then Some(filter.values[0]) else None
  }

  /** No value, several values or another modifier give none. */
  lemma {:induction false} EqValueIff(filter: Filter, v: string)
    ensures EqValue(filter) == Some(v) <==> filter.modifier == Eq && filter.values == [v]
    ensures EqValue(filter).None? <==> filter.modifier != Eq || |filter.values| != 1
  {
  }
}
