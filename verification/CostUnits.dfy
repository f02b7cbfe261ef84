/** Untrusted usage: finite, non-negative, and summed without overflow past the finite limit. */
module CostUnits {
  import opened Common

  /** A number, or not one. */
  datatype Cost = Units(n: real) | NotFinite

  predicate ValidCost(c: Cost) { c.Units? && c.n >= 0.0 }

  function AddCost(limit: real, total: real, c: Cost): Option<real> {
    if ValidCost(c) && total + c.n <= limit then Some(total + c.n) else None
  }
}
