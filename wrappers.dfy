/** Optional values: `None` stands for JavaScript's `null` or `undefined`. */
module Wrappers {

  datatype Option<+T> = None | Some(value: T)

  /**
   * JavaScript truthiness of an optional number: defined and not zero
   * (NaN is not modelled).
   */
  function Truthy(x: Option<real>): (b: bool)
    ensures b <==> x != None && x != Some(0.0)
  {
    x.Some? && x.value != 0.0
  }

}
