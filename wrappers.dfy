/** The optional-value datatype used wherever the source has `undefined`,
    `null` or a missing property. */
module Wrappers {

  datatype Option<+T> = None | Some(value: T) {

    /** The value, or `default` when there is none (JavaScript's `x || default`
        for values that are never falsy). */
    function GetOr(default: T): T {
      match this
      case Some(v) => v
      case None => default
    }
  }

  /** JavaScript truthiness of an optional number: present and not zero. */
  predicate TruthyNumber(x: Option<real>) {
    x.Some? && x.value != 0.0
  }

  /** JavaScript truthiness of an optional string: present and not empty. */
  predicate TruthyString(x: Option<string>) {
    x.Some? && x.value != []
  }
}
