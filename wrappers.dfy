/** The optional value of JavaScript: `null` / `undefined` become `None`. */
module Wrappers {

  datatype Option<+T> = None | Some(value: T) {

    /** `value || fallback` for a value whose every present form is truthy */
    function GetOr(fallback: T): T {
      match this
      case Some(v) => v
      case None => fallback
    }
  }
}
