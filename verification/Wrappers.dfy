/** The optional value used for nullable columns and for operations that may not return a value. */
module Wrappers {

  datatype Option<+T> = None | Some(value: T) {
    /** SQL's COALESCE(this, default). */
    function Or(default: T): T {
      if Some? then value else default
    }
  }
}
