/** Small vocabulary shared by the modules. */
module Common {

  datatype Option<+T> = None | Some(value: T) {
    /** Python's `x or default` on an optional column, SQL's COALESCE. */
    function Or(default: T): T {
      if Some? then value else default
    }
  }

  function Max(a: int, b: int): int {
    if a < b then b else a
  }
}
