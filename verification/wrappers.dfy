/** Optional values, standing in for Python's `None`-or-something, and the
    integer `min` and `max` used to state the capped warning counter. */
module Wrappers {

  datatype Option<+T> = None | Some(value: T)

  function Min(a: int, b: int): int { if a <= b then a else b }

  function Max(a: int, b: int): int { if a <= b then b else a }
}
