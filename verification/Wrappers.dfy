/** The usual optional value and maximum. */
module Wrappers {
  datatype Option<+T> = None | Some(value: T)

  function Max(a: int, b: int): (m: int)
    ensures m == a || m == b
    ensures a <= m && b <= m
  {
    if a < b then b else a
  }
}
