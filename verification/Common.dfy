/** Shared by all the models. */
module Common {
  datatype Option<+T> = None | Some(value: T)

  function Max(a: int, b: int): (r: int) {
    if a > b then a else b
  }

  /** Some member of a set. */
  method Pick<T(==)>(s: set<T>) returns (x: T)
    requires s != {}
    ensures x in s
  {
    x :| x in s;
  }
}
