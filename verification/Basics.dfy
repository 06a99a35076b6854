/** The few types and functions that every component may use. */
module Basics {

  datatype Option<T> = None | Some(value: T)

  function Min(a: nat, b: nat): nat {
    if a < b then a else b
  }
}
