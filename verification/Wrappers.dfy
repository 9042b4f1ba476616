/** The optional value shared by the models. */
module Wrappers {
  datatype Option<+T> = None | Some(value: T)

  ghost function AnyOf<T>(s: set<T>): (x: T)
    requires |s| > 0
    ensures x in s
  {
    var x :| x in s; x
  }
}
