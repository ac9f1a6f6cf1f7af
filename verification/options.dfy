/** The optional value used throughout in place of null pointers and failed calls. */
module Options {
  datatype Option<+T> = None | Some(value: T)

  /** Any element of a set, as the iteration over a hash map yields them. */
  method PickOne<T>(s: set<T>) returns (x: T)
    requires s != {}
    ensures x in s
  {
    x :| x in s;
  }
}
