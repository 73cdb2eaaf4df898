module Sets {
  /** Some element of a set, as a range over a Go map yields its keys: in no particular order. */
  method Pick<T>(s: set<T>) returns (x: T)
    requires s != {}
    ensures x in s
  {
    x :| x in s;
  }
}
