/** What every other module shares: the option type, and an element of a non-empty set. */
module Wrappers {
  datatype Option<+T> = None | Some(value: T)

  lemma Pick<T>(s: set<T>) returns (x: T)
    requires |s| != 0
    ensures x in s
  {
    x :| x in s;
  }
}
