/** Ranging over a set, as the source ranges over a map: some element of what is left. */
module Sets {
  lemma SomeMember<T>(s: set<T>) returns (x: T)
    requires s != {}
    ensures x in s
  {
    x :| x in s;
  }
}
