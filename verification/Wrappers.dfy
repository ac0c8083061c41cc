module Wrappers {

  datatype Option<+T> = None | Some(value: T)

  /** Some element of the set, always the same one. */
  ghost function Pick<T>(s: set<T>): (x: T)
    requires s != {}
    ensures x in s
  {
    var x :| x in s;
    x
  }

  /** Any element of the set, as an iteration takes the next one. */
  method Choose<T(==)>(s: set<T>) returns (c: T)
    requires s != {}
    ensures c in s
  {
    ghost var x := Pick(s);
    assert x in s;
    c :| c in s;
  }

  lemma SubsetSize<X>(a: set<X>, b: set<X>)
    requires a <= b
    ensures |a| <= |b|
  {
    assert b == a + (b - a);
  }
}
