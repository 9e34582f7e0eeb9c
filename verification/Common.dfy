/** What several models need and none of them owns. */
module Common {

  datatype Option<T> = None | Some(value: T)

  /** An environment variable that is read as a number. */
  datatype Setting = Unset | NotANumber | Number(value: int)

  lemma Subset<T>(a: set<T>, b: set<T>)
    requires a <= b
    ensures |a| <= |b|
  {
    assert b == a + (b - a);
  }

  lemma SameSize<T>(a: set<T>, b: set<T>)
    requires a <= b && |a| == |b|
    ensures a == b
  {
    assert b == a + (b - a);
  }
}
