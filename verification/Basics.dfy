/** The optional value, and the little about finite sets the other modules share. */
module Basics {
  datatype Option<+T> = None | Some(value: T)

  ghost function Any<T>(s: set<T>): (x: T)
    requires s != {}
    ensures x in s
  {
    var x :| x in s;
    x
  }

  /** Iterating a Python set or dict: the next element is any one of them. */
  method Pick<T>(s: set<T>) returns (x: T)
    requires s != {}
    ensures x in s
  {
    x :| x in s;
  }

  lemma {:induction false} SubsetSize<T>(a: set<T>, b: set<T>)
    requires a <= b
    ensures |a| <= |b|
    decreases |a|
  {
    if a != {} {
      var x := Any(a);
      SubsetSize(a - {x}, b - {x});
    }
  }
}
