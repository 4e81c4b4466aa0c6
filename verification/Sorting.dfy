/** Iterating a finite set of store keys in key order. */
module Sorting {

  ghost predicate StrictTotal<T(!new)>(before: (T, T) -> bool) {
    && (forall x :: !before(x, x))
    && (forall x, y, z :: before(x, y) && before(y, z) ==> before(x, z))
    && (forall x, y :: x != y ==> before(x, y) || before(y, x))
  }

  predicate First<T>(s: set<T>, before: (T, T) -> bool, x: T) {
    x in s && forall y :: y in s && y != x ==> before(x, y)
  }

  lemma Transitive<T(!new)>(before: (T, T) -> bool, x: T, y: T, z: T)
    requires StrictTotal(before) && before(x, y) && before(y, z)
    ensures before(x, z)
  {
  }

  lemma Connected<T(!new)>(before: (T, T) -> bool, x: T, y: T)
    requires StrictTotal(before)
    ensures x == y || before(x, y) || before(y, x)
    ensures !(before(x, y) && before(y, x))
  {
  }

  /** A non-empty finite set has a first element. */
  lemma {:induction false} FirstExists<T(!new)>(s: set<T>, before: (T, T) -> bool)
    requires StrictTotal(before) && s != {}
    ensures exists x :: First(s, before, x)
    decreases |s|
  {
    hide StrictTotal;
    var x :| x in s;
    if s == {x} {
      assert First(s, before, x);
    } else {
      FirstExists(s - {x}, before);
      var z :| First(s - {x}, before, z);
      Connected(before, x, z);
      if before(x, z) {
        forall y | y in s && y != x
          ensures before(x, y)
        {
          if y != z {
            Transitive(before, x, z, y);
          }
        }
        assert First(s, before, x);
      } else {
        assert First(s, before, z);
      }
    }
  }

  lemma FirstUnique<T(!new)>(s: set<T>, before: (T, T) -> bool)
    requires StrictTotal(before)
    ensures forall x, y :: First(s, before, x) && First(s, before, y) ==> x == y
  {
    hide StrictTotal;
    forall x, y | First(s, before, x) && First(s, before, y)
      ensures x == y
    {
      Connected(before, x, y);
    }
  }

  /** The elements of a set in order. */
  function Sorted<T(!new,==)>(s: set<T>, before: (T, T) -> bool): (r: seq<T>)
    requires StrictTotal(before)
    ensures |r| == |s| && forall x :: x in r <==> x in s
    ensures forall i, j :: 0 <= i < j < |r| ==> before(r[i], r[j])
    decreases |s|
  {
    hide StrictTotal;
    if s == {} then []
    else
      FirstExists(s, before);
      FirstUnique(s, before);
      var x :| First(s, before, x);
      var rest := Sorted(s - {x}, before);
      assert forall j :: 0 <= j < |rest| ==> rest[j] in rest;
      [x] + rest
  }
}
