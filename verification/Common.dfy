/** Types shared by the models, and mapping every element of a list to any number of others. */
module Common {
  /** A nullable column or an absent value. */
  datatype Option<+T> = None | Some(value: T)

  /** Milliseconds since some fixed instant. */
  type Time = int

  /** `flatMap` */
  function FlatMap<T, U>(f: T -> seq<U>, s: seq<T>): seq<U> {
    if s == [] then [] else FlatMap(f, s[..|s| - 1]) + f(s[|s| - 1])
  }

  predicate Stays<T(==)>(f: T -> seq<T>, x: T) {
    f(x) == [x]
  }

  lemma {:induction false} FlatMapStays<T>(f: T -> seq<T>, s: seq<T>)
    requires forall x | x in s :: Stays(f, x)
    ensures FlatMap(f, s) == s
  {
    if s != [] {
      var front, last := s[..|s| - 1], s[|s| - 1];
      FlatMapStays(f, front);
      assert Stays(f, last);
      assert front + [last] == s;
    }
  }

  lemma {:induction false} FlatMapFront<T, U>(f: T -> seq<U>, s: seq<T>, k: nat)
    requires k <= |s|
    ensures FlatMap(f, s[..k]) <= FlatMap(f, s)
    decreases |s|
  {
    if k == |s| {
      assert s[..k] == s;
    } else {
      var front := s[..|s| - 1];
      FlatMapFront(f, front, k);
      assert front[..k] == s[..k];
    }
  }

  /** Dropped, or mapped to one element that is mapped to itself. */
  predicate AtMostOnce<T(==)>(f: T -> seq<T>, x: T) {
    f(x) == [] || (|f(x)| == 1 && f(f(x)[0]) == f(x))
  }

  lemma {:induction false} FlatMapTwice<T>(f: T -> seq<T>, s: seq<T>)
    requires forall x :: AtMostOnce(f, x)
    ensures FlatMap(f, FlatMap(f, s)) == FlatMap(f, s)
  {
    if s != [] {
      var front, last := FlatMap(f, s[..|s| - 1]), s[|s| - 1];
      FlatMapTwice(f, s[..|s| - 1]);
      assert AtMostOnce(f, last);
      if f(last) == [] {
        assert front + [] == front;
      } else {
        assert (front + f(last))[..|front|] == front;
      }
    }
  }
}
