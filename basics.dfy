/** Small building blocks shared by every module: the Rust-style `Option` and
    `Result` sum types, and the enumeration of a hash set in an unspecified
    order (what iterating a `HashSet` or the keys of a `HashMap` does). */
module Basics {

  datatype Option<T> = None | Some(value: T)

  datatype Result<T, E> = Ok(value: T) | Err(error: E)

  /** No element occurs twice in `q`. */
  predicate Distinct<T(==)>(q: seq<T>)
  {
    forall i, j :: 0 <= i < j < |q| ==> q[i] != q[j]
  }

  /** A duplicate-free sequence is as long as the set of its elements. */
  lemma {:induction false} DistinctLength<T>(q: seq<T>, s: set<T>)
    requires Distinct(q) && forall x :: x in q <==> x in s
    ensures |q| == |s|
    decreases |q|
  {
    if |q| > 0 {
      var last := q[|q| - 1];
      var init := q[..|q| - 1];
      forall x
        ensures x in init <==> x in s - {last}
      {
        if x in init {
          var i :| 0 <= i < |init| && init[i] == x;
          assert q[i] == x;
        }
        if x in s - {last} {
          var i :| 0 <= i < |q| && q[i] == x;
          assert init[i] == x;
        }
      }
      DistinctLength(init, s - {last});
    } else {
      assert forall x :: x !in s;
      assert s == {};
    }
  }

  /** Lists the members of `s` once each, in an order the caller cannot rely on. */
  method Enumerate<T>(s: set<T>) returns (q: seq<T>)
    ensures forall x :: x in q <==> x in s
    ensures |q| == |s| && Distinct(q)
  {
    q := [];
    var rest := s;
    while rest != {}
      invariant rest <= s
      invariant forall x :: x in q <==> x in s - rest
      invariant |q| == |s - rest| && Distinct(q)
      decreases rest
    {
      var x :| x in rest;
      assert s - (rest - {x}) == (s - rest) + {x};
      q := q + [x];
      rest := rest - {x};
    }
  }
}
