/** Types and sequence helpers that several modules share. */
module Common {

  datatype Option<T> = None | Some(value: T)

  /** A value, or the `ValueError` the code raises instead. */
  datatype Result<T> = Ok(value: T) | ValueError

  ghost predicate Distinct<T>(xs: seq<T>)
  {
    forall i, j :: 0 <= i < j < |xs| ==> xs[i] != xs[j]
  }

  /** The sequence without any `x`. */
  function Remove<T(==)>(xs: seq<T>, x: T): seq<T>
  {
    if xs == [] then [] else (if xs[0] == x then [] else [xs[0]]) + Remove(xs[1..], x)
  }

  lemma {:induction false} RemoveMembers<T>(xs: seq<T>, x: T, y: T)
    ensures y in Remove(xs, x) <==> y in xs && y != x
  {
    if xs != [] {
      RemoveMembers(xs[1..], x, y);
      assert xs == [xs[0]] + xs[1..];
    }
  }

  lemma {:induction false} RemoveKeepsDistinct<T>(xs: seq<T>, x: T)
    requires Distinct(xs)
    ensures Distinct(Remove(xs, x)) && |Remove(xs, x)| == |xs| - (if x in xs then 1 else 0)
  {
    if xs != [] {
      var rest := Remove(xs[1..], x);
      RemoveKeepsDistinct(xs[1..], x);
      assert xs == [xs[0]] + xs[1..];
      assert xs[0] !in xs[1..];
      RemoveMembers(xs[1..], x, xs[0]);
      forall i | 0 <= i < |rest| ensures rest[i] != xs[0] {
        assert rest[i] in rest;
      }
    }
  }

  /** Moving `x` to the end of a list without repetitions leaves one. */
  lemma {:induction false} MoveToEndKeepsDistinct<T>(xs: seq<T>, x: T)
    requires Distinct(xs)
    ensures Distinct(Remove(xs, x) + [x])
  {
    var rest := Remove(xs, x);
    RemoveKeepsDistinct(xs, x);
    RemoveMembers(xs, x, x);
    forall i | 0 <= i < |rest| ensures rest[i] != x {
      assert rest[i] in rest;
    }
  }
}
