/** Optional values and fallible results, usable with `:-`. */
module Wrappers {

  datatype Option<+T> = None | Some(value: T)

  datatype Result<+T, +E> = Success(value: T) | Failure(error: E) {
    predicate IsFailure() {
      Failure?
    }

    function PropagateFailure<U>(): Result<U, E>
      requires Failure?
    {
      Failure(error)
    }

    function Extract(): T
      requires Success?
    {
      value
    }
  }

  /** The length of the longest of these strings. */
  ghost function Longest<T(!new)>(xs: set<seq<T>>): (n: nat)
    ensures forall x <- xs :: |x| <= n
  {
    if xs == {} then 0 else
      var x :| x in xs;
      var rest := Longest(xs - {x});
      if |x| <= rest then rest else |x|
  }

  /** Finitely many strings leave another one. */
  lemma Another<T(!new)>(xs: set<seq<T>>, fill: T) returns (other: seq<T>)
    ensures other !in xs
  {
    other := seq(Longest(xs) + 1, _ => fill);
  }

  /** The parts of a sequence put back together. */
  function Flatten<T>(parts: seq<seq<T>>): seq<T> {
    if parts == [] then [] else Flatten(parts[..|parts| - 1]) + parts[|parts| - 1]
  }

  lemma FlattenSnoc<T>(parts: seq<seq<T>>, part: seq<T>)
    ensures Flatten(parts + [part]) == Flatten(parts) + part
  {
    assert (parts + [part])[..|parts|] == parts;
  }

  lemma {:induction false} FlattenCons<T>(part: seq<T>, parts: seq<seq<T>>)
    ensures Flatten([part] + parts) == part + Flatten(parts)
  {
    if parts == [] {
      FlattenSnoc([], part);
      assert [] + [part] == [part] + parts;
    } else {
      var init, last := parts[..|parts| - 1], parts[|parts| - 1];
      FlattenCons(part, init);
      FlattenSnoc([part] + init, last);
      assert [part] + parts == ([part] + init) + [last];
    }
  }

  lemma FlattenFirst<T>(parts: seq<seq<T>>)
    requires parts != []
    ensures Flatten(parts) == parts[0] + Flatten(parts[1..])
  {
    FlattenCons(parts[0], parts[1..]);
    assert parts == [parts[0]] + parts[1..];
  }
}
