/** The textbook `map` and `flatMap` of an Optional type, which the PHP class
    does not follow: its `map` hands the whole container to the mapper, and
    its `flatMap` has the absence short-circuit disabled. These reference
    definitions say exactly where the class's behaviour meets the textbook
    one and where it leaves it. */
module Canonical {
  import opened Php
  import opened Optionals

  /** Textbook `map`: apply `f` to the value and wrap the result; an absent
      container stays absent and `f` is not called. */
  function MapValue<T(==), U(==)>(o: Optional<T>, f: T -> U): (r: Optional<U>)
    ensures r.Present? <==> o.Present?
    ensures r.Present? ==> r.value == f(o.value)
  {
    match o
    case Absent => Absent
    case Present(v) => Present(f(v))
  }

  /** Textbook `flatMap`: apply `f` to the value and return its container as
      it is; an absent container stays absent and `f` is not called. */
  function FlatMapValue<T(==), U(==)>(o: Optional<T>, f: T -> Optional<U>): (r: Optional<U>)
    ensures o.Absent? ==> r.Absent?
    ensures o.Present? ==> r == f(o.value)
  {
    match o
    case Absent => Absent
    case Present(v) => f(v)
  }

  /** A mapper of PHP values that sends `null` to an empty container and a
      value `x` to `f(x)`. */
  function NullSafe<T, U(==)>(f: T -> Optional<U>): (r: Nullable<T> -> Optional<U>)
  {
    (n: Nullable<T>) =>
      match n
      case Null => Optional<U>.Absent
      case NonNull(x) => f(x)
  }

  /** On a present container the class's `flatMap`, whatever its mapper, is
      the textbook `flatMap` of the mapper restricted to non-null values. */
  lemma FlatMapAgreesWhenPresent<T, U>(o: Optional<T>, m: Nullable<T> -> Optional<U>)
    requires o.Present?
    ensures o.FlatMap(m) == FlatMapValue(o, (x: T) => m(NonNull(x)))
  {
  }

  /** On an absent container the class's `flatMap` still calls the mapper,
      with `null`, and returns its answer: a mapper that answers a present
      container makes `flatMap` of an empty container present, where the
      textbook `flatMap` gives an empty one. */
  lemma FlatMapDoesNotShortCircuit<U>(m: Nullable<int> -> Optional<U>, f: int -> Optional<U>)
    ensures Optional<int>.Absent.FlatMap(m) == m(Null)
    ensures Optional<int>.Absent.FlatMap((n: Nullable<int>) => Optional<int>.Present(0)) == Present(0)
    ensures FlatMapValue(Optional<int>.Absent, f) == Absent
  {
  }

  /** With a mapper that sends `null` to an empty container, the class's
      `flatMap` coincides with the textbook one on every container. */
  lemma FlatMapNullSafeIsCanonical<T, U>(o: Optional<T>, f: T -> Optional<U>)
    ensures o.FlatMap(NullSafe(f)) == FlatMapValue(o, f)
  {
  }

  /** Exactly the mappers that send `null` to an empty container make the
      class's `flatMap` agree with the textbook `flatMap` on every container:
      any other mapper already disagrees on the empty container. */
  lemma FlatMapCanonicalIff<T, U>(m: Nullable<T> -> Optional<U>)
    ensures (forall o: Optional<T> :: o.FlatMap(m) == FlatMapValue(o, (x: T) => m(NonNull(x))))
        <==> m(Null) == Absent
  {
    if m(Null) == Absent {
      forall o: Optional<T>
        ensures o.FlatMap(m) == FlatMapValue(o, (x: T) => m(NonNull(x)))
      {
      }
    } else {
      assert Optional<T>.Absent.FlatMap(m) != FlatMapValue(Optional<T>.Absent, (x: T) => m(NonNull(x)));
    }
  }

  /** The class's `map` recovers the textbook `map` once the mapper itself
      unwraps the container it is given: when absent the class returns the
      empty container untouched, when present the mapper's answer, which is
      the textbook result. */
  lemma MapRecoversCanonical<T, U>(o: Optional<T>, f: T -> U)
    ensures match o.Map((w: Optional<T>) => MapValue(w, f))
      case Unmapped(s) => s == o && MapValue(o, f) == Absent
      case Mapped(r) => r == MapValue(o, f)
  {
  }

  /** The class's `map` does not wrap the mapper's result: a mapper that
      answers the value it finds in the container makes `map` return that
      bare value, where the textbook `map` returns it wrapped. */
  lemma MapDoesNotRewrap(v: int)
    ensures Optional<int>.Present(v).Map((w: Optional<int>) => if w.Present? then w.value else 0) == Mapped(v)
    ensures MapValue(Optional<int>.Present(v), (x: int) => x) == Present(v)
  {
  }
}
