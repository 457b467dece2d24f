/** What the `Optional` class promises its callers, stated over all inputs:
    the factories, the inspectors, equality, `filter`, the fallbacks,
    `ifPresent`, `flatMap` and `toString`, plus the scenarios of the PHPUnit
    suite. */
module OptionalProperties {
  import opened Php
  import opened Optionals

  // ---------------------------------------------------------------- factories

  /** `of` on a non-null value builds a present container whose `get`
      returns exactly that value; on `null` it throws a NullPointerException
      and no container exists on which `get` could be called. */
  lemma OfThenGet<T>(n: Nullable<T>)
    ensures match Optional<T>.Of(n)
      case Err(e) => n == Null && e == NullPointerException
      case Ok(o) => n != Null && o.IsPresent() && o.Get() == Ok(n.v)
  {
  }

  /** `ofNullable` never throws, is present exactly for a non-null argument
      and agrees with `of` wherever `of` succeeds. */
  lemma OfNullableTotal<T>(n: Nullable<T>)
    ensures Optional<T>.OfNullable(n).IsPresent() <==> n != Null
    ensures Optional<T>.Of(n).Ok? ==> Optional<T>.Of(n).value == Optional<T>.OfNullable(n)
  {
  }

  /** The field and the container determine each other: `ofNullable` of the
      field rebuilds the container, and the field of `ofNullable(n)` is `n`.
      So a present container never holds `null`. */
  lemma RawRoundTrip<T>(o: Optional<T>, n: Nullable<T>)
    ensures Optional<T>.OfNullable(o.Raw()) == o
    ensures Optional<T>.OfNullable(n).Raw() == n
  {
  }

  /** Every container equals `empty()` or `of(v)` for a non-null `v`. Apart
      from the factories, only `filter` calls the private constructor, with
      `null`, and that gives a container equal to `empty()`. */
  lemma EveryContainerIsBuilt<T>(o: Optional<T>)
    ensures o == Optional<T>.Empty() || exists v: T :: Optional<T>.Of(NonNull(v)) == Ok(o)
  {
    if o.Present? {
      assert Optional<T>.Of(NonNull(o.value)) == Ok(o);
    }
  }

  /** `empty` is not present and `get` on it throws NoSuchElementException;
      on a present container `get` returns the stored value. */
  lemma GetPresentOrThrows<T>(o: Optional<T>)
    ensures !Optional<T>.Empty().IsPresent()
    ensures Optional<T>.Empty().Get() == Err(NoSuchElementException)
    ensures o.Present? ==> o.Get() == Ok(o.value)
  {
  }

  // ----------------------------------------------------------------- equality

  /** `equals` is false on a non-`Optional`, and on an `Optional` it holds
      exactly when the two containers are the same value: both absent, or
      both present with equal payloads. */
  lemma EqualsIsStructural<T>(a: Optional<T>, b: Optional<T>)
    ensures !a.Equals(NotAnOptional)
    ensures a.Equals(AnOptional(b)) <==> a == b
    ensures a.Equals(AnOptional(b)) <==> (a.Absent? && b.Absent?) || (a.Present? && b.Present? && a.value == b.value)
  {
  }

  /** Between containers, `equals` is an equivalence relation. */
  lemma EqualsIsEquivalence<T>(a: Optional<T>, b: Optional<T>, c: Optional<T>)
    ensures a.Equals(AnOptional(a))
    ensures a.Equals(AnOptional(b)) ==> b.Equals(AnOptional(a))
    ensures a.Equals(AnOptional(b)) && b.Equals(AnOptional(c)) ==> a.Equals(AnOptional(c))
  {
  }

  /** The suite's three `equals` cases, built with `of` as the suite builds
      them: `of(true)` equals `of(true)`, differs from `of(false)` and from a
      plain object. The fourth case, two empty containers being equal, is
      added here and is not in the suite. */
  lemma EqualsOnBooleans()
    ensures Optional<bool>.Of(NonNull(true)).value.Equals(AnOptional(Optional<bool>.Of(NonNull(true)).value))
    ensures !Optional<bool>.Of(NonNull(true)).value.Equals(AnOptional(Optional<bool>.Of(NonNull(false)).value))
    ensures !Optional<bool>.Of(NonNull(true)).value.Equals(NotAnOptional)
    ensures Optional<bool>.Empty().Equals(AnOptional(Optional<bool>.Empty()))
  {
  }

  // ------------------------------------------------------------------- filter

  /** `filter(null)` throws a NullPointerException whatever the container. */
  lemma FilterNullPredicate<T>(o: Optional<T>)
    ensures o.Filter(Null) == Err(NullPointerException)
  {
  }

  /** A present container comes back unchanged exactly when the predicate
      holds of its value, and otherwise becomes absent; an absent container
      stays absent whatever the predicate answers on `null`. */
  lemma FilterKeepsIffTrue<T>(o: Optional<T>, p: Nullable<T> -> bool)
    ensures o.Present? ==> (o.Filter(NonNull(p)) == Ok(o) <==> p(NonNull(o.value)))
    ensures o.Present? && !p(NonNull(o.value)) ==> o.Filter(NonNull(p)) == Ok(Absent)
    ensures o.Absent? ==> o.Filter(NonNull(p)) == Ok(Absent)
  {
  }

  /** Filtering twice is filtering once by the conjunction, so filtering is
      idempotent. */
  lemma FilterTwiceIsConjunction<T>(o: Optional<T>, p: Nullable<T> -> bool, q: Nullable<T> -> bool)
    ensures o.Filter(NonNull(p)).Ok?
    ensures o.Filter(NonNull(p)).value.Filter(NonNull(q))
         == o.Filter(NonNull((n: Nullable<T>) => p(n) && q(n)))
    ensures o.Filter(NonNull(p)).value.Filter(NonNull(p)) == o.Filter(NonNull(p))
  {
  }

  /** The suite's `filter` cases on `of(1)`: a predicate that answers true
      keeps it present, one that answers false empties it. */
  lemma FilterOnOne()
    ensures Optional<int>.Of(NonNull(1)).value.Filter(NonNull((n: Nullable<int>) => true)).value.IsPresent()
    ensures !Optional<int>.Of(NonNull(1)).value.Filter(NonNull((n: Nullable<int>) => false)).value.IsPresent()
  {
  }

  // ---------------------------------------------------------------- fallbacks

  /** `orElse` gives the value when present and the argument when absent;
      it agrees with `orElseGet` given a supplier of that argument. */
  lemma OrElseChoosesValue<T>(o: Optional<T>, other: Nullable<T>)
    ensures o.Present? ==> o.OrElse(other) == NonNull(o.value)
    ensures o.Absent? ==> o.OrElse(other) == other
    ensures o.OrElseGet(() => other) == o.OrElse(other)
  {
  }

  /** `orElseGet` never evaluates its supplier on a present container: even a
      supplier that cannot be called at all is accepted, and the stored value
      comes back. On an absent container the supplier's result comes back. */
  lemma OrElseGetIsLazy<T>(v: T, s: () -> Nullable<T>)
    ensures Optional<T>.Present(v).OrElseGet(() requires false => Null) == NonNull(v)
    ensures Optional<T>.Absent.OrElseGet(s) == s()
  {
  }

  /** `orElseThrow(e)` succeeds exactly where `get` does, with the same
      value; where it fails it throws `e` itself instead of
      NoSuchElementException. */
  lemma OrElseThrowIsGetWithOwnError<T>(o: Optional<T>, e: Throwable)
    ensures o.OrElseThrow(e).Ok? <==> o.Get().Ok?
    ensures o.OrElseThrow(e).Ok? ==> o.OrElseThrow(e).value == o.Get().value
    ensures o.Absent? ==> o.OrElseThrow(e) == Err(Thrown(e)) && o.Get() == Err(NoSuchElementException)
  {
  }

  /** The suite's four fallback cases: `ofNullable('A')->orElse('B')` is 'A';
      `ofNullable(null)->orElse('B')` is 'B'; `orElseGet` with a supplier of
      false on an empty container is false; and `ofNullable(true)->orElseGet`
      with the uncallable `function ($v) {}` supplier is true, the supplier
      never being called. */
  lemma FallbackScenarios()
    ensures Optional<string>.OfNullable(NonNull("A")).OrElse(NonNull("B")) == NonNull("A")
    ensures Optional<string>.OfNullable(Null).OrElse(NonNull("B")) == NonNull("B")
    ensures Optional<bool>.OfNullable(Null).OrElseGet(() => NonNull(false)) == NonNull(false)
    ensures Optional<bool>.OfNullable(NonNull(true)).OrElseGet(() requires false => Null) == NonNull(true)
  {
  }

  // ---------------------------------------------------------------- ifPresent

  /** `ifPresent` returns the consumer's result on a present container and
      `null` on an absent one, where the consumer is never called (so one
      that cannot be called is accepted). */
  lemma IfPresentRunsOnlyWhenPresent<T, U>(o: Optional<T>, c: T -> U)
    ensures o.Present? ==> o.IfPresent(c) == NonNull(c(o.value))
    ensures o.Absent? ==> o.IfPresent((x: T) requires false => c(x)) == Null
  {
  }

  /** The suite's case: `of(1)->ifPresent(fn($v) => $v * 100)` is 100. */
  lemma IfPresentOnOne()
    ensures Optional<int>.Of(NonNull(1)).value.IfPresent((v: int) => v * 100) == NonNull(100)
  {
  }

  // ------------------------------------------------------------ map / flatMap

  /** `flatMap` with `ofNullable` as mapper is the identity, on absent
      containers too: the `null` it passes through becomes an empty
      container again. */
  lemma FlatMapOfNullableIsIdentity<T>(o: Optional<T>)
    ensures o.FlatMap(Optional<T>.OfNullable) == o
  {
  }

  /** The suite's case: `of(2)->flatMap(fn($v) => $v * 2)` is 4. Because the
      mapper also runs on an absent container, where PHP's `null * 2` is 0,
      the same mapper turns `empty()` into 0. */
  lemma FlatMapDoubling()
    ensures Optional<int>.Of(NonNull(2)).value.FlatMap(Double) == 4
    ensures Optional<int>.Empty().FlatMap(Double) == 0
  {
  }

  /** The suite's mapper for `flatMap`, with PHP's arithmetic on `null`. */
  function Double(n: Nullable<int>): (r: int)
  {
    match n
    case Null => 0
    case NonNull(x) => x * 2
  }

  // ----------------------------------------------------------------- toString

  /** The suite's case: `of('test')->toString()` is "Optional[test]". */
  lemma ToStringOfTest()
    ensures ToString(Optional<string>.Of(NonNull("test")).value) == "Optional[test]"
  {
  }

  /** The rendering of present strings is injective, but an absent container
      and a present empty string both render as "Optional[]"; no other two
      containers share a rendering. */
  lemma ToStringCollisions(a: Optional<string>, b: Optional<string>)
    ensures a.Present? && b.Present? && ToString(a) == ToString(b) ==> a == b
    ensures ToString(Absent) == ToString(Present(""))
    ensures ToString(a) == ToString(b) ==> a == b || a.OrElse(NonNull("")) == b.OrElse(NonNull(""))
  {
    if ToString(a) == ToString(b) {
      var s := ToString(a);
      assert a.OrElse(NonNull("")).v == s[|Prefix|..|s| - |Suffix|] == b.OrElse(NonNull("")).v;
    }
  }
}
