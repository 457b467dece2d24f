# PHP Optional, modelled in Dafny

A model of the `Optional\Optional` class of kazuhsat's PHP Optional library:
an immutable container that holds at most one value, with three factories
(`empty`, `of`, `ofNullable`), two inspectors (`isPresent`, `get`),
structural equality (`equals`), four operations that take a callable
(`filter`, `map`, `flatMap`, `ifPresent`), three fallbacks (`orElse`,
`orElseGet`, `orElseThrow`) and `toString`.

The PHP class keeps one private `$value` and uses `null` for "absent". The
model makes the two states explicit:

- `Php.Nullable<T>` is a PHP value that may be `null` (`Null | NonNull(v)`).
  By convention `T` ranges over the caller's non-null PHP values and is never
  itself a `Nullable` type. Under that convention the class invariant "a
  present container never holds `null`" holds by construction.
- `Php.Exception` is what a call throws: `NullPointerException`,
  `NoSuchElementException`, or `Thrown(e)` for the caller's own throwable
  given to `orElseThrow`. `Php.Throwable` stands for such an object and is
  known only by an identity. `Php.Result<R>` is either "returns `value`" or
  "throws `ex`".
- `Optionals.Optional<T>` is `Absent | Present(value)`. Its member `Raw()`
  gives the private field as PHP sees it. Every instance method is a member
  function, except `toString`, which is the module function
  `Optionals.ToString` and covers string payloads only, and `hashCode`, which
  is left out. The static factories are static functions. The class never
  changes `$value` after the private constructor, so plain values model it.
- Callables are Dafny function values. They are partial arrows (`-->`), and
  each operation requires a callable to be callable only on the inputs the
  PHP code really passes to it. So `orElseGet` accepts a supplier that
  cannot be called when the container is present, and `ifPresent` and `map`
  accept a consumer or mapper that cannot be called when it is absent. That
  is how the laziness of these operations is stated.
- `filter`'s predicate may itself be `null`. The source checks for that at
  run time, so the predicate has type `Nullable<Nullable<T> --> bool>`. It
  takes a `Nullable<T>` because the source calls it on the field even when
  the container is absent.
- `equals` takes any PHP value as its argument. The model reduces that to
  `Operand<T>`: either an `Optional` or `NotAnOptional`.
- `map` returns PHP `mixed`. The model uses `MapResult<T, U>`: the container
  itself (`Unmapped`) or the mapper's answer (`Mapped`).

Files: `php.dfy` (boundary values), `optional.dfy` (the class),
`properties.dfy` (what the class promises, and the PHPUnit scenarios as
lemmas), `canonical.dfy` (textbook `map`/`flatMap` as reference definitions,
with lemmas showing where the class agrees with them and where it does not).

## Behaviour as written

The model follows the code, including the places where it differs from a
textbook Optional or from its own doc comments:

- `map` (src/Optional.php:151-158) passes the whole container to the mapper,
  not the value. It returns the mapper's answer without wrapping it. When
  absent it returns the container itself. `Canonical.MapRecoversCanonical`
  and `Canonical.MapDoesNotRewrap` relate it to the textbook `map`.
- `flatMap` (src/Optional.php:87-96) has its absence short-circuit commented
  out. It always calls the mapper on the raw field, `null` included.
  `Canonical.FlatMapDoesNotShortCircuit` shows the difference from the
  textbook `flatMap`. `Canonical.FlatMapCanonicalIff` says which mappers
  make the two agree: exactly those that send `null` to an empty container.
- `filter` (src/Optional.php:68-79) calls the predicate even on an absent
  container, passing `null`. The result is absent either way.
- `ifPresent` is documented as returning `void`, but it returns the
  consumer's result (src/Optional.php:129-134).
- Only `filter` throws a NullPointerException for a `null` callable. The
  other operations rely on PHP's `callable` type hint instead (see Left out).
- `toString` of an absent container is "Optional[]". This follows from PHP
  rendering `null` as the empty string under `%s`. The same text is what a
  present empty string renders as (`OptionalProperties.ToStringCollisions`).

Every member is a function of immutable values. So calling an inspector
twice gives the same result by construction, and no lemma states it.

## Model

| member | source | states |
|---|---|---|
| `Optionals.Optional.Raw` | src/Optional.php:18-34 | the private field is `null` exactly when the container is absent and otherwise holds the stored value |
| `Optionals.Optional.Empty` | src/Optional.php:41-44 | `empty()` yields a container whose field is `null` |
| `Optionals.Optional.Of` | src/Optional.php:167-174 | `of` throws NullPointerException exactly on `null`, and otherwise yields a container whose field is the argument |
| `Optionals.Optional.OfNullable` | src/Optional.php:182-185 | `ofNullable` never throws, and the new container's field is the argument, `null` included |
| `Optionals.Optional.IsPresent` | src/Optional.php:141-144 | `isPresent` is true iff the field is not `null` |
| `Optionals.Optional.Get` | src/Optional.php:104-111 | `get` returns iff the field is not `null`, and then returns the field's value; otherwise it throws NoSuchElementException |
| `Optionals.Optional.Equals` | src/Optional.php:52-59 | `equals` is false on a non-`Optional`, and on an `Optional` it is true iff the two fields are identical |
| `Optionals.Optional.Filter` | src/Optional.php:67-79 | `filter` throws NullPointerException iff the predicate is `null`; the result is present iff the container is present and the predicate holds of the field, and a present result is the container itself |
| `Optionals.Optional.FlatMap` | src/Optional.php:87-96 | `flatMap` returns the mapper's answer on the raw field, `null` included; the mapper only has to be callable on that field |
| `Optionals.Optional.Map` | src/Optional.php:151-158 | `map` returns `Unmapped(this)` iff the container is absent, without calling the mapper; otherwise it returns `Mapped` of the mapper's answer on the container |
| `Optionals.Optional.IfPresent` | src/Optional.php:129-134 | `ifPresent` returns non-null iff the container is present, and then the consumer's answer on the value; the consumer is not called when absent |
| `Optionals.Optional.OrElse` | src/Optional.php:193-196 | `orElse` returns the field when it is not `null`, and the argument otherwise |
| `Optionals.Optional.OrElseGet` | src/Optional.php:204-207 | `orElseGet` returns the field when it is not `null`, and the supplier's answer otherwise; the supplier is only required to be callable when the field is `null` |
| `Optionals.Optional.OrElseThrow` | src/Optional.php:216-223 | `orElseThrow(e)` returns iff the field is not `null`, and then returns the field's value; otherwise it throws exactly `e` |
| `Optionals.ToString` | src/Optional.php:230-233 | `toString` of a string container is "Optional[", then the payload (empty when absent), then "]" |
| `OptionalProperties.OfThenGet` | src/Optional.php:167-174 | `of(v)` for non-null `v` is present and `get` returns `v` exactly; `of(null)` throws NullPointerException, so no `get` is reached |
| `OptionalProperties.OfNullableTotal` | src/Optional.php:182-185 | `ofNullable(v)` is present iff `v` is not `null`, and equals `of(v)` wherever `of` succeeds |
| `OptionalProperties.RawRoundTrip` | src/Optional.php:31-34 | container and field determine each other: `ofNullable` of the field gives back the container, and the field of `ofNullable(n)` is `n` |
| `OptionalProperties.EveryContainerIsBuilt` | src/Optional.php:31-44 | every container equals `empty()` or `of(v)` for some non-null `v`; apart from the factories only `filter` calls the private constructor, with `null` (src/Optional.php:78), which gives a container equal to `empty()` |
| `OptionalProperties.GetPresentOrThrows` | src/Optional.php:104-111 | `empty()` is not present and `get` on it throws NoSuchElementException; on a present container `get` returns the stored value |
| `OptionalProperties.EqualsIsStructural` | src/Optional.php:52-59 | `equals` is false on a non-`Optional`; on an `Optional` it holds iff both are absent or both present with equal values |
| `OptionalProperties.EqualsIsEquivalence` | src/Optional.php:58 | between containers whose payloads `===` compares reflexively (all payloads but those holding NAN), `equals` is reflexive, symmetric and transitive |
| `OptionalProperties.EqualsOnBooleans` | tests/unit/OptionalTest.php:26-50 | the suite's three cases, built with `of`: `of(true)` equals `of(true)`, differs from `of(false)` and from a plain object; added beyond the suite: two empty containers are equal |
| `OptionalProperties.FilterNullPredicate` | src/Optional.php:70-72 | `filter(null)` throws NullPointerException on every container |
| `OptionalProperties.FilterKeepsIffTrue` | src/Optional.php:74-78 | a present container comes back unchanged iff the predicate holds of its value, otherwise the result is absent; an absent container always yields absent |
| `OptionalProperties.FilterTwiceIsConjunction` | src/Optional.php:68-79 | filtering by `p` then `q` equals filtering by `p && q`, and filtering is idempotent |
| `OptionalProperties.FilterOnOne` | tests/unit/OptionalTest.php:67-89 | `of(1)` filtered by a predicate answering true stays present, by one answering false becomes absent |
| `OptionalProperties.OrElseChoosesValue` | src/Optional.php:193-207 | `orElse(x)` is the value when present and `x` when absent, and agrees with `orElseGet` given a supplier of `x` |
| `OptionalProperties.OrElseGetIsLazy` | src/Optional.php:204-207 | on a present container `orElseGet` returns the value even for a supplier that cannot be called; on an absent one it returns the supplier's answer |
| `OptionalProperties.OrElseThrowIsGetWithOwnError` | src/Optional.php:216-223 | `orElseThrow(e)` succeeds exactly where `get` does, with the same value, and otherwise throws `e` where `get` throws NoSuchElementException |
| `OptionalProperties.FallbackScenarios` | tests/unit/OptionalTest.php:233-279 | `ofNullable('A')->orElse('B')` is 'A', `ofNullable(null)->orElse('B')` is 'B', `orElseGet` gives the supplier's false when empty and the value, without calling the supplier, when present |
| `OptionalProperties.IfPresentRunsOnlyWhenPresent` | src/Optional.php:129-134 | `ifPresent(c)` returns `c(value)` when present; when absent it returns `null` and accepts a consumer that cannot be called |
| `OptionalProperties.IfPresentOnOne` | tests/unit/OptionalTest.php:151-159 | `of(1)->ifPresent(v * 100)` is 100 |
| `OptionalProperties.FlatMapOfNullableIsIdentity` | src/Optional.php:87-96 | `flatMap(ofNullable)` gives back the container, absent ones included |
| `OptionalProperties.FlatMapDoubling` | tests/unit/OptionalTest.php:95-113 | `of(2)->flatMap(v * 2)` is 4, and the same mapper on `empty()` is 0, since it runs on `null` |
| `OptionalProperties.ToStringOfTest` | tests/unit/OptionalTest.php:281-287 | `of('test')->toString()` is "Optional[test]" |
| `OptionalProperties.ToStringCollisions` | src/Optional.php:230-233 | present strings render injectively; absent and a present empty string both render "Optional[]", and no other two containers share a rendering |
| `Canonical.FlatMapAgreesWhenPresent` | src/Optional.php:87-96 | on a present container, `flatMap` with any mapper equals the textbook `flatMap` of that mapper on non-null values |
| `Canonical.FlatMapDoesNotShortCircuit` | src/Optional.php:89-95 | on an absent container `flatMap` returns the mapper's answer on `null`, which can be present where the textbook `flatMap` is absent |
| `Canonical.FlatMapNullSafeIsCanonical` | src/Optional.php:87-96 | with a mapper sending `null` to an empty container, `flatMap` equals the textbook `flatMap` on every container |
| `Canonical.FlatMapCanonicalIff` | src/Optional.php:87-96 | `flatMap` with mapper `m` equals the textbook `flatMap` on every container iff `m(null)` is the empty container |
| `Canonical.MapRecoversCanonical` | src/Optional.php:151-158 | with a mapper that unwraps its container, `map` returns the empty container untouched when absent and the textbook `map` result when present |
| `Canonical.MapDoesNotRewrap` | src/Optional.php:157 | `map`'s result is the mapper's answer unwrapped, where the textbook `map` wraps it |

## Left out

- `hashCode` (src/Optional.php:118-121) returns `spl_object_hash`, the
  runtime identity of the object. A value model has no object identity.
- `Optionals.ToString` covers string payloads only. For other payloads PHP's
  `%s` conversion of the value would have to be modelled.
- PHP type hints: passing a non-callable, or `null`, where `map`, `flatMap`,
  `ifPresent` or `orElseGet` declare `callable` raises a `TypeError`, and so
  does a non-throwable given to `orElseThrow`. Function values in the model
  cannot be `null` or non-callable, so these errors are not modelled. Name
  resolution of `Throwable` inside the `Optional` namespace is not modelled
  either. `filter` has no type hint (src/Optional.php:67-68): a non-null
  predicate that cannot be called passes the `is_null` test at line 70 and
  fails at the call on line 74 with PHP's `Error`, not a `TypeError`. The
  model's `Nullable<Nullable<T> --> bool>` covers only the `null` case.
- `Optionals.Optional.Filter`: the predicate returns `bool`. In PHP it may
  return any value, and only exactly `true` keeps the container (a truthy
  `1` empties it). That case is not modelled.
- `Optionals.Optional.IfPresent`: in PHP, a consumer that returns `null` on a
  present container gives the same `null` as the absent case. The model keeps
  the two apart (`NonNull(...)` versus `Null`).
- `Optionals.Optional.Equals` compares payloads by Dafny value equality.
  PHP's `===` differs from it in two ways. On object payloads it compares
  object identity, which the model does not have. On floats it is IEEE
  comparison, so `NAN === NAN` is false. Only the second breaks
  reflexivity: a float NAN payload, or an array holding NAN, makes
  `$o->equals($o)` false in PHP and true in the model.
- `OptionalProperties.EqualsIsEquivalence`: its reflexivity holds in PHP only
  for payloads whose `===` is reflexive. It fails for NAN payloads and for
  arrays holding NAN, which the model cannot represent.
- `Optionals.Optional.Map`: `Unmapped` and `Mapped` tell apart what a PHP
  caller cannot. A mapper that returns its argument makes PHP's `map` return
  the container itself on a present container too, just as on an absent one.
- Side effects and exceptions of the callables themselves are not modelled.
  The model only records whether, and on what, a callable is invoked.
- The PHPUnit harness itself is not modelled. Its scenarios appear as
  lemmas.
