/** The `Optional\Optional` class: an immutable container holding at most one
    value. The PHP class keeps a single private `$value` and uses `null` for
    "absent"; here the two states are the constructors of `Optional`, and
    `Raw()` gives back the field as PHP sees it. Every PHP instance method
    except `toString` and `hashCode` is a member function, every static
    factory a static function; `toString` is the module function `ToString`
    below and covers string payloads only, and `hashCode` is not modelled. */
module Optionals {
  import opened Php

  /** The argument of `equals`: any PHP value; only whether it is an
      `Optional` instance, and which one, matters. */
  datatype Operand<T(==)> = AnOptional(o: Optional<T>) | NotAnOptional

  /** What `map` returns (PHP `mixed`): the container itself when it is
      absent, otherwise whatever the mapper returned. */
  datatype MapResult<T(==), U> = Unmapped(self: Optional<T>) | Mapped(result: U)

  datatype Optional<T(==)> = Absent | Present(value: T)
  {
    /** The private `$value` field: `null` exactly when absent. */
    function Raw(): (n: Nullable<T>)
      ensures n.Null? <==> Absent?
      ensures n.NonNull? ==> n.v == value
    {
      match this
      case Absent => Null
      case Present(v) => NonNull(v)
    }

    /** `Optional::empty()`: a container whose field is `null`. */
    static function Empty(): (o: Optional<T>)
      ensures o.Raw() == Null
    {
      Absent
    }

    /** `Optional::of($value)`: refuses `null` with a NullPointerException,
        otherwise wraps the value as it is. */
    static function Of(v: Nullable<T>): (r: Result<Optional<T>>)
      ensures r.Err? <==> v.Null?
      ensures r.Err? ==> r.ex == NullPointerException
      ensures r.Ok? ==> r.value.Raw() == v
    {
      match v
      case Null => Err(NullPointerException)
      case NonNull(x) => Ok(Present(x))
    }

    /** `Optional::ofNullable($value)`: never throws; the field becomes the
        argument, `null` included. */
    static function OfNullable(v: Nullable<T>): (o: Optional<T>)
      ensures o.Raw() == v
    {
      match v
      case Null => Absent
      case NonNull(x) => Present(x)
    }

    /** `isPresent()`: the field is not `null`. */
    function IsPresent(): (b: bool)
      ensures b <==> Raw() != Null
    {
      Present?
    }

    /** `get()`: the stored value, or a NoSuchElementException when the field
        is `null`. */
    function Get(): (r: Result<T>)
      ensures r.Ok? <==> Raw() != Null
      ensures r.Ok? ==> Raw() == NonNull(r.value)
      ensures r.Err? ==> r.ex == NoSuchElementException
    {
      match this
      case Absent => Err(NoSuchElementException)
      case Present(v) => Ok(v)
    }

    /** `equals($object)`: false for anything that is not an `Optional`,
        otherwise strict equality (`===`) of the two fields. */
    function Equals(other: Operand<T>): (b: bool)
      ensures other.NotAnOptional? ==> !b
      ensures other.AnOptional? ==> (b <==> Raw() == other.o.Raw())
    {
      match other
      case NotAnOptional => false
      case AnOptional(o) => this == o
    }

    /** `filter($predicate)`: a `null` predicate throws a
        NullPointerException. Otherwise the predicate is called on the field
        (on `null` when absent); the container survives only when it is
        present and the predicate says true, and is then returned as it is. */
    function Filter(pred: Nullable<Nullable<T> --> bool>): (r: Result<Optional<T>>)
      requires pred.NonNull? ==> pred.v.requires(Raw())
      ensures r.Err? <==> pred.Null?
      ensures r.Err? ==> r.ex == NullPointerException
      ensures r.Ok? ==> (r.value.Raw() != Null <==> Raw() != Null && pred.v(Raw()))
      ensures r.Ok? && r.value.Present? ==> r.value == this
    {
      match pred
      case Null => Err(NullPointerException)
      case NonNull(p) => if p(Raw()) then Ok(this) else Ok(Absent)
    }

    /** `flatMap($mapper)`: calls the mapper on the field, `null` included
        (the absence short-circuit is disabled in the source), and returns its
        result without wrapping it. */
    function FlatMap<U>(mapper: Nullable<T> --> U): (r: U)
      requires mapper.requires(Raw())
      ensures r == mapper(Raw())
    {
      match this
      case Absent => mapper(Null)
      case Present(v) => mapper(NonNull(v))
    }

    /** `map($mapper)`: returns the container itself when absent; otherwise
        calls the mapper on the container (not on the value) and returns its
        result. The mapper is not called when absent. */
    function Map<U>(mapper: Optional<T> --> U): (r: MapResult<T, U>)
      requires Raw() != Null ==> mapper.requires(this)
      ensures r.Unmapped? <==> Raw() == Null
      ensures r.Unmapped? ==> r.self == this
      ensures r.Mapped? ==> r.result == mapper(this)
    {
      match this
      case Absent => Unmapped(this)
      case Present(_) => Mapped(mapper(this))
    }

    /** `ifPresent($consumer)`: calls the consumer on the value and returns
        its result when present; when absent, the consumer is not called and
        the PHP function falls off its end, returning `null`. */
    function IfPresent<U>(consumer: T --> U): (r: Nullable<U>)
      requires Raw() != Null ==> consumer.requires(value)
      ensures r.NonNull? <==> Raw() != Null
      ensures r.NonNull? ==> r.v == consumer(value)
    {
      match this
      case Absent => Null
      case Present(v) => NonNull(consumer(v))
    }

    /** `orElse($other)`: the field when it is not `null`, otherwise the
        argument as it is. */
    function OrElse(other: Nullable<T>): (r: Nullable<T>)
      ensures Raw() != Null ==> r == Raw()
      ensures Raw() == Null ==> r == other
    {
      match this
      case Absent => other
      case Present(v) => NonNull(v)
    }

    /** `orElseGet($other)`: the field when it is not `null`, otherwise what
        the supplier returns. The supplier is only evaluated when the field is
        `null`, so it need not be callable on a present container. */
    function OrElseGet(supplier: () --> Nullable<T>): (r: Nullable<T>)
      requires Raw() == Null ==> supplier.requires()
      ensures Raw() != Null ==> r == Raw()
      ensures Raw() == Null ==> r == supplier()
    {
      match this
      case Absent => supplier()
      case Present(v) => NonNull(v)
    }

    /** `orElseThrow($exception)`: the value when present; otherwise the
        caller's throwable is thrown, unchanged. */
    function OrElseThrow(exception: Throwable): (r: Result<T>)
      ensures r.Ok? <==> Raw() != Null
      ensures r.Ok? ==> Raw() == NonNull(r.value)
      ensures r.Err? ==> r.ex == Thrown(exception)
    {
      match this
      case Absent => Err(Thrown(exception))
      case Present(v) => Ok(v)
    }
  }

  /** The fixed text around the payload in `toString()`. */
  const Prefix: string := "Optional["
  const Suffix: string := "]"

  /** `toString()` for string payloads: the payload between "Optional[" and
      "]". PHP's `%s` conversion turns `null` into the empty string, so an
      absent container renders as "Optional[]". */
  function ToString(o: Optional<string>): (s: string)
    ensures |s| == |Prefix| + |o.OrElse(NonNull("")).v| + |Suffix|
    ensures s[..|Prefix|] == Prefix && s[|s| - |Suffix|..] == Suffix
    ensures s[|Prefix|..|s| - |Suffix|] == o.OrElse(NonNull("")).v
  {
    match o
    case Absent => Prefix + Suffix
    case Present(p) => Prefix + p + Suffix
  }
}
