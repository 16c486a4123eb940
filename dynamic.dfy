/** A single-slot, type-erased value holder.

    The holder is either empty or owns one handler that pairs a value with the
    name of its concrete type. Reading the value back is a checked downcast:
    it succeeds only when the requested type, with references and
    cv-qualifiers stripped and arrays and functions turned into pointers
    (`std::decay_t`), equals the type the handler was built for, and
    otherwise reports a failed cast instead of reinterpreting the value.

    Tags: the tag given to the constructor or to `Replace` names the handler's
    type argument `T` as deduced at the store; the tag given to `As` names
    `std::decay_t<T>` of the requested type. So `as<const int>()` and
    `as<int&>()` both use tag "int", and a handler stored under a reference
    type (tag "int&") is never matched by any `As` tag a caller can produce.
 */
module Dynamic {

  /** Runtime identity of a concrete type, compared by value. */
  type TypeName = string

  datatype Option<T> = None | Some(value: T)

  /** The owned handler: a value together with the type it was stored as. */
  datatype Handler<V> = Handler(tag: TypeName, value: V)

  datatype CastError =
    | BadCast      // the stored type differs from the requested one
    | EmptyHolder  // nothing is stored

  datatype CastResult<V> = Cast(value: V) | Failed(error: CastError)

  /** The holder. `V` is the universe of values the holder can carry; the tag
      says which concrete type the stored value has. */
  class Any<V> {
    var data: Option<Handler<V>>

    /** An empty holder. */
    constructor Empty()
      ensures data == None
      ensures forall t :: As(t) == Failed(EmptyHolder)
    {
      data := None;
    }

    /** A holder storing `value` as type `tag`. */
    constructor (tag: TypeName, value: V)
      ensures data == Some(Handler(tag, value))
      ensures As(tag) == Cast(value)
      ensures forall t :: t != tag ==> As(t) == Failed(BadCast)
    {
      data := Some(Handler(tag, value));
    }

    /** Discards the stored handler, whatever it was, and stores `value` in a
        handler for type `tag` (the template argument of `replace`). */
    method Replace(tag: TypeName, value: V)
      modifies this
      ensures data == Some(Handler(tag, value))
      ensures As(tag) == Cast(value)
      ensures forall t :: t != tag ==> As(t) == Failed(BadCast)
    {
      data := Some(Handler(tag, value));
    }

    /** Checked downcast to the type named `t`, which stands for
        `std::decay_t` of the requested type: the stored value when the
        handler's type is `t`, a failed cast otherwise; never a value under
        another type. */
    function As(t: TypeName): (r: CastResult<V>)
      reads this
      ensures r.Cast? <==> data.Some? && data.value.tag == t
      ensures r.Cast? ==> r.value == data.value.value
      ensures r.Failed? ==> r.error == (if data.None? then EmptyHolder else BadCast)
    {
      match data
      case None => Failed(EmptyHolder)
      case Some(h) => if h.tag == t then Cast(h.value) else Failed(BadCast)
    }
  }

  /** Storing a value and reading it back: the same type gives back the value,
      any other type fails, for the holder built by the constructor or by
      `Replace` alike. */
  method StoreThenRead<V>(tag: TypeName, value: V, other: TypeName, next: V)
    returns (first: CastResult<V>, mismatch: CastResult<V>, second: CastResult<V>)
    requires other != tag
    ensures first == Cast(value)
    ensures mismatch == Failed(BadCast)
    ensures second == Cast(next)
  {
    var a := new Any(tag, value);
    first := a.As(tag);
    mismatch := a.As(other);
    a.Replace(other, next);
    second := a.As(other);
  }
}
