/**
 * `#[derive(glib::SharedBoxed)]` (glib-macros/src/shared_boxed_derive.rs):
 * a newtype `struct S(T)` around a reference-counted `T` becomes a boxed
 * GLib type. The model states which inputs are accepted, which value
 * conversions the `nullable` flag selects, the newtype conversions, the
 * pointer a value carries, and the one-time registration of the type.
 *
 * Reference counts and raw pointers are not modelled: a pointer is null or
 * points at a shared value, and `into_raw`/`from_raw` keep the value.
 */
module SharedBoxed {
  import opened Wrappers
  import opened Types

  const REQUIRES_REFCOUNTED := "#[derive(glib::SharedBoxed)] requires struct MyStruct(T: RefCounted)"

  /** The type of a field: a path such as `std::sync::Arc<Inner>`, or another kind of type. */
  datatype FieldType = PathType(path: string) | OtherType

  datatype Fields = Unnamed(types: seq<FieldType>) | Named(types: seq<FieldType>) | Unit

  /** What the derive is applied to. */
  datatype Data = Struct(fields: Fields) | Enum | Union

  /** `refcounted_type`: the type of the single unnamed field of a struct, when it is a path. */
  function RefcountedType(data: Data): (r: Option<string>)
    ensures r.Some? <==>
      data.Struct? && data.fields.Unnamed? && |data.fields.types| == 1 && data.fields.types[0].PathType?
    ensures r.Some? ==> r.value == data.fields.types[0].path
  {
    match data
    case Struct(Unnamed(types)) =>
      if |types| == 1 && types[0].PathType? then Some(types[0].path) else None
    case _ => None
  }

  /** The `#[shared_boxed_type(name = …, nullable)]` attribute as extracted, with the extraction's errors. */
  datatype SharedBoxedAttr = SharedBoxedAttr(name: string, nullable: bool, errors: seq<string>)

  /** The value-type checker of `FromValue`: the plain one, or the one that also admits `None`. */
  datatype Checker = GenericChecker | GenericOrNoneChecker

  /** What the derive generates, as data. */
  datatype Generated = Generated(
    errors: seq<string>,
    gtypeName: string,
    refcountedType: string,
    checker: Checker,
    toValueOptional: bool)

  /**
   * `impl_shared_boxed`: anything but `struct S(T)` with `T` a path
   * aborts; attribute errors are emitted with the code. `nullable` selects
   * the checker that admits `None` and adds `ToValueOptional`.
   */
  function ImplSharedBoxed(data: Data, attr: SharedBoxedAttr): (r: Result<Generated, string>)
    ensures r.Err? <==> RefcountedType(data).None?
    ensures r.Err? ==> r.error == REQUIRES_REFCOUNTED
    ensures r.Ok? ==>
      r.value.refcountedType == RefcountedType(data).value
      && r.value.gtypeName == attr.name
      && r.value.errors == attr.errors
      && (r.value.checker == GenericOrNoneChecker <==> attr.nullable)
      && (r.value.toValueOptional <==> attr.nullable)
  {
    match RefcountedType(data)
    case None => Err(REQUIRES_REFCOUNTED)
    case Some(t) =>
      Ok(Generated(attr.errors, attr.name, t,
                   if !attr.nullable then GenericChecker else GenericOrNoneChecker,
                   attr.nullable))
  }

  // ------------------------------------------------------------ values

  /** The newtype `S(T)` around a reference-counted value. */
  datatype Shared<T> = Shared(inner: T)

  /** `SharedType::from_refcounted`. */
  function FromRefcounted<T>(r: T): Shared<T> {
    Shared(r)
  }

  /** `SharedType::into_refcounted`. */
  function IntoRefcounted<T>(s: Shared<T>): T {
    s.inner
  }

  /** The two conversions are inverse to each other. */
  lemma RefcountedInverse<T>(s: Shared<T>, t: T)
    ensures FromRefcounted(IntoRefcounted(s)) == s
    ensures IntoRefcounted(FromRefcounted(t)) == t
  {
  }

  /** The boxed pointer inside a `GValue`. */
  datatype Ptr<T> = Null | PtrTo(target: T)

  /** A `GValue` of a boxed type. */
  datatype Value<T> = Value(gtype: GType, ptr: Ptr<T>)

  /** `to_value`: a value of the static type pointing at the shared value. */
  function ToValue<T>(gtype: GType, s: Shared<T>): Value<T> {
    Value(gtype, PtrTo(s.inner))
  }

  /** `to_value_optional` (nullable types only): `None` stores a null pointer. */
  function ToValueOptional<T>(gtype: GType, s: Option<Shared<T>>): (v: Value<T>)
    ensures v.gtype == gtype
    ensures v.ptr.Null? <==> s.None?
  {
    match s
    case None => Value(gtype, Null)
    case Some(x) => Value(gtype, PtrTo(x.inner))
  }

  /** `from_value`: the value the pointer points at; the pointer may not be null. */
  function FromValue<T>(v: Value<T>): Shared<T>
    requires v.ptr.PtrTo?
  {
    Shared(v.ptr.target)
  }

  /** A shared value survives the trip through a `GValue`, with or without `Option`. */
  lemma ValueRoundTrip<T>(gtype: GType, s: Shared<T>)
    ensures FromValue(ToValue(gtype, s)) == s
    ensures ToValueOptional(gtype, Some(s)) == ToValue(gtype, s)
    ensures FromValue(ToValueOptional(gtype, Some(s))) == s
  {
  }

  // ------------------------------------------------------------ registration

  /**
   * `static_type`: a `Once` registers the shared type on the first call and
   * stores it; every call returns the stored type.
   */
  class StaticSharedType {
    var done: bool
    var gtype: GType
    var registrations: nat

    predicate Valid()
      reads this
    {
      registrations == (if done then 1 else 0) && (!done ==> gtype == TYPE_INVALID)
    }

    constructor()
      ensures !done && gtype == TYPE_INVALID && registrations == 0 && Valid()
    {
      done := false;
      gtype := TYPE_INVALID;
      registrations := 0;
    }

    /** `registered` is what `register_shared_type` returns. */
    method StaticType(registered: GType) returns (t: GType)
      requires Valid()
      modifies this
      ensures Valid() && done && t == gtype
      ensures old(done) ==> gtype == old(gtype) && registrations == old(registrations)
      ensures !old(done) ==> gtype == registered
    {
      if !done {
        gtype := registered;
        registrations := registrations + 1;
        done := true;
      }
      t := gtype;
    }
  }
}
