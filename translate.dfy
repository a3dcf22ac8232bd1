/**
 * Value translations between Rust values and their GLib counterparts
 * (glib/src/translate.rs): booleans as gboolean, chars as code points,
 * orderings as the sign of an i32, the `Option` lifting through a "none"
 * sentinel, the `TryFromGlib` liftings and `c_ptr_array_len`.
 */
module Translate {
  import opened Wrappers

  /** The C truth values of GLib's gboolean. */
  const GFALSE: int := 0
  const GTRUE: int := 1

  function BoolToGlib(b: bool): (g: int)
    ensures g == GTRUE || g == GFALSE
    ensures b <==> g != GFALSE
  {
    if b then GTRUE else GFALSE
  }

  /** Every gboolean other than GFALSE reads as true. */
  function BoolFromGlib(g: int): (b: bool)
  {
    g != GFALSE
  }

  lemma BoolRoundTrip(b: bool)
    ensures BoolFromGlib(BoolToGlib(b)) == b
  {
  }

  lemma BoolFromGlibOnlyFalseIsFalse(g: int)
    ensures !BoolFromGlib(g) <==> g == GFALSE
    ensures BoolToGlib(BoolFromGlib(g)) == (if g == GFALSE then GFALSE else GTRUE)
  {
  }

  /** `char` goes to GLib as its Unicode scalar value. */
  function CharToGlib(c: char): (u: nat)
    ensures u == c as int
  {
    c as int
  }

  /** `Option<char>` uses 0 for `None`, so `Some('\0')` and `None` collide. */
  function OptionCharToGlib(c: Option<char>): (u: nat)
    ensures c.None? ==> u == 0
    ensures c.Some? ==> u == CharToGlib(c.value)
    ensures u == 0 <==> c == None || c == Some('\0')
  {
    match c
    case None => 0
    case Some(ch) => ch as int
  }

  datatype Ordering = Less | Equal | Greater

  function OrderingToGlib(o: Ordering): (v: int)
    ensures -1 <= v <= 1
  {
    match o
    case Less => -1
    case Equal => 0
    case Greater => 1
  }

  /** `val.cmp(&0)`: the sign of any i32. */
  function OrderingFromGlib(v: int): (o: Ordering)
    ensures o == Less <==> v < 0
    ensures o == Equal <==> v == 0
    ensures o == Greater <==> v > 0
  {
    if v < 0 then Less else if v == 0 then Equal else Greater
  }

  lemma OrderingRoundTrip(o: Ordering)
    ensures OrderingFromGlib(OrderingToGlib(o)) == o
  {
  }

  lemma OrderingFromGlibKeepsSign(v: int)
    ensures OrderingToGlib(OrderingFromGlib(v)) == (if v < 0 then -1 else if v == 0 then 0 else 1)
  {
  }

  /**
   * `impl<T: OptionToGlib> ToGlib for Option<T>`: `None` becomes the type's
   * GLIB_NONE sentinel, `Some(t)` becomes `t.to_glib()`.
   */
  function OptionToGlib<T, G>(o: Option<T>, toGlib: T -> G, glibNone: G): (g: G)
    ensures o.None? ==> g == glibNone
    ensures o.Some? ==> g == toGlib(o.value)
  {
    match o
    case None => glibNone
    case Some(t) => toGlib(t)
  }

  /** The one error of a `TryFromGlib` whose only failure is the none sentinel. */
  datatype GlibNoneError = GlibNoneError

  /** `GlibNoneOrInvalidError<I>`: the value was the sentinel, or was invalid. */
  datatype GlibNoneOrInvalidError<I> = Invalid(invalid: I) | NoneValue {
    predicate IsNone() { NoneValue? }
    predicate IsInvalid() { Invalid? }
  }

  /** `From<I> for GlibNoneOrInvalidError<I>`. */
  function NoneOrInvalidFrom<I>(e: I): (r: GlibNoneOrInvalidError<I>)
    ensures r.IsInvalid() && !r.IsNone() && r.invalid == e
  {
    Invalid(e)
  }

  /** `Option<T>::from_glib`: `T::try_from_glib(val).ok()`. */
  function OptionFromGlib<G, T>(val: G, tryFromGlib: G -> Result<T, GlibNoneError>): (o: Option<T>)
    ensures o.None? <==> tryFromGlib(val).Err?
    ensures o.Some? ==> o.value == tryFromGlib(val).value
  {
    ResultOk(tryFromGlib(val))
  }

  /** `Result<Option<T>, I>::from_glib`. */
  function ResultOptionFromGlib<G, T, I>(val: G, tryFromGlib: G -> Result<T, GlibNoneOrInvalidError<I>>)
    : (r: Result<Option<T>, I>)
    ensures tryFromGlib(val).Ok? ==> r == Ok(Some(tryFromGlib(val).value))
    ensures tryFromGlib(val) == Err(NoneValue) ==> r == Ok(None)
    ensures tryFromGlib(val).Err? && tryFromGlib(val).error.Invalid? ==> r == Err(tryFromGlib(val).error.invalid)
  {
    match tryFromGlib(val)
    case Ok(v) => Ok(Some(v))
    case Err(NoneValue) => Ok(None)
    case Err(Invalid(e)) => Err(e)
  }

  /**
   * When `try_from_glib` inverts `to_glib` and rejects the sentinel, an
   * `Option<T>` survives the trip to GLib and back.
   */
  lemma OptionRoundTrip<T, G>(o: Option<T>, toGlib: T -> G, glibNone: G, tryFromGlib: G -> Result<T, GlibNoneError>)
    requires forall t :: tryFromGlib(toGlib(t)) == Ok(t)
    requires tryFromGlib(glibNone).Err?
    ensures OptionFromGlib(OptionToGlib(o, toGlib, glibNone), tryFromGlib) == o
  {
    match o
    case None =>
    case Some(t) =>
      assert tryFromGlib(toGlib(t)) == Ok(t);
  }

  /**
   * The `SpecialU32` of the module's own tests: a u32 carried as a C long
   * whose sentinel is -1, so negative longs other than -1 are invalid.
   */
  const SPECIAL_NONE: int := -1
  const U32_LIMIT: int := 0x1_0000_0000

  function SpecialU32TryFromGlib(val: int): (r: Result<nat, GlibNoneOrInvalidError<int>>)
    ensures r.Ok? <==> 0 <= val < U32_LIMIT
    ensures r.Ok? ==> r.value == val
    ensures r == Err(NoneValue) <==> val == SPECIAL_NONE
  {
    if val == SPECIAL_NONE then Err(NoneValue)
    else if 0 <= val < U32_LIMIT then Ok(val)
    else Err(Invalid(val))
  }

  lemma SpecialU32Cases()
    ensures ResultOptionFromGlib(0, SpecialU32TryFromGlib) == Ok(Some(0))
    ensures ResultOptionFromGlib(42, SpecialU32TryFromGlib) == Ok(Some(42))
    ensures ResultOptionFromGlib(SPECIAL_NONE, SpecialU32TryFromGlib) == Ok(None)
    ensures ResultOptionFromGlib(-42, SpecialU32TryFromGlib).Err?
  {
  }

  /** Index of the first null (0) entry of a NUL-terminated pointer array. */
  function FirstNull(entries: seq<int>): (k: nat)
    requires 0 in entries
    ensures k < |entries| && entries[k] == 0
    ensures forall i :: 0 <= i < k ==> entries[i] != 0
  {
    if entries[0] == 0 then 0 else 1 + FirstNull(entries[1..])
  }

  /**
   * `c_ptr_array_len`: 0 for a null array, otherwise the number of entries
   * before the terminating null. The array pointer is `isNull`; its cells
   * are `entries`, where 0 stands for a null pointer.
   */
  method CPtrArrayLen(isNull: bool, entries: seq<int>) returns (len: nat)
    requires !isNull ==> 0 in entries
    ensures isNull ==> len == 0
    ensures !isNull ==> len == FirstNull(entries)
    ensures !isNull ==> len < |entries| && entries[len] == 0 && 0 !in entries[..len]
  {
    len := 0;
    if !isNull {
      while entries[len] != 0
        invariant len <= FirstNull(entries)
        decreases FirstNull(entries) - len
      {
        len := len + 1;
      }
    }
  }
}
