/**
 * Runtime enum and flags classes (glib/src/enums.rs): `FlagsClass`
 * set/unset/is_set, the `FlagsBuilder` failure latch,
 * `FlagsValue::from_value` and the ordering of `EnumValue`.
 * A GLib type is an opaque integer; a flags word is a `Bits.Word`.
 */
module Enums {
  import opened Wrappers
  import Translate
  import Bits

  type Flags = Bits.Word

  /** One `GFlagsValue` of a class. */
  datatype FlagsValue = FlagsValue(value: Flags, name: string, nick: string)

  /** A `FlagsClass`: its type and its values, in declaration order. */
  datatype FlagsClass = FlagsClass(typ: int, values: seq<FlagsValue>)

  /** A `Value` holding flags of some type. */
  datatype Value = Value(typ: int, flags: Flags)

  /**
   * `g_flags_get_first_value` (a GLib C function): for 0, the first value
   * that is 0; otherwise the first nonzero value all of whose bits are in `f`.
   */
  predicate FirstValueMatches(v: FlagsValue, f: Flags)
  {
    if f == {} then v.value == {} else v.value != {} && v.value <= f
  }

  function LookupValue(values: seq<FlagsValue>, f: Flags): (r: Option<FlagsValue>)
    ensures r.Some? ==> r.value in values && FirstValueMatches(r.value, f)
    ensures r.None? ==> forall v :: v in values ==> !FirstValueMatches(v, f)
  {
    if values == [] then None
    else if FirstValueMatches(values[0], f) then Some(values[0])
    else LookupValue(values[1..], f)
  }

  /** `g_flags_get_value_by_name` / `_by_nick`: the first value whose name (nick) is given. */
  function LookupName(values: seq<FlagsValue>, name: string, byNick: bool): (r: Option<FlagsValue>)
    ensures r.Some? ==> r.value in values && (if byNick then r.value.nick else r.value.name) == name
    ensures r.None? ==> forall v :: v in values ==> (if byNick then v.nick else v.name) != name
  {
    if values == [] then None
    else if (if byNick then values[0].nick else values[0].name) == name then Some(values[0])
    else LookupName(values[1..], name, byNick)
  }

  /** The value found is the first in declaration order that matches: every earlier one fails to. */
  lemma {:induction false} LookupValueFirst(values: seq<FlagsValue>, f: Flags)
    ensures LookupValue(values, f).Some? ==>
      exists k :: 0 <= k < |values| && values[k] == LookupValue(values, f).value &&
        forall j :: 0 <= j < k ==> !FirstValueMatches(values[j], f)
  {
    if values != [] && !FirstValueMatches(values[0], f) {
      LookupValueFirst(values[1..], f);
      if LookupValue(values, f).Some? {
        var k :| 0 <= k < |values| - 1 && values[1..][k] == LookupValue(values, f).value &&
          forall j :: 0 <= j < k ==> !FirstValueMatches(values[1..][j], f);
        assert values[k + 1] == LookupValue(values, f).value;
        assert forall j :: 0 <= j < k + 1 ==> !FirstValueMatches(values[j], f) by {
          forall j | 0 < j < k + 1 ensures !FirstValueMatches(values[j], f) {
            assert values[j] == values[1..][j - 1];
          }
        }
      }
    } else if values != [] {
      assert values[0] == LookupValue(values, f).value;
    }
  }

  /** The value found by name (nick) is the first with that name (nick) in declaration order. */
  lemma {:induction false} LookupNameFirst(values: seq<FlagsValue>, name: string, byNick: bool)
    ensures LookupName(values, name, byNick).Some? ==>
      exists k :: 0 <= k < |values| && values[k] == LookupName(values, name, byNick).value &&
        forall j :: 0 <= j < k ==> (if byNick then values[j].nick else values[j].name) != name
  {
    if values != [] && (if byNick then values[0].nick else values[0].name) != name {
      LookupNameFirst(values[1..], name, byNick);
      if LookupName(values, name, byNick).Some? {
        var k :| 0 <= k < |values| - 1 && values[1..][k] == LookupName(values, name, byNick).value &&
          forall j :: 0 <= j < k ==> (if byNick then values[1..][j].nick else values[1..][j].name) != name;
        assert values[k + 1] == LookupName(values, name, byNick).value;
        assert forall j :: 0 <= j < k + 1 ==> (if byNick then values[j].nick else values[j].name) != name by {
          forall j | 0 < j < k + 1 ensures (if byNick then values[j].nick else values[j].name) != name {
            assert values[j] == values[1..][j - 1];
          }
        }
      }
    } else if values != [] {
      assert values[0] == LookupName(values, name, byNick).value;
    }
  }

  /**
   * The body shared by `set`, `set_by_name` and `set_by_nick`: `found` is the
   * result of the class lookup. The original value comes back in `Err`.
   */
  function SetWith(cls: FlagsClass, value: Value, found: Option<FlagsValue>): (r: Result<Value, Value>)
    ensures r.Err? <==> cls.typ != value.typ || found.None?
    ensures r.Err? ==> r.error == value
    ensures r.Ok? ==> r.value.typ == value.typ && r.value.flags == value.flags + found.value.value
  {
    if cls.typ != value.typ then Err(value)
    else match found
      case None => Err(value)
      case Some(fv) => Ok(Value(value.typ, value.flags + fv.value))
  }

  /** The body shared by `unset`, `unset_by_name` and `unset_by_nick`. */
  function UnsetWith(cls: FlagsClass, value: Value, found: Option<FlagsValue>): (r: Result<Value, Value>)
    ensures r.Err? <==> cls.typ != value.typ || found.None?
    ensures r.Err? ==> r.error == value
    ensures r.Ok? ==> r.value.typ == value.typ && r.value.flags == value.flags - found.value.value
  {
    if cls.typ != value.typ then Err(value)
    else match found
      case None => Err(value)
      case Some(fv) => Ok(Value(value.typ, value.flags - fv.value))
  }

  /**
   * `FlagsClass::set`: adds the bits of the first value of the class that
   * `f` selects, never a bit outside `f`.
   */
  function Set(cls: FlagsClass, value: Value, f: Flags): (r: Result<Value, Value>)
    ensures r.Err? <==> cls.typ != value.typ || forall v :: v in cls.values ==> !FirstValueMatches(v, f)
    ensures r.Err? ==> r.error == value
    ensures r.Ok? ==> r.value.typ == value.typ && value.flags <= r.value.flags <= value.flags + f
    ensures r.Ok? ==> r.value.flags == value.flags + LookupValue(cls.values, f).value.value
  {
    SetWith(cls, value, LookupValue(cls.values, f))
  }

  /** `FlagsClass::set_by_name`: adds the bits of the first value with that name. */
  function SetByName(cls: FlagsClass, value: Value, name: string): (r: Result<Value, Value>)
    ensures r.Err? <==> cls.typ != value.typ || forall v :: v in cls.values ==> v.name != name
    ensures r.Err? ==> r.error == value
    ensures r.Ok? ==>
      r.value.typ == value.typ && LookupName(cls.values, name, false).value.name == name &&
      r.value.flags == value.flags + LookupName(cls.values, name, false).value.value
  {
    SetWith(cls, value, LookupName(cls.values, name, false))
  }

  /** `FlagsClass::set_by_nick`: adds the bits of the first value with that nick. */
  function SetByNick(cls: FlagsClass, value: Value, nick: string): (r: Result<Value, Value>)
    ensures r.Err? <==> cls.typ != value.typ || forall v :: v in cls.values ==> v.nick != nick
    ensures r.Err? ==> r.error == value
    ensures r.Ok? ==>
      r.value.typ == value.typ && LookupName(cls.values, nick, true).value.nick == nick &&
      r.value.flags == value.flags + LookupName(cls.values, nick, true).value.value
  {
    SetWith(cls, value, LookupName(cls.values, nick, true))
  }

  /**
   * `FlagsClass::unset`: removes the bits of the first value of the class
   * that `f` selects, never a bit outside `f`.
   */
  function Unset(cls: FlagsClass, value: Value, f: Flags): (r: Result<Value, Value>)
    ensures r.Err? <==> cls.typ != value.typ || forall v :: v in cls.values ==> !FirstValueMatches(v, f)
    ensures r.Err? ==> r.error == value
    ensures r.Ok? ==> r.value.typ == value.typ && value.flags - f <= r.value.flags <= value.flags
    ensures r.Ok? ==> r.value.flags == value.flags - LookupValue(cls.values, f).value.value
  {
    UnsetWith(cls, value, LookupValue(cls.values, f))
  }

  /** `FlagsClass::unset_by_name`: removes the bits of the first value with that name. */
  function UnsetByName(cls: FlagsClass, value: Value, name: string): (r: Result<Value, Value>)
    ensures r.Err? <==> cls.typ != value.typ || forall v :: v in cls.values ==> v.name != name
    ensures r.Err? ==> r.error == value
    ensures r.Ok? ==>
      r.value.typ == value.typ && LookupName(cls.values, name, false).value.name == name &&
      r.value.flags == value.flags - LookupName(cls.values, name, false).value.value
  {
    UnsetWith(cls, value, LookupName(cls.values, name, false))
  }

  /** `FlagsClass::unset_by_nick`: removes the bits of the first value with that nick. */
  function UnsetByNick(cls: FlagsClass, value: Value, nick: string): (r: Result<Value, Value>)
    ensures r.Err? <==> cls.typ != value.typ || forall v :: v in cls.values ==> v.nick != nick
    ensures r.Err? ==> r.error == value
    ensures r.Ok? ==>
      r.value.typ == value.typ && LookupName(cls.values, nick, true).value.nick == nick &&
      r.value.flags == value.flags - LookupName(cls.values, nick, true).value.value
  {
    UnsetWith(cls, value, LookupName(cls.values, nick, true))
  }

  /** `FlagsClass::is_set`: false on a type mismatch, else whether any bit of `f` is set. */
  function IsSet(cls: FlagsClass, value: Value, f: Flags): (b: bool)
    ensures cls.typ != value.typ ==> !b
    ensures cls.typ == value.typ ==> (b <==> value.flags * f != {})
  {
    cls.typ == value.typ && Bits.Intersects(value.flags, f)
  }

  /** `is_set_by_name` / `is_set_by_nick`: false as well when the name is unknown. */
  function IsSetByName(cls: FlagsClass, value: Value, name: string, byNick: bool): (b: bool)
    ensures LookupName(cls.values, name, byNick).None? ==> !b
    ensures cls.typ != value.typ ==> !b
    ensures LookupName(cls.values, name, byNick).Some? ==>
      b == IsSet(cls, value, LookupName(cls.values, name, byNick).value.value)
  {
    if cls.typ != value.typ then false
    else match LookupName(cls.values, name, byNick)
      case Some(fv) => Bits.Intersects(value.flags, fv.value)
      case None => false
  }

  /** Setting a flag twice is the same as setting it once; likewise unsetting. */
  lemma SetUnsetIdempotent(cls: FlagsClass, value: Value, f: Flags)
    ensures Set(cls, value, f).Ok? ==> Set(cls, Set(cls, value, f).value, f) == Set(cls, value, f)
    ensures Unset(cls, value, f).Ok? ==> Unset(cls, Unset(cls, value, f).value, f) == Unset(cls, value, f)
  {
    var found := LookupValue(cls.values, f);
    if found.Some? && cls.typ == value.typ {
      var w := found.value.value;
      assert (value.flags + w) + w == value.flags + w;
      assert (value.flags - w) - w == value.flags - w;
    }
  }

  /** After a successful set of a nonzero flag value, `is_set` sees it; after an unset, it does not. */
  lemma SetThenIsSet(cls: FlagsClass, value: Value, f: Flags)
    requires Set(cls, value, f).Ok? && LookupValue(cls.values, f).value.value != {}
    ensures IsSet(cls, Set(cls, value, f).value, LookupValue(cls.values, f).value.value)
    ensures !IsSet(cls, Unset(cls, value, f).value, LookupValue(cls.values, f).value.value)
  {
    var w := LookupValue(cls.values, f).value.value;
    var i :| i in w;
    assert i in Set(cls, value, f).value.flags;
  }

  /** One step of a `FlagsBuilder` chain. */
  datatype Step =
    | SetStep(f: Flags) | SetByNameStep(name: string) | SetByNickStep(nick: string)
    | UnsetStep(f: Flags) | UnsetByNameStep(name: string) | UnsetByNickStep(nick: string)

  function ApplyStep(cls: FlagsClass, value: Value, step: Step): Result<Value, Value>
  {
    match step
    case SetStep(f) => Set(cls, value, f)
    case SetByNameStep(n) => SetByName(cls, value, n)
    case SetByNickStep(n) => SetByNick(cls, value, n)
    case UnsetStep(f) => Unset(cls, value, f)
    case UnsetByNameStep(n) => UnsetByName(cls, value, n)
    case UnsetByNickStep(n) => UnsetByNick(cls, value, n)
  }

  /** What a builder holds after a chain of steps: `take()`, then `.ok()` of the step. */
  function Chain(cls: FlagsClass, held: Option<Value>, steps: seq<Step>): Option<Value>
    decreases |steps|
  {
    if steps == [] then held
    else match held
      case None => Chain(cls, None, steps[1..])
      case Some(v) => Chain(cls, ResultOk(ApplyStep(cls, v, steps[0])), steps[1..])
  }

  /** The failure latch: once empty, the builder stays empty whatever follows. */
  lemma {:induction false} ChainLatch(cls: FlagsClass, steps: seq<Step>)
    ensures Chain(cls, None, steps) == None
  {
    if steps != [] { ChainLatch(cls, steps[1..]); }
  }

  /** A chain builds a value exactly when every step succeeds. */
  lemma {:induction false} ChainFailsIfAnyStepFails(cls: FlagsClass, v: Value, steps: seq<Step>, k: nat)
    requires k < |steps|
    requires Chain(cls, Some(v), steps[..k]).Some?
    requires ApplyStep(cls, Chain(cls, Some(v), steps[..k]).value, steps[k]).Err?
    ensures Chain(cls, Some(v), steps) == None
    decreases k
  {
    if k == 0 {
      assert steps[..0] == [];
      ChainLatch(cls, steps[1..]);
    } else {
      assert steps[..k][1..] == steps[1..][..k - 1];
      var next := ResultOk(ApplyStep(cls, v, steps[0]));
      if next.None? {
        assert Chain(cls, Some(v), steps[..k]) == Chain(cls, None, steps[..k][1..]);
        ChainLatch(cls, steps[..k][1..]);
        assert false;
      }
      ChainFailsIfAnyStepFails(cls, next.value, steps[1..], k - 1);
    }
  }

  /** `FlagsBuilder`: a class reference and the value being built, `None` once a step failed. */
  class FlagsBuilder {
    const cls: FlagsClass
    var held: Option<Value>

    /** `FlagsBuilder::new`: starts from a zero value of the class type. */
    constructor (cls: FlagsClass)
      ensures this.cls == cls && held == Some(Value(cls.typ, {}))
    {
      this.cls := cls;
      held := Some(Value(cls.typ, {}));
    }

    /** `FlagsBuilder::with_value`. */
    constructor WithValue(cls: FlagsClass, value: Value)
      ensures this.cls == cls && held == Some(value)
    {
      this.cls := cls;
      held := Some(value);
    }

    /** Every builder method: take the value, apply the step, keep `.ok()`. */
    method Apply(step: Step)
      modifies this
      ensures old(held).None? ==> held.None?
      ensures old(held).Some? ==> held == ResultOk(ApplyStep(cls, old(held).value, step))
      ensures held == Chain(cls, old(held), [step])
    {
      var taken := held;
      held := None;
      if taken.Some? {
        held := ResultOk(ApplyStep(cls, taken.value, step));
      }
    }

    /** `build`: the value, unless some step failed. */
    method Build() returns (v: Option<Value>)
      ensures v == held
    {
      v := held;
    }
  }

  /** `FlagsClass::builder_with_value`: no builder when the value's type differs. */
  method BuilderWithValue(cls: FlagsClass, value: Value) returns (b: FlagsBuilder?)
    ensures b == null <==> cls.typ != value.typ
    ensures b != null ==> fresh(b) && b.cls == cls && b.held == Some(value)
  {
    if cls.typ != value.typ {
      return null;
    }
    b := new FlagsBuilder.WithValue(cls, value);
  }

  /** The values of a class that share a bit with `f`, in class order. */
  function SetValues(values: seq<FlagsValue>, f: Flags): (r: seq<FlagsValue>)
    ensures |r| <= |values|
  {
    if values == [] then []
    else if Bits.Intersects(values[0].value, f) then [values[0]] + SetValues(values[1..], f)
    else SetValues(values[1..], f)
  }

  lemma {:induction false} SetValuesMembership(values: seq<FlagsValue>, f: Flags, v: FlagsValue)
    ensures v in SetValues(values, f) <==> v in values && Bits.Intersects(v.value, f)
  {
    if values != [] {
      SetValuesMembership(values[1..], f, v);
    }
  }

  /**
   * `FlagsValue::from_value`: `None` when the value's type is not a flags
   * type (`isFlagsType`, a GObject type-system query), otherwise the class and
   * every value of it that shares a bit with the held flags.
   */
  method FlagsFromValue(isFlagsType: bool, cls: FlagsClass, value: Value) returns (r: Option<seq<FlagsValue>>)
    requires isFlagsType ==> cls.typ == value.typ
    ensures r.None? <==> !isFlagsType
    ensures r.Some? ==> r.value == SetValues(cls.values, value.flags)
  {
    if !isFlagsType {
      return None;
    }
    var res: seq<FlagsValue> := [];
    var i := 0;
    while i < |cls.values|
      invariant 0 <= i <= |cls.values|
      invariant res + SetValues(cls.values[i..], value.flags) == SetValues(cls.values, value.flags)
    {
      assert cls.values[i..][1..] == cls.values[i + 1..];
      if Bits.Intersects(cls.values[i].value, value.flags) {
        res := res + [cls.values[i]];
      }
      i := i + 1;
    }
    assert cls.values[i..] == [];
    r := Some(res);
  }

  /** One `GEnumValue`. */
  datatype EnumValue = EnumValue(value: int, name: string, nick: string)

  /** `PartialEq`/`Ord for EnumValue`: only the integer value is compared. */
  predicate EnumValueEq(a: EnumValue, b: EnumValue) { a.value == b.value }

  function EnumValueCmp(a: EnumValue, b: EnumValue): (o: Translate.Ordering)
    ensures o == Translate.Less <==> a.value < b.value
    ensures o == Translate.Equal <==> a.value == b.value
    ensures o == Translate.Greater <==> a.value > b.value
  {
    Translate.OrderingFromGlib(a.value - b.value)
  }

  lemma EnumValueOrderIgnoresNames(a: EnumValue, b: EnumValue)
    ensures EnumValueCmp(a, b) == Translate.Equal <==> EnumValueEq(a, b)
    ensures EnumValueCmp(a, b) == Translate.Less <==> a.value < b.value
    ensures EnumValueEq(a, b) ==> EnumValueCmp(a, b) == EnumValueCmp(EnumValue(a.value, "", ""), b)
  {
  }

  /** `PartialEq for FlagsValue` likewise compares values only. */
  predicate FlagsValueEq(a: FlagsValue, b: FlagsValue) { a.value == b.value }

  /** Flags values equal by value are equal whatever their names and nicks, and the lookups of `set` agree on them. */
  lemma FlagsValueEqIgnoresNames(a: FlagsValue, b: FlagsValue, f: Flags)
    ensures FlagsValueEq(a, b) <==> FlagsValueEq(FlagsValue(a.value, "", ""), FlagsValue(b.value, "", ""))
    ensures FlagsValueEq(a, b) ==> (FirstValueMatches(a, f) <==> FirstValueMatches(b, f))
  {
  }
}
